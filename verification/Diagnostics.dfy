// The language-independent diagnostic record.
module Diagnostics {
  datatype Span = Span(
    file: string, lineStart: int, lineEnd: int, colStart: int, colEnd: int,
    byteStart: int, byteEnd: int, caption: string, primary: bool)

  datatype Diagnostic = Diagnostic(
    code: string, level: string, message: string,
    spans: seq<Span>, suggestions: seq<string>, children: seq<Diagnostic>)
}
