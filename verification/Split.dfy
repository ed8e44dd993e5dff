// The contamination-safe split of the problem suite into train and held-out.
module Split {
  import opened Prelude
  import opened Text
  import opened Sorting

  datatype Source = Mbpp | MultiplHumanEval | HumanEvalX

  datatype Family = MbppFamily | HumanEvalFamily

  datatype Half = Train | HeldOut

  // A source record: its name or task id, and everything else it carries.
  datatype Raw = Raw(name: string, payload: string)

  datatype Record = Record(id: string, source: Source, family: Family, uid: int, half: Half, raw: Raw)

  function Prefix(s: Source): string {
    match s
    case Mbpp => "multipl-e-mbpp/"
    case MultiplHumanEval => "multipl-e-humaneval/"
    case HumanEvalX => "humaneval-x/"
  }

  function FamilyOf(s: Source): Family { if s.Mbpp? then MbppFamily else HumanEvalFamily }

  // The number between the first two separators of a name; `pyInt` is Python's
  // int() on one piece, None where it raises.
  function UidOf(pyInt: string -> Option<int>, s: Source, name: string): Option<int> {
    var pieces := SplitOn(name, if s.HumanEvalX? then '/' else '_');
    if |pieces| < 2 then None else pyInt(pieces[1])
  }

  // "mbpp_3_is_not_prime" is problem 3, "Rust/0" is problem 0.
  lemma UidIsSecondPiece(pyInt: string -> Option<int>, s: Source, first: string, number: string, rest: string)
    requires var sep := if s.HumanEvalX? then '/' else '_'; sep !in first && sep !in number
    ensures var sep := if s.HumanEvalX? then '/' else '_';
      && UidOf(pyInt, s, first + ([sep] + (number + ([sep] + rest)))) == pyInt(number)
      && UidOf(pyInt, s, first + ([sep] + number)) == pyInt(number)
      && UidOf(pyInt, s, first) == None
  {
    var sep := if s.HumanEvalX? then '/' else '_';
    SplitConcat(first, number + ([sep] + rest), sep);
    SplitConcat(number, rest, sep);
    SplitConcat(first, number, sep);
    SplitPlain(first, sep);
    SplitPlain(number, sep);
  }

  predicate AllNumbered(pyInt: string -> Option<int>, s: Source, raws: seq<Raw>) {
    forall i :: 0 <= i < |raws| ==> UidOf(pyInt, s, raws[i].name).Some?
  }

  predicate Numbered(pyInt: string -> Option<int>, s: Source, raw: Raw) { UidOf(pyInt, s, raw.name).Some? }

  function RecordOf(pyInt: string -> Option<int>, s: Source, trainIds: set<int>, raw: Raw): Record
    requires Numbered(pyInt, s, raw)
  {
    var uid := UidOf(pyInt, s, raw.name).value;
    Record(Prefix(s) + raw.name, s, FamilyOf(s), uid, if uid in trainIds then Train else HeldOut, raw)
  }

  // The records of one source that go to one half, in order. Held-out
  // HumanEval problems in the MultiPL-E rendering are dropped.
  function Emitted(pyInt: string -> Option<int>, s: Source, trainIds: set<int>, raws: seq<Raw>, half: Half): seq<Record>
    requires AllNumbered(pyInt, s, raws)
  {
    if raws == [] then []
    else
      var n := |raws| - 1;
      var r := RecordOf(pyInt, s, trainIds, raws[n]);
      Emitted(pyInt, s, trainIds, raws[..n], half)
        + if r.half == half && !(half.HeldOut? && s.MultiplHumanEval?) then [r] else []
  }

  // int(n * (1 - 0.20)) in exact arithmetic.
  function Cut(n: nat): nat { n * 4 / 5 }

  function TrainIds(shuffled: seq<int>): set<int> { Elements(shuffled[..Cut(|shuffled|)]) }

  predicate IntLe(a: int, b: int) { a <= b }

  function Uids(pyInt: string -> Option<int>, s: Source, raws: seq<Raw>): seq<int>
    requires AllNumbered(pyInt, s, raws)
  {
    if raws == [] then []
    else Uids(pyInt, s, raws[..|raws| - 1]) + [UidOf(pyInt, s, raws[|raws| - 1].name).value]
  }

  const HUMAN_EVAL_IDS: seq<int> := seq(164, i => i)

  datatype Input = Input(humanEval: seq<Raw>, mbpp: seq<Raw>, humanEvalX: seq<Raw>)

  predicate Readable(pyInt: string -> Option<int>, input: Input) {
    && AllNumbered(pyInt, MultiplHumanEval, input.humanEval)
    && AllNumbered(pyInt, Mbpp, input.mbpp)
    && AllNumbered(pyInt, HumanEvalX, input.humanEvalX)
  }

  // The first and the second shuffle of the seeded generator: the same list
  // always comes out the same.
  datatype Config = Config(
    pyInt: string -> Option<int>, shuffleHe: seq<int> -> seq<int>, shuffleMbpp: seq<int> -> seq<int>)

  function HeTrain(cfg: Config): set<int> { TrainIds(cfg.shuffleHe(HUMAN_EVAL_IDS)) }

  function MbppTrain(cfg: Config, input: Input): set<int>
    requires Readable(cfg.pyInt, input)
  {
    TrainIds(cfg.shuffleMbpp(SortBy(IntLe, Uids(cfg.pyInt, Mbpp, input.mbpp))))
  }

  function Joined(pyInt: string -> Option<int>, mbppTrain: set<int>, heTrain: set<int>, input: Input, half: Half)
    : seq<Record>
    requires Readable(pyInt, input)
  {
    Emitted(pyInt, Mbpp, mbppTrain, input.mbpp, half)
      + Emitted(pyInt, MultiplHumanEval, heTrain, input.humanEval, half)
      + Emitted(pyInt, HumanEvalX, heTrain, input.humanEvalX, half)
  }

  function HalfOf(cfg: Config, input: Input, half: Half): seq<Record>
    requires Readable(cfg.pyInt, input)
  {
    Joined(cfg.pyInt, MbppTrain(cfg, input), HeTrain(cfg), input, half)
  }

  predicate IdLe(a: Record, b: Record) { StringLe(a.id, b.id) }

  function Output(cfg: Config, input: Input, half: Half): seq<Record>
    requires Readable(cfg.pyInt, input)
  {
    SortBy(IdLe, HalfOf(cfg, input, half))
  }

  // ---- the program ----

  // What one record adds to each half.
  function ToTrain(r: Record): seq<Record> { if r.half.Train? then [r] else [] }

  function ToHeldOut(s: Source, r: Record): seq<Record> { if r.half.HeldOut? && !s.MultiplHumanEval? then [r] else [] }

  // One of the three emission loops.
  method Emit(pyInt: string -> Option<int>, s: Source, trainIds: set<int>, raws: seq<Raw>,
              train: seq<Record>, heldOut: seq<Record>)
    returns (train': seq<Record>, heldOut': seq<Record>, ok: bool)
    ensures ok <==> AllNumbered(pyInt, s, raws)
    ensures ok ==> train' == train + Emitted(pyInt, s, trainIds, raws, Train)
    ensures ok ==> heldOut' == heldOut + Emitted(pyInt, s, trainIds, raws, HeldOut)
  {
    train', heldOut', ok := train, heldOut, true;
    EmittedNone(pyInt, s, trainIds, raws[..0]);
    hide Emitted, UidOf, AllNumbered, RecordOf, ToTrain, ToHeldOut;
    for i := 0 to |raws|
      invariant ok && AllNumbered(pyInt, s, raws[..i])
      invariant train' == train + Emitted(pyInt, s, trainIds, raws[..i], Train)
      invariant heldOut' == heldOut + Emitted(pyInt, s, trainIds, raws[..i], HeldOut)
    {
      var uid := UidOf(pyInt, s, raws[i].name);
      if uid.None? {
        NotNumbered(pyInt, s, raws, i);
        ok := false;
        return;
      }
      EmittedNext(pyInt, s, trainIds, raws, i);
      train', heldOut' := EmitOne(pyInt, s, trainIds, raws[i], uid.value, train', heldOut');
      ghost var r := RecordOf(pyInt, s, trainIds, raws[i]);
      Associative(train, Emitted(pyInt, s, trainIds, raws[..i], Train), ToTrain(r));
      Associative(heldOut, Emitted(pyInt, s, trainIds, raws[..i], HeldOut), ToHeldOut(s, r));
    }
    assert raws[..|raws|] == raws;
  }

  // The body of an emission loop.
  method EmitOne(pyInt: string -> Option<int>, s: Source, trainIds: set<int>, raw: Raw, uid: int,
                 train: seq<Record>, heldOut: seq<Record>)
    returns (train': seq<Record>, heldOut': seq<Record>)
    requires UidOf(pyInt, s, raw.name) == Some(uid)
    ensures var r := RecordOf(pyInt, s, trainIds, raw);
      && train' == train + ToTrain(r)
      && heldOut' == heldOut + ToHeldOut(s, r)
  {
    train', heldOut' := train, heldOut;
    var half := if uid in trainIds then Train else HeldOut;
    var r := Record(Prefix(s) + raw.name, s, FamilyOf(s), uid, half, raw);
    if half.Train? {
      train' := train' + [r];
    } else if !s.MultiplHumanEval? {
      heldOut' := heldOut' + [r];
    }
  }

  lemma NotNumbered(pyInt: string -> Option<int>, s: Source, raws: seq<Raw>, i: nat)
    requires i < |raws| && !Numbered(pyInt, s, raws[i])
    ensures !AllNumbered(pyInt, s, raws)
  {
  }

  lemma EmittedNone(pyInt: string -> Option<int>, s: Source, trainIds: set<int>, raws: seq<Raw>)
    requires raws == []
    ensures AllNumbered(pyInt, s, raws)
    ensures Emitted(pyInt, s, trainIds, raws, Train) == [] == Emitted(pyInt, s, trainIds, raws, HeldOut)
  {
  }

  lemma EmittedNext(pyInt: string -> Option<int>, s: Source, trainIds: set<int>, raws: seq<Raw>, i: nat)
    requires i < |raws| && AllNumbered(pyInt, s, raws[..i]) && Numbered(pyInt, s, raws[i])
    ensures AllNumbered(pyInt, s, raws[..i + 1])
    ensures var r := RecordOf(pyInt, s, trainIds, raws[i]);
      && Emitted(pyInt, s, trainIds, raws[..i + 1], Train)
         == Emitted(pyInt, s, trainIds, raws[..i], Train) + ToTrain(r)
      && Emitted(pyInt, s, trainIds, raws[..i + 1], HeldOut)
         == Emitted(pyInt, s, trainIds, raws[..i], HeldOut) + ToHeldOut(s, r)
  {
    hide UidOf;
    assert raws[..i + 1][..i] == raws[..i] && raws[..i + 1][i] == raws[i];
    var r := RecordOf(pyInt, s, trainIds, raws[i]);
    hide RecordOf, AllNumbered;
  }

  method MbppIds(pyInt: string -> Option<int>, raws: seq<Raw>) returns (ids: Option<seq<int>>)
    ensures ids.Some? <==> AllNumbered(pyInt, Mbpp, raws)
    ensures ids.Some? ==> ids.value == Uids(pyInt, Mbpp, raws)
  {
    var out: seq<int> := [];
    for i := 0 to |raws|
      invariant AllNumbered(pyInt, Mbpp, raws[..i]) && out == Uids(pyInt, Mbpp, raws[..i])
    {
      var uid := UidOf(pyInt, Mbpp, raws[i].name);
      if uid.None? {
        return None;
      }
      assert raws[..i + 1][..i] == raws[..i];
      out := out + [uid.value];
    }
    assert raws[..|raws|] == raws;
    return Some(out);
  }

  // The two output files; an id that cannot be read stops the program.
  method Build(cfg: Config, input: Input) returns (train: seq<Record>, heldOut: seq<Record>, ok: bool)
    ensures ok <==> Readable(cfg.pyInt, input)
    ensures ok ==> train == Output(cfg, input, Train) && heldOut == Output(cfg, input, HeldOut)
  {
    train, heldOut := [], [];
    var heTrain := TrainIds(cfg.shuffleHe(HUMAN_EVAL_IDS));
    var ids := MbppIds(cfg.pyInt, input.mbpp);
    if ids.None? {
      ok := false;
      return;
    }
    var mbppTrain := TrainIds(cfg.shuffleMbpp(SortBy(IntLe, ids.value)));
    hide Emitted, TrainIds, SortBy, AllNumbered;
    train, heldOut, ok := EmitAll(cfg.pyInt, mbppTrain, heTrain, input);
    if ok {
      train := SortBy(IdLe, train);
      heldOut := SortBy(IdLe, heldOut);
    }
  }

  method EmitAll(pyInt: string -> Option<int>, mbppTrain: set<int>, heTrain: set<int>, input: Input)
    returns (train: seq<Record>, heldOut: seq<Record>, ok: bool)
    ensures ok <==> Readable(pyInt, input)
    ensures ok ==> train == Joined(pyInt, mbppTrain, heTrain, input, Train)
    ensures ok ==> heldOut == Joined(pyInt, mbppTrain, heTrain, input, HeldOut)
  {
    hide Emitted, AllNumbered;
    train, heldOut, ok := Emit(pyInt, Mbpp, mbppTrain, input.mbpp, [], []);
    if !ok { return; }
    assert train == Emitted(pyInt, Mbpp, mbppTrain, input.mbpp, Train);
    assert heldOut == Emitted(pyInt, Mbpp, mbppTrain, input.mbpp, HeldOut);
    train, heldOut, ok := Emit(pyInt, MultiplHumanEval, heTrain, input.humanEval, train, heldOut);
    if !ok { return; }
    train, heldOut, ok := Emit(pyInt, HumanEvalX, heTrain, input.humanEvalX, train, heldOut);
  }

  // ---- no contamination ----

  lemma {:induction false} EmittedSound(pyInt: string -> Option<int>, s: Source, trainIds: set<int>, raws: seq<Raw>,
                                      half: Half, r: Record)
    requires AllNumbered(pyInt, s, raws) && r in Emitted(pyInt, s, trainIds, raws, half)
    ensures r.source == s && r.family == FamilyOf(s) && r.half == half
    ensures r.uid in trainIds <==> half.Train?
    ensures s.MultiplHumanEval? ==> half.Train?
    ensures r.raw in raws && Numbered(pyInt, s, r.raw) && r == RecordOf(pyInt, s, trainIds, r.raw)
  {
    var n := |raws| - 1;
    if r in Emitted(pyInt, s, trainIds, raws[..n], half) {
      EmittedSound(pyInt, s, trainIds, raws[..n], half, r);
    }
  }

  // The ids that count as train ids for a family.
  function FamilyTrain(cfg: Config, input: Input, f: Family): set<int>
    requires Readable(cfg.pyInt, input)
  {
    if f.MbppFamily? then MbppTrain(cfg, input) else HeTrain(cfg)
  }

  function Raws(input: Input, s: Source): seq<Raw> {
    match s
    case Mbpp => input.mbpp
    case MultiplHumanEval => input.humanEval
    case HumanEvalX => input.humanEvalX
  }

  // A record of a half comes from its own source.
  lemma HalfSound(cfg: Config, input: Input, half: Half, r: Record)
    requires Readable(cfg.pyInt, input) && r in HalfOf(cfg, input, half)
    ensures r.raw in Raws(input, r.source) && r.half == half && r.family == FamilyOf(r.source)
    ensures r.uid in FamilyTrain(cfg, input, r.family) <==> half.Train?
    ensures r.source.MultiplHumanEval? ==> half.Train?
    ensures Numbered(cfg.pyInt, r.source, r.raw)
    ensures r.uid == UidOf(cfg.pyInt, r.source, r.raw.name).value && r.id == Prefix(r.source) + r.raw.name
  {
    hide Emitted, TrainIds, UidOf;
    if r in Emitted(cfg.pyInt, Mbpp, MbppTrain(cfg, input), input.mbpp, half) {
      EmittedSound(cfg.pyInt, Mbpp, MbppTrain(cfg, input), input.mbpp, half, r);
    } else if r in Emitted(cfg.pyInt, MultiplHumanEval, HeTrain(cfg), input.humanEval, half) {
      EmittedSound(cfg.pyInt, MultiplHumanEval, HeTrain(cfg), input.humanEval, half, r);
    } else {
      EmittedSound(cfg.pyInt, HumanEvalX, HeTrain(cfg), input.humanEvalX, half, r);
    }
  }

  lemma OutputSound(cfg: Config, input: Input, half: Half, r: Record)
    requires Readable(cfg.pyInt, input) && r in Output(cfg, input, half)
    ensures r.half == half && (r.uid in FamilyTrain(cfg, input, r.family) <==> half.Train?)
  {
    hide HalfOf, SortBy, FamilyTrain, AllNumbered;
    SortMultiset(IdLe, HalfOf(cfg, input, half));
    assert r in multiset(HalfOf(cfg, input, half));
    HalfSound(cfg, input, half, r);
  }

  // No problem of either family is in both halves, for any shuffle and even
  // with duplicate ids.
  lemma NoContamination(cfg: Config, input: Input, r: Record, q: Record)
    requires Readable(cfg.pyInt, input)
    requires r in Output(cfg, input, Train) && q in Output(cfg, input, HeldOut) && r.family == q.family
    ensures r.uid != q.uid
  {
    OutputSound(cfg, input, Train, r);
    OutputSound(cfg, input, HeldOut, q);
  }

  // ---- nothing lost, nothing doubled ----

  // A record as the program writes it: named after its source, numbered by its
  // name, in the half of its problem, and no held-out MultiPL-E HumanEval record.
  predicate Proper(pyInt: string -> Option<int>, trainIds: set<int>, r: Record) {
    && r.id == Prefix(r.source) + r.raw.name && r.family == FamilyOf(r.source)
    && UidOf(pyInt, r.source, r.raw.name) == Some(r.uid)
    && (r.uid in trainIds <==> r.half.Train?)
    && (r.source.MultiplHumanEval? ==> r.half.Train?)
  }

  function Times<T(==)>(s: seq<T>, x: T): nat { multiset(s)[x] }

  lemma CountLast<T>(s: seq<T>, longer: seq<T>, last: T, kept: bool, x: T)
    requires longer == if kept then s + [last] else s
    ensures Times(longer, x) == Times(s, x) + if kept && x == last then 1 else 0
  {
  }

  lemma EmittedLast(pyInt: string -> Option<int>, s: Source, trainIds: set<int>, raws: seq<Raw>, half: Half)
    requires raws != [] && AllNumbered(pyInt, s, raws)
    ensures Numbered(pyInt, s, raws[|raws| - 1]) && AllNumbered(pyInt, s, raws[..|raws| - 1])
    ensures var r := RecordOf(pyInt, s, trainIds, raws[|raws| - 1]);
      Emitted(pyInt, s, trainIds, raws, half)
      == if r.half == half && !(half.HeldOut? && s.MultiplHumanEval?)
         then Emitted(pyInt, s, trainIds, raws[..|raws| - 1], half) + [r]
         else Emitted(pyInt, s, trainIds, raws[..|raws| - 1], half)
  {
    hide UidOf, RecordOf;
  }

  lemma NothingEmitted(pyInt: string -> Option<int>, s: Source, trainIds: set<int>, half: Half, r: Record)
    ensures Times(Emitted(pyInt, s, trainIds, [], half), r) == 0 == Times([], r.raw)
  {
  }

  // What a source record turns into, if it is kept.
  lemma LastRecord(pyInt: string -> Option<int>, s: Source, trainIds: set<int>, raw: Raw, half: Half, r: Record)
    requires Numbered(pyInt, s, raw)
    ensures var made := RecordOf(pyInt, s, trainIds, raw);
      made.half == half && !(half.HeldOut? && s.MultiplHumanEval?) && made == r
      <==> r.raw == raw && r.source == s && r.half == half && Proper(pyInt, trainIds, r)
  {
    hide UidOf;
  }

  lemma {:induction false} EmittedCount(pyInt: string -> Option<int>, s: Source, trainIds: set<int>, raws: seq<Raw>,
                                      half: Half, r: Record)
    requires AllNumbered(pyInt, s, raws)
    ensures Times(Emitted(pyInt, s, trainIds, raws, half), r)
         == if r.source == s && r.half == half && Proper(pyInt, trainIds, r) then Times(raws, r.raw) else 0
  {
    hide *;
    if raws == [] {
      NothingEmitted(pyInt, s, trainIds, half, r);
    } else {
      var front, last := raws[..|raws| - 1], raws[|raws| - 1];
      EmittedLast(pyInt, s, trainIds, raws, half);
      EmittedCount(pyInt, s, trainIds, front, half, r);
      LastRecord(pyInt, s, trainIds, last, half, r);
      var made := RecordOf(pyInt, s, trainIds, last);
      CountLast(Emitted(pyInt, s, trainIds, front, half), Emitted(pyInt, s, trainIds, raws, half), made,
                made.half == half && !(half.HeldOut? && s.MultiplHumanEval?), r);
      CountLast(front, raws, last, true, r.raw);
    }
  }

  lemma HalfCount(cfg: Config, input: Input, half: Half, r: Record)
    requires Readable(cfg.pyInt, input)
    ensures multiset(HalfOf(cfg, input, half))[r]
         == if r.half == half && Proper(cfg.pyInt, FamilyTrain(cfg, input, FamilyOf(r.source)), r)
            then multiset(Raws(input, r.source))[r.raw] else 0
  {
    hide Emitted, Proper, AllNumbered, MbppTrain, HeTrain;
    EmittedCount(cfg.pyInt, Mbpp, MbppTrain(cfg, input), input.mbpp, half, r);
    EmittedCount(cfg.pyInt, MultiplHumanEval, HeTrain(cfg), input.humanEval, half, r);
    EmittedCount(cfg.pyInt, HumanEvalX, HeTrain(cfg), input.humanEvalX, half, r);
  }

  // Each output holds exactly the records of its half, as often as their source
  // records occur: every MBPP and HumanEval-X record is in one of the two, and a
  // MultiPL-E HumanEval record in train when its problem is a train problem.
  lemma EachRecordOnce(cfg: Config, input: Input, half: Half, r: Record)
    requires Readable(cfg.pyInt, input)
    ensures multiset(Output(cfg, input, half))[r]
         == if r.half == half && Proper(cfg.pyInt, FamilyTrain(cfg, input, FamilyOf(r.source)), r)
            then multiset(Raws(input, r.source))[r.raw] else 0
  {
    HalfCount(cfg, input, half, r);
    hide HalfOf, SortBy, Proper, FamilyTrain, Raws;
    SortMultiset(IdLe, HalfOf(cfg, input, half));
  }

  // ---- how many problems train gets ----

  // Of distinct ids, four fifths, rounded down, are train ids.
  lemma TrainShare(shuffled: seq<int>, ids: seq<int>)
    requires NoDuplicates(ids) && multiset(shuffled) == multiset(ids)
    ensures TrainIds(shuffled) <= Elements(ids)
    ensures 5 * |TrainIds(shuffled)| <= 4 * |ids| < 5 * |TrainIds(shuffled)| + 5
  {
    Rearranged(ids, shuffled);
    DistinctCount(shuffled[..Cut(|shuffled|)]);
  }

  // 131 of the 164 HumanEval problems, and four fifths of the MBPP problems.
  lemma TrainSizes(cfg: Config, input: Input)
    requires Readable(cfg.pyInt, input)
    requires multiset(cfg.shuffleHe(HUMAN_EVAL_IDS)) == multiset(HUMAN_EVAL_IDS)
    requires var ids := SortBy(IntLe, Uids(cfg.pyInt, Mbpp, input.mbpp));
      multiset(cfg.shuffleMbpp(ids)) == multiset(ids)
    requires NoDuplicates(Uids(cfg.pyInt, Mbpp, input.mbpp))
    ensures |HeTrain(cfg)| == 131 && forall uid :: uid in HeTrain(cfg) ==> 0 <= uid < 164
    ensures 5 * |MbppTrain(cfg, input)| <= 4 * |input.mbpp| < 5 * |MbppTrain(cfg, input)| + 5
  {
    TrainShare(cfg.shuffleHe(HUMAN_EVAL_IDS), HUMAN_EVAL_IDS);
    var ids := Uids(cfg.pyInt, Mbpp, input.mbpp);
    UidsSize(cfg.pyInt, Mbpp, input.mbpp);
    SortMultiset(IntLe, ids);
    hide TrainIds, SortBy, Uids;
    TrainShare(cfg.shuffleMbpp(SortBy(IntLe, ids)), ids);
  }

  lemma {:induction false} UidsSize(pyInt: string -> Option<int>, s: Source, raws: seq<Raw>)
    requires AllNumbered(pyInt, s, raws)
    ensures |Uids(pyInt, s, raws)| == |raws|
  {
    if raws != [] {
      UidsSize(pyInt, s, raws[..|raws| - 1]);
    }
  }

  // ---- the order of the input does not matter ----

  lemma {:induction false} EmittedConcat(pyInt: string -> Option<int>, s: Source, ids: set<int>,
                                       a: seq<Raw>, b: seq<Raw>, half: Half)
    requires AllNumbered(pyInt, s, a) && AllNumbered(pyInt, s, b)
    ensures AllNumbered(pyInt, s, a + b)
    ensures Emitted(pyInt, s, ids, a + b, half) == Emitted(pyInt, s, ids, a, half) + Emitted(pyInt, s, ids, b, half)
  {
    hide UidOf;
    if b == [] {
      assert a + b == a;
    } else {
      var n := |b| - 1;
      assert (a + b)[..|a + b| - 1] == a + b[..n];
      EmittedConcat(pyInt, s, ids, a, b[..n], half);
      var r := RecordOf(pyInt, s, ids, b[n]);
      hide RecordOf;
      var last := if r.half == half && !(half.HeldOut? && s.MultiplHumanEval?) then [r] else [];
      Associative(Emitted(pyInt, s, ids, a, half), Emitted(pyInt, s, ids, b[..n], half), last);
    }
  }

  lemma {:induction false} UidsConcat(pyInt: string -> Option<int>, s: Source, a: seq<Raw>, b: seq<Raw>)
    requires AllNumbered(pyInt, s, a) && AllNumbered(pyInt, s, b)
    ensures AllNumbered(pyInt, s, a + b)
    ensures Uids(pyInt, s, a + b) == Uids(pyInt, s, a) + Uids(pyInt, s, b)
  {
    hide UidOf;
    if b == [] {
      assert a + b == a;
    } else {
      var n := |b| - 1;
      assert (a + b)[..|a + b| - 1] == a + b[..n];
      UidsConcat(pyInt, s, a, b[..n]);
    }
  }

  // b is what a ends in, and the rest of a, in some order.
  lemma TakeOut(a: seq<Raw>, b: seq<Raw>) returns (front: seq<Raw>, back: seq<Raw>)
    requires a != [] && multiset(a) == multiset(b)
    ensures b == front + ([a[|a| - 1]] + back)
    ensures multiset(a[..|a| - 1]) == multiset(front + back)
  {
    var x := a[|a| - 1];
    assert x in multiset(b);
    var k :| 0 <= k < |b| && b[k] == x;
    front, back := b[..k], b[k + 1..];
    assert b == front + ([x] + back);
    Removed(a[..|a| - 1], x, front, back, a);
  }

  lemma Removed(rest: seq<Raw>, x: Raw, front: seq<Raw>, back: seq<Raw>, a: seq<Raw>)
    requires a == rest + [x] && multiset(a) == multiset(front + ([x] + back))
    ensures multiset(rest) == multiset(front + back)
  {
    assert multiset(a) == multiset(rest) + multiset{x};
    assert multiset([x] + back) == multiset{x} + multiset(back);
    assert multiset(front + ([x] + back)) == multiset(front) + multiset{x} + multiset(back);
    assert multiset(rest) == multiset(a) - multiset{x};
  }

  lemma NumberedParts(pyInt: string -> Option<int>, s: Source, front: seq<Raw>, x: Raw, back: seq<Raw>)
    requires AllNumbered(pyInt, s, front + ([x] + back))
    ensures AllNumbered(pyInt, s, front) && AllNumbered(pyInt, s, back) && AllNumbered(pyInt, s, [x])
    ensures AllNumbered(pyInt, s, front + back)
  {
    var b := front + ([x] + back);
    assert forall i :: 0 <= i < |front| ==> front[i] == b[i];
    assert forall i :: 0 <= i < |back| ==> back[i] == b[|front| + 1 + i];
    assert x == b[|front|];
  }

  // Splitting what is emitted for front, x, back.
  lemma EmittedAround(pyInt: string -> Option<int>, s: Source, ids: set<int>,
                      front: seq<Raw>, x: Raw, back: seq<Raw>, half: Half)
    requires AllNumbered(pyInt, s, front) && AllNumbered(pyInt, s, [x]) && AllNumbered(pyInt, s, back)
    ensures AllNumbered(pyInt, s, front + ([x] + back)) && AllNumbered(pyInt, s, front + back)
    ensures multiset(Emitted(pyInt, s, ids, front + ([x] + back), half))
         == multiset(Emitted(pyInt, s, ids, front + back, half)) + multiset(Emitted(pyInt, s, ids, [x], half))
  {
    EmittedConcat(pyInt, s, ids, [x], back, half);
    EmittedConcat(pyInt, s, ids, front, [x] + back, half);
    EmittedConcat(pyInt, s, ids, front, back, half);
    hide Emitted, AllNumbered;
  }

  lemma UidsAround(pyInt: string -> Option<int>, s: Source, front: seq<Raw>, x: Raw, back: seq<Raw>)
    requires AllNumbered(pyInt, s, front) && AllNumbered(pyInt, s, [x]) && AllNumbered(pyInt, s, back)
    ensures AllNumbered(pyInt, s, front + ([x] + back)) && AllNumbered(pyInt, s, front + back)
    ensures multiset(Uids(pyInt, s, front + ([x] + back)))
         == multiset(Uids(pyInt, s, front + back)) + multiset(Uids(pyInt, s, [x]))
  {
    UidsConcat(pyInt, s, [x], back);
    UidsConcat(pyInt, s, front, [x] + back);
    UidsConcat(pyInt, s, front, back);
    hide Uids, AllNumbered;
  }

  lemma {:induction false} Reordered(pyInt: string -> Option<int>, s: Source, ids: set<int>,
                                    a: seq<Raw>, b: seq<Raw>, half: Half)
    requires AllNumbered(pyInt, s, a) && AllNumbered(pyInt, s, b) && multiset(a) == multiset(b)
    ensures multiset(Emitted(pyInt, s, ids, a, half)) == multiset(Emitted(pyInt, s, ids, b, half))
    ensures multiset(Uids(pyInt, s, a)) == multiset(Uids(pyInt, s, b))
    decreases |a|
  {
    if a == [] {
      assert multiset(b) == multiset{};
      assert b == [];
    } else {
      var rest, x := a[..|a| - 1], a[|a| - 1];
      var front, back := TakeOut(a, b);
      var none: seq<Raw> := [];
      assert a == rest + ([x] + none) && rest + none == rest;
      hide Emitted, Uids, AllNumbered;
      NumberedParts(pyInt, s, front, x, back);
      NumberedParts(pyInt, s, rest, x, none);
      Reordered(pyInt, s, ids, rest, front + back, half);
      EmittedAround(pyInt, s, ids, front, x, back, half);
      EmittedAround(pyInt, s, ids, rest, x, none, half);
      UidsAround(pyInt, s, front, x, back);
      UidsAround(pyInt, s, rest, x, none);
    }
  }

  // Records of one source that share a name are the same record, as they are
  // when record ids are distinct.
  predicate NamesDistinct(raws: seq<Raw>) {
    forall i, j :: 0 <= i < |raws| && 0 <= j < |raws| && raws[i].name == raws[j].name ==> raws[i] == raws[j]
  }

  predicate Distinct(input: Input) {
    NamesDistinct(input.humanEval) && NamesDistinct(input.mbpp) && NamesDistinct(input.humanEvalX)
  }

  lemma IdDetermines(s: Source, name: string, s': Source, name': string)
    requires Prefix(s) + name == Prefix(s') + name'
    ensures s == s' && name == name'
  {
    var id, id' := Prefix(s) + name, Prefix(s') + name';
    assert id[0] == id'[0] && id[10] == id'[10];
    assert id[|Prefix(s)|..] == name && id'[|Prefix(s')|..] == name';
  }

  predicate SameRecords(a: Input, b: Input) {
    && multiset(a.humanEval) == multiset(b.humanEval)
    && multiset(a.mbpp) == multiset(b.mbpp)
    && multiset(a.humanEvalX) == multiset(b.humanEvalX)
  }

  lemma IdsDistinct(cfg: Config, input: Input, half: Half, r: Record, q: Record)
    requires Readable(cfg.pyInt, input) && Distinct(input)
    requires r in HalfOf(cfg, input, half) && q in HalfOf(cfg, input, half) && r.id == q.id
    ensures r == q
  {
    HalfSound(cfg, input, half, r);
    HalfSound(cfg, input, half, q);
    hide HalfOf, UidOf, Prefix;
    IdDetermines(r.source, r.raw.name, q.source, q.raw.name);
    assert r.raw == q.raw;
  }

  lemma SameTrainIds(cfg: Config, a: Input, b: Input)
    requires Readable(cfg.pyInt, a) && Readable(cfg.pyInt, b) && SameRecords(a, b)
    ensures MbppTrain(cfg, a) == MbppTrain(cfg, b)
  {
    Reordered(cfg.pyInt, Mbpp, {}, a.mbpp, b.mbpp, Train);
    var x, y := Uids(cfg.pyInt, Mbpp, a.mbpp), Uids(cfg.pyInt, Mbpp, b.mbpp);
    SortMultiset(IntLe, x);
    SortMultiset(IntLe, y);
    SortSorted(IntLe, x);
    SortSorted(IntLe, y);
    SortedUnique(IntLe, SortBy(IntLe, x), SortBy(IntLe, y));
  }

  lemma IdPreorder()
    ensures Preorder(IdLe)
  {
    forall x: Record, y: Record ensures IdLe(x, y) || IdLe(y, x) {
      StringTotal(x.id, y.id);
    }
    forall x: Record, y: Record, z: Record | IdLe(x, y) && IdLe(y, z) ensures IdLe(x, z) {
      StringTransitive(x.id, y.id, z.id);
    }
  }

  lemma SameHalf(cfg: Config, a: Input, b: Input, half: Half)
    requires Readable(cfg.pyInt, a) && Readable(cfg.pyInt, b) && SameRecords(a, b)
    ensures multiset(HalfOf(cfg, a, half)) == multiset(HalfOf(cfg, b, half))
  {
    SameTrainIds(cfg, a, b);
    Reordered(cfg.pyInt, Mbpp, MbppTrain(cfg, a), a.mbpp, b.mbpp, half);
    Reordered(cfg.pyInt, MultiplHumanEval, HeTrain(cfg), a.humanEval, b.humanEval, half);
    Reordered(cfg.pyInt, HumanEvalX, HeTrain(cfg), a.humanEvalX, b.humanEvalX, half);
    hide Emitted, Uids, MbppTrain, HeTrain, AllNumbered;
  }

  // The output is in the order of its ids.
  lemma OutputOrdered(cfg: Config, input: Input, half: Half, i: nat, j: nat)
    requires Readable(cfg.pyInt, input) && i < j < |Output(cfg, input, half)|
    ensures var r, q := Output(cfg, input, half)[i], Output(cfg, input, half)[j];
      r.id <= q.id || exists k :: 0 <= k < |r.id| && k < |q.id| && r.id[..k] == q.id[..k] && r.id[k] < q.id[k]
  {
    IdPreorder();
    SortSorted(IdLe, HalfOf(cfg, input, half));
    hide HalfOf, SortBy, StringLe, AllNumbered;
    var r, q := Output(cfg, input, half)[i], Output(cfg, input, half)[j];
    assert IdLe(r, q);
    StringLeIff(r.id, q.id);
  }

  // What is shuffled are the MBPP ids from the smallest to the largest.
  lemma ShuffledInOrder(cfg: Config, input: Input, ids: seq<int>)
    requires Readable(cfg.pyInt, input) && multiset(ids) == multiset(Uids(cfg.pyInt, Mbpp, input.mbpp))
    requires forall i, j :: 0 <= i < j < |ids| ==> ids[i] <= ids[j]
    ensures MbppTrain(cfg, input) == TrainIds(cfg.shuffleMbpp(ids))
  {
    var uids := Uids(cfg.pyInt, Mbpp, input.mbpp);
    SortMultiset(IntLe, uids);
    SortSorted(IntLe, uids);
    hide SortBy, TrainIds, Uids;
    SortedUnique(IntLe, SortBy(IntLe, uids), ids);
  }

  // Reordering the input files changes neither output file.
  lemma OrderIndependent(cfg: Config, a: Input, b: Input, half: Half)
    requires Readable(cfg.pyInt, a) && Readable(cfg.pyInt, b) && SameRecords(a, b) && Distinct(a)
    ensures Output(cfg, a, half) == Output(cfg, b, half)
  {
    SameHalf(cfg, a, b, half);
    IdPreorder();
    var x, y := HalfOf(cfg, a, half), HalfOf(cfg, b, half);
    hide HalfOf, StringLe;
    SortMultiset(IdLe, x);
    SortMultiset(IdLe, y);
    SortSorted(IdLe, x);
    SortSorted(IdLe, y);
    forall r, q | r in SortBy(IdLe, x) && q in SortBy(IdLe, x) && IdLe(r, q) && IdLe(q, r) ensures r == q {
      assert r in multiset(x) && q in multiset(x);
      StringTotal(r.id, q.id);
      IdsDistinct(cfg, a, half, r, q);
    }
    SortedUnique(IdLe, SortBy(IdLe, x), SortBy(IdLe, y));
  }
}
