/**
 * The sequence lock: one writer, any number of readers, a 32-bit counter that
 * wraps. Values are rows of words, written and read one word per action.
 */
module Seqlock {
  /** The counter is a uint32_t. */
  const WRAP: nat := 0x1_0000_0000

  type Value<T> = seq<T>

  /** Where the writer is inside store(val). */
  datatype Writer<T> = WIdle | WCopying(val: Value<T>, k: nat)

  /**
   * Where a reader is inside load(), with its locals. RTop is the head of the loop,
   * RTest its closing condition; a `continue` goes to the condition, not to the head.
   */
  datatype Reader<T> =
    | RIdle
    | RTop(s2: nat, out: Value<T>)
    | RCopying(s1: nat, s2: nat, out: Value<T>, k: nat)
    | RTest(s1: nat, s2: nat, out: Value<T>)

  /**
   * What a load has copied so far: nothing, so that s2 and out are still uninitialised,
   * or a last complete pass, with the bump counts at its two sequence reads.
   */
  datatype Pass<T> = Unset(s2: nat, junk: Value<T>) | Copied(first: nat, second: nat)

  /**
   * A finished load: what it returned, the sequence word it exited on, how many times the
   * counter had been bumped at its last first and second sequence reads, and its last pass.
   */
  datatype Result<T> = Result(value: Value<T>, s1: nat, first: nat, second: nat, pass: Pass<T>)

  /**
   * Shared memory and all threads, then history: bumps counts every fetch_add,
   * stored lists the initial value and every completed store, first and second are each
   * reader's bump counts at its latest sequence reads, passes what its current load has copied.
   */
  datatype State<T> = State(
    seqNo: nat, data: Value<T>, writer: Writer<T>, readers: seq<Reader<T>>,
    bumps: nat, stored: seq<Value<T>>, first: seq<nat>, second: seq<nat>,
    passes: seq<Pass<T>>, results: seq<Result<T>>)

  /** out and s2 start uninitialised: LoadStart says what they happen to hold. */
  datatype Action<T> =
    | StoreBegin(val: Value<T>) | CopyIn | StoreEnd
    | LoadStart(i: nat, junk: Value<T>, s2: nat) | ReadFirst(i: nat) | CopyOut(i: nat) | ReadSecond(i: nat) | Test(i: nat)

  function Bump(x: nat): nat {
    (x + 1) % WRAP
  }

  predicate Shaped<T>(s: State<T>) {
    |s.first| == |s.second| == |s.passes| == |s.readers| && s.stored != []
  }

  function Initial<T>(init: Value<T>, readers: nat): (s: State<T>)
    ensures Shaped(s)
  {
    State(0, init, WIdle, seq(readers, i => RIdle), 0, [init], seq(readers, i => 0), seq(readers, i => 0),
          seq(readers, i => Unset(0, init)), [])
  }

  /** What reader i returns from its loop condition. */
  function ResultOf<T>(s: State<T>, i: nat): Result<T>
    requires Shaped(s) && i < |s.readers| && s.readers[i].RTest?
  {
    Result(s.readers[i].out, s.readers[i].s1, s.first[i], s.second[i], s.passes[i])
  }

  /** One atomic action; an action whose thread is elsewhere changes nothing. */
  function Step<T>(s: State<T>, a: Action<T>): (r: State<T>)
    requires Shaped(s)
    ensures Shaped(r)
  {
    match a
    case StoreBegin(val) =>
      if s.writer.WIdle? && |val| == |s.data| then
        s.(seqNo := Bump(s.seqNo), bumps := s.bumps + 1, writer := WCopying(val, 0))
      else s
    case CopyIn =>
      if s.writer.WCopying? && s.writer.k < |s.writer.val| && s.writer.k < |s.data| then
        s.(data := s.data[s.writer.k := s.writer.val[s.writer.k]], writer := WCopying(s.writer.val, s.writer.k + 1))
      else s
    case StoreEnd =>
      if s.writer.WCopying? && s.writer.k == |s.writer.val| then
        s.(seqNo := Bump(s.seqNo), bumps := s.bumps + 1, writer := WIdle, stored := s.stored + [s.writer.val])
      else s
    case LoadStart(i, junk, s2) =>
      if i < |s.readers| && s.readers[i].RIdle? && |junk| == |s.data| && s2 < WRAP then
        s.(readers := s.readers[i := RTop(s2, junk)], passes := s.passes[i := Unset(s2, junk)])
      else s
    case ReadFirst(i) =>
      if i < |s.readers| && s.readers[i].RTop? then
        var r := s.readers[i];
        s.(readers := s.readers[i :=
             if s.seqNo % 2 == 1 then RTest(s.seqNo, r.s2, r.out) else RCopying(s.seqNo, r.s2, r.out, 0)],
           first := s.first[i := s.bumps])
      else s
    case CopyOut(i) =>
      if i < |s.readers| && s.readers[i].RCopying? && s.readers[i].k < |s.readers[i].out| && s.readers[i].k < |s.data| then
        var r := s.readers[i];
        s.(readers := s.readers[i := RCopying(r.s1, r.s2, r.out[r.k := s.data[r.k]], r.k + 1)])
      else s
    case ReadSecond(i) =>
      if i < |s.readers| && s.readers[i].RCopying? && s.readers[i].k == |s.readers[i].out| then
        s.(readers := s.readers[i := RTest(s.readers[i].s1, s.seqNo, s.readers[i].out)],
           second := s.second[i := s.bumps], passes := s.passes[i := Copied(s.first[i], s.bumps)])
      else s
    case Test(i) =>
      if i < |s.readers| && s.readers[i].RTest? then
        var r := s.readers[i];
        if r.s1 != r.s2 then s.(readers := s.readers[i := RTop(r.s2, r.out)])
        else s.(readers := s.readers[i := RIdle], results := s.results + [ResultOf(s, i)])
      else s
  }

  function Run<T>(s: State<T>, actions: seq<Action<T>>): (r: State<T>)
    requires Shaped(s)
    ensures Shaped(r)
    decreases |actions|
  {
    if actions == [] then s
    else Step(Run(s, actions[..|actions| - 1]), actions[|actions| - 1])
  }

  // ----- the invariant ---------------------------------------------------------

  /** The initial value and every store begun, complete or not. */
  function Begun<T>(s: State<T>): seq<Value<T>> {
    if s.writer.WCopying? then s.stored + [s.writer.val] else s.stored
  }

  ghost predicate WriterInv<T(!new)>(s: State<T>)
    requires s.stored != []
  {
    && s.seqNo == s.bumps % WRAP
    && |s.stored| == s.bumps / 2 + 1
    && (forall v :: v in s.stored ==> |v| == |s.data|)
    && (match s.writer
        case WIdle => s.bumps % 2 == 0 && s.data == s.stored[s.bumps / 2]
        case WCopying(val, k) =>
          && s.bumps % 2 == 1 && |val| == |s.data| && k <= |val|
          && s.data == val[..k] + s.stored[s.bumps / 2][k..])
  }

  /** Word j of a value whose store was begun and not replaced between bump counts lo and hi. */
  ghost predicate FromStores<T(!new)>(begun: seq<Value<T>>, x: T, j: nat, lo: nat, hi: nat) {
    exists v :: lo / 2 <= v <= (hi + 1) / 2 && v < |begun| && j < |begun[v]| && begun[v][j] == x
  }

  /** Every one of the first k words is a word of such a value. */
  ghost predicate MixOf<T(!new)>(begun: seq<Value<T>>, out: Value<T>, k: nat, lo: nat, hi: nat) {
    k <= |out| && forall j :: 0 <= j < k ==> FromStores(begun, out[j], j, lo, hi)
  }

  /** Where s2 comes from. */
  predicate SecondFits<T>(p: Pass<T>, s2: nat) {
    match p
    case Unset(junk2, _) => s2 == junk2
    case Copied(_, second) => s2 == second % WRAP
  }

  /** Where s2 and out come from. */
  ghost predicate PassOk<T(!new)>(s: State<T>, p: Pass<T>, s2: nat, out: Value<T>) {
    SecondFits(p, s2) &&
    match p
    case Unset(_, junk) => out == junk
    case Copied(first, second) => first <= second <= s.bumps && MixOf(Begun(s), out, |out|, first, second)
  }

  ghost predicate ReaderInv<T(!new)>(s: State<T>, i: nat)
    requires Shaped(s) && i < |s.readers|
  {
    var f, c := s.first[i], s.second[i];
    f <= s.bumps && c <= s.bumps &&
    match s.readers[i]
    case RIdle => true
    case RTop(s2, out) => |out| == |s.data| && PassOk(s, s.passes[i], s2, out)
    case RCopying(s1, s2, out, k) =>
      && s1 == f % WRAP && s1 % 2 == 0 && |out| == |s.data| && k <= |out|
      && (f == s.bumps ==> out[..k] == s.data[..k])
      && MixOf(Begun(s), out, k, f, s.bumps)
    case RTest(s1, s2, out) =>
      && s1 == f % WRAP && |out| == |s.data| && PassOk(s, s.passes[i], s2, out)
      && ExitInv(s, s.passes[i], s1, out, f, c)
  }

  /** At the loop condition: after a copying turn the pass is its own, after an odd turn it is older. */
  ghost predicate ExitInv<T(!new)>(s: State<T>, p: Pass<T>, s1: nat, out: Value<T>, f: nat, c: nat) {
    && (s1 % 2 == 0 ==> f <= c && p == Copied(f, c) && (f == c ==> WholeAt(s, out, f)))
    && (s1 % 2 == 1 && p.Copied? ==> p.second <= f)
  }

  /** out is the value that was stored last when the counter had been bumped f times. */
  ghost predicate WholeAt<T(!new)>(s: State<T>, out: Value<T>, f: nat) {
    f / 2 < |s.stored| && out == s.stored[f / 2]
  }

  ghost predicate ResultInv<T(!new)>(s: State<T>, r: Result<T>) {
    && r.s1 == r.first % WRAP && r.first <= s.bumps && r.second <= s.bumps
    && PassOk(s, r.pass, r.s1, r.value)
    && ExitInv(s, r.pass, r.s1, r.value, r.first, r.second)
  }

  ghost predicate Inv<T(!new)>(s: State<T>) {
    && Shaped(s) && WriterInv(s)
    && (forall i :: 0 <= i < |s.readers| ==> ReaderInv(s, i))
    && (forall k :: 0 <= k < |s.results| ==> ResultInv(s, s.results[k]))
  }

  predicate WriterAction<T>(a: Action<T>) {
    a.StoreBegin? || a.CopyIn? || a.StoreEnd?
  }

  lemma BumpParity(x: nat, c: nat)
    requires x == c % WRAP
    ensures Bump(x) == (c + 1) % WRAP && x % 2 == c % 2
  {
  }

  /** Two values of the history as one step changes it: begun stores only grow in number. */
  ghost predicate Grows<T(!new)>(s: State<T>, t: State<T>) {
    s.stored <= t.stored && Begun(s) <= Begun(t) && s.bumps <= t.bumps && |s.data| == |t.data|
  }

  lemma PassKept<T(!new)>(s: State<T>, t: State<T>, p: Pass<T>, s2: nat, out: Value<T>)
    requires Grows(s, t) && PassOk(s, p, s2, out)
    ensures PassOk(t, p, s2, out)
  {
    if p.Copied? {
      MixKept(s, t, out, |out|, p.first, p.second, p.second);
    }
  }

  lemma MixKept<T(!new)>(s: State<T>, t: State<T>, out: Value<T>, k: nat, lo: nat, hi: nat, hi': nat)
    requires Grows(s, t) && MixOf(Begun(s), out, k, lo, hi) && hi <= hi'
    ensures MixOf(Begun(t), out, k, lo, hi')
  {
    forall j | 0 <= j < k ensures FromStores(Begun(t), out[j], j, lo, hi') {
      assert FromStores(Begun(s), out[j], j, lo, hi);
      var v :| lo / 2 <= v <= (hi + 1) / 2 && v < |Begun(s)| && j < |Begun(s)[v]| && Begun(s)[v][j] == out[j];
      assert Begun(t)[v] == Begun(s)[v];
    }
  }

  /** Every word in memory is a word of the last complete store or of the one in progress. */
  lemma DataWord<T(!new)>(s: State<T>, j: nat, lo: nat)
    requires s.stored != [] && WriterInv(s) && j < |s.data| && lo <= s.bumps
    ensures FromStores(Begun(s), s.data[j], j, lo, s.bumps)
  {
    var b := s.bumps / 2;
    assert s.stored[b] in s.stored && Begun(s)[b] == s.stored[b];
    if s.writer.WCopying? && j < s.writer.k {
      assert Begun(s)[b + 1] == s.writer.val && s.data[j] == s.writer.val[j];
    } else {
      assert s.data[j] == Begun(s)[b][j];
    }
  }

  lemma WriterKeepsWriterInv<T(!new)>(s: State<T>, a: Action<T>)
    requires Shaped(s) && WriterInv(s)
    ensures WriterInv(Step(s, a)) && Grows(s, Step(s, a))
  {
    hide Step, Grows, WriterInv;
    match a
    case StoreBegin(val) => BeginKeepsWriterInv(s, val);
    case CopyIn => CopyKeepsWriterInv(s);
    case StoreEnd => EndKeepsWriterInv(s);
    case _ => ReaderKeepsWriterInv(s, a);
  }

  lemma BeginKeepsWriterInv<T(!new)>(s: State<T>, val: Value<T>)
    requires Shaped(s) && WriterInv(s)
    ensures WriterInv(Step(s, StoreBegin(val))) && Grows(s, Step(s, StoreBegin(val)))
  {
    hide Bump;
    BumpParity(s.seqNo, s.bumps);
    if s.writer.WIdle? {
      assert val[..0] + s.data[0..] == s.data;
    }
  }

  lemma CopyKeepsWriterInv<T(!new)>(s: State<T>)
    requires Shaped(s) && WriterInv(s)
    ensures WriterInv(Step(s, CopyIn)) && Grows(s, Step(s, CopyIn))
  {
    if s.writer.WCopying? && s.writer.k < |s.writer.val| {
      assert s.stored[s.bumps / 2] in s.stored;
      CopyWord(s.data, s.writer.val, s.stored[s.bumps / 2], s.writer.k);
    }
  }

  lemma EndKeepsWriterInv<T(!new)>(s: State<T>)
    requires Shaped(s) && WriterInv(s)
    ensures WriterInv(Step(s, StoreEnd)) && Grows(s, Step(s, StoreEnd))
  {
    hide Bump;
    BumpParity(s.seqNo, s.bumps);
    if s.writer.WCopying? && s.writer.k == |s.writer.val| {
      assert s.stored[s.bumps / 2] in s.stored;
      assert s.data == s.writer.val;
    }
  }

  lemma ReaderKeepsWriterInv<T(!new)>(s: State<T>, a: Action<T>)
    requires Shaped(s) && WriterInv(s) && !WriterAction(a)
    ensures WriterInv(Step(s, a)) && Grows(s, Step(s, a))
  {
    ReaderLeavesMemory(s, a);
    hide Step;
  }

  lemma CopyWord<T>(data: Value<T>, val: Value<T>, before: Value<T>, k: nat)
    requires k < |val| == |data| == |before| && data == val[..k] + before[k..]
    ensures data[k := val[k]] == val[..k + 1] + before[k + 1..]
  {
  }

  lemma WriterStepKeepsInv<T(!new)>(s: State<T>, a: Action<T>)
    requires Inv(s) && WriterAction(a)
    ensures Inv(Step(s, a))
  {
    hide Bump, WriterInv, PassOk, MixOf, WholeAt, Grows;
    var t := Step(s, a);
    WriterKeepsWriterInv(s, a);
    forall i | 0 <= i < |t.readers| ensures ReaderInv(t, i) {
      assert ReaderInv(s, i);
      WriterKeepsReader(s, a, i);
    }
    hide ReaderInv;
    forall k | 0 <= k < |t.results| ensures ResultInv(t, t.results[k]) {
      assert ResultInv(s, s.results[k]);
      GrowthKeepsResult(s, t, s.results[k]);
    }
  }

  lemma WriterKeepsReader<T(!new)>(s: State<T>, a: Action<T>, i: nat)
    requires Shaped(s) && WriterInv(s) && WriterAction(a) && i < |s.readers| && ReaderInv(s, i)
    ensures ReaderInv(Step(s, a), i)
  {
    hide Bump, PassOk, MixOf;
    var t := Step(s, a);
    WriterKeepsWriterInv(s, a);
    match s.readers[i]
    case RIdle =>
    case RTop(s2, out) => PassKept(s, t, s.passes[i], s2, out);
    case RCopying(s1, s2, out, k) =>
      MixKept(s, t, out, k, s.first[i], s.bumps, t.bumps);
      BumpParity(s.seqNo, s.bumps);
      EvenIsIdle(s, s.first[i]);
    case RTest(s1, s2, out) => PassKept(s, t, s.passes[i], s2, out);
  }

  /** While the count is what it was at an even read, nothing is written. */
  lemma EvenIsIdle<T(!new)>(s: State<T>, f: nat)
    requires s.stored != [] && WriterInv(s) && f % WRAP % 2 == 0
    ensures f == s.bumps ==> s.writer.WIdle?
  {
    BumpParity(f % WRAP, f);
  }

  lemma GrowthKeepsResult<T(!new)>(s: State<T>, t: State<T>, r: Result<T>)
    requires Grows(s, t) && ResultInv(s, r)
    ensures ResultInv(t, r)
  {
    hide PassOk;
    PassKept(s, t, r.pass, r.s1, r.value);
  }

  lemma ReaderStepKeepsInv<T(!new)>(s: State<T>, a: Action<T>)
    requires Inv(s) && !WriterAction(a)
    ensures Inv(Step(s, a))
  {
    hide Bump, WriterInv, PassOk, MixOf, WholeAt;
    var t := Step(s, a);
    assert WriterInv(t) by { WriterKeepsWriterInv(s, a); }
    assert Grows(s, t) by { WriterKeepsWriterInv(s, a); }
    forall i | 0 <= i < |t.readers| ensures ReaderInv(t, i) {
      assert ReaderInv(s, i);
      ReaderKeepsReader(s, a, i);
    }
    forall k | 0 <= k < |t.results| ensures ResultInv(t, t.results[k]) {
      if k < |s.results| {
        assert ResultInv(s, s.results[k]);
        GrowthKeepsResult(s, t, s.results[k]);
      } else {
        assert ReaderInv(s, a.i);
        GrowthKeepsResult(s, t, ResultOf(s, a.i));
      }
    }
  }

  lemma ReaderKeepsReader<T(!new)>(s: State<T>, a: Action<T>, i: nat)
    requires Shaped(s) && WriterInv(s) && !WriterAction(a) && i < |s.readers| && ReaderInv(s, i)
    ensures ReaderInv(Step(s, a), i)
  {
    hide Step, ReaderInv, WriterInv, Bump;
    if a.i != i {
      OtherReader(s, a, i);
    } else if a.CopyOut? {
      CopyKeepsReader(s, i);
    } else if a.ReadFirst? || a.ReadSecond? {
      ReadKeepsReader(s, a);
    } else {
      StartAndTestKeepReader(s, a);
    }
  }

  lemma OtherReader<T(!new)>(s: State<T>, a: Action<T>, i: nat)
    requires Shaped(s) && !WriterAction(a) && i < |s.readers| && ReaderInv(s, i) && a.i != i
    ensures ReaderInv(Step(s, a), i)
  {
    hide Bump, PassOk, MixOf, WholeAt, ExitInv;
    ReaderLeavesMemory(s, a);
    var t := Step(s, a);
    assert t.readers[i] == s.readers[i] && t.passes[i] == s.passes[i];
    assert t.first[i] == s.first[i] && t.second[i] == s.second[i];
    SameHistory(s, t, i);
  }

  /** Readers change nothing but their own locals and the list of results. */
  lemma ReaderLeavesMemory<T(!new)>(s: State<T>, a: Action<T>)
    requires Shaped(s) && !WriterAction(a)
    ensures var t := Step(s, a);
            && t.data == s.data && t.writer == s.writer && t.bumps == s.bumps && t.stored == s.stored
            && |t.readers| == |s.readers|
  {
  }

  lemma SameHistory<T(!new)>(s: State<T>, t: State<T>, i: nat)
    requires Shaped(s) && Shaped(t) && i < |s.readers| == |t.readers| && ReaderInv(s, i)
    requires t.data == s.data && t.writer == s.writer && t.bumps == s.bumps && t.stored == s.stored
    requires t.readers[i] == s.readers[i] && t.passes[i] == s.passes[i]
    requires t.first[i] == s.first[i] && t.second[i] == s.second[i]
    ensures ReaderInv(t, i)
  {
    hide MixOf;
  }

  lemma CopyKeepsReader<T(!new)>(s: State<T>, i: nat)
    requires Shaped(s) && WriterInv(s) && i < |s.readers| && ReaderInv(s, i)
    ensures ReaderInv(Step(s, CopyOut(i)), i)
  {
    hide Bump, FromStores, WriterInv, PassOk, ExitInv;
    var r := s.readers[i];
    if r.RCopying? && r.k < |s.data| {
      DataWord(s, r.k, s.first[i]);
      assert s.data[..r.k + 1] == s.data[..r.k] + [s.data[r.k]];
    }
  }

  lemma ReadKeepsReader<T(!new)>(s: State<T>, a: Action<T>)
    requires Shaped(s) && WriterInv(s) && (a.ReadFirst? || a.ReadSecond?) && a.i < |s.readers| && ReaderInv(s, a.i)
    ensures ReaderInv(Step(s, a), a.i)
  {
    hide Bump, FromStores;
    BumpParity(s.seqNo, s.bumps);
    var r := s.readers[a.i];
    if a.ReadSecond? && r.RCopying? && r.k == |s.data| {
      assert r.out[..|s.data|] == r.out && s.data[..|s.data|] == s.data;
      EvenIsIdle(s, s.first[a.i]);
    }
  }

  lemma StartAndTestKeepReader<T(!new)>(s: State<T>, a: Action<T>)
    requires Shaped(s) && (a.LoadStart? || a.Test?) && a.i < |s.readers| && ReaderInv(s, a.i)
    ensures ReaderInv(Step(s, a), a.i)
  {
    hide MixOf;
  }

  /** Every interleaving of one writer and any number of readers keeps the invariant. */
  lemma {:induction false} RunKeepsInv<T(!new)>(init: Value<T>, readers: nat, actions: seq<Action<T>>)
    ensures Inv(Run(Initial(init, readers), actions))
  {
    if actions != [] {
      var a := actions[|actions| - 1];
      RunKeepsInv(init, readers, actions[..|actions| - 1]);
      var s := Run(Initial(init, readers), actions[..|actions| - 1]);
      if WriterAction(a) {
        WriterStepKeepsInv(s, a);
      } else {
        ReaderStepKeepsInv(s, a);
      }
    }
  }

  // ----- what every run promises -----------------------------------------------

  /** Two bump counts with the same wrapped value, fewer than 2^31 stores apart, are equal. */
  lemma SameWord(first: nat, second: nat)
    requires first <= second && first % WRAP == second % WRAP && first % 2 == 0
    ensures second / 2 - first / 2 < 0x8000_0000 ==> first == second
    ensures (second / 2 - first / 2) % 0x8000_0000 == 0
  {
    var q := second / WRAP - first / WRAP;
    assert second - first == q * WRAP;
    assert second / 2 - first / 2 == q * 0x8000_0000;
  }

  /**
   * A load that exits on an even s1, with fewer than 2^31 stores completed between
   * its two sequence reads, returns words all from one store (or all initial): the
   * one that was complete at its first read, and still the newest at its second.
   */
  lemma EvenLoadsAreWhole<T(!new)>(init: Value<T>, readers: nat, actions: seq<Action<T>>, k: nat)
    requires k < |Run(Initial(init, readers), actions).results|
    ensures var s := Run(Initial(init, readers), actions);
            var r := s.results[k];
            r.s1 % 2 == 0 && r.second / 2 - r.first / 2 < 0x8000_0000 ==>
              r.first == r.second && r.first / 2 < |s.stored| && r.value == s.stored[r.first / 2]
  {
    hide Run, WriterInv, ReaderInv, Bump;
    RunKeepsInv(init, readers, actions);
    var s := Run(Initial(init, readers), actions);
    var r := s.results[k];
    assert ResultInv(s, r);
    if r.s1 % 2 == 0 {
      BumpParity(r.s1, r.first);
      SameWord(r.first, r.second);
    }
  }

  /** An odd counter means a store is in progress, and nothing else does. */
  lemma OddMeansWriting<T(!new)>(init: Value<T>, readers: nat, actions: seq<Action<T>>)
    ensures var s := Run(Initial(init, readers), actions);
            s.seqNo % 2 == 1 <==> s.writer.WCopying?
  {
    RunKeepsInv(init, readers, actions);
    var s := Run(Initial(init, readers), actions);
    BumpParity(s.seqNo, s.bumps);
  }

  /**
   * A reader that finds the counter odd does not go round again: it leaves the loop
   * exactly when the s2 left over from before (or never set) equals what it just read.
   */
  lemma OddReadExits<T(!new)>(s: State<T>, i: nat)
    requires Shaped(s) && i < |s.readers| && s.readers[i].RTop? && s.seqNo % 2 == 1
    ensures var t := Step(Step(s, ReadFirst(i)), Test(i));
            if s.readers[i].s2 == s.seqNo then
              t.readers[i].RIdle? && t.results == s.results + [Result(s.readers[i].out, s.seqNo, s.bumps, s.second[i], s.passes[i])]
            else
              t.readers[i] == s.readers[i] && t.results == s.results
  {
  }

  /**
   * Over every run: a load that read an odd count leaves the loop if and only if either it
   * has not copied anything yet and the uninitialised s2 happens to equal the count, or
   * the s2 of its own last copying pass was odd and equals the wrapped count just read.
   */
  lemma OddExitIff<T(!new)>(init: Value<T>, readers: nat, actions: seq<Action<T>>, i: nat)
    requires var s := Run(Initial(init, readers), actions);
             i < |s.readers| && s.readers[i].RTest? && s.readers[i].s1 % 2 == 1
    ensures var s := Run(Initial(init, readers), actions);
            Step(s, Test(i)).results == s.results + [ResultOf(s, i)] <==>
              match s.passes[i]
              case Unset(s2, _) => s2 == s.first[i] % WRAP
              case Copied(_, second) => second % 2 == 1 && second % WRAP == s.first[i] % WRAP
  {
    hide Run, MixOf, WholeAt, WriterInv;
    RunKeepsInv(init, readers, actions);
    var s := Run(Initial(init, readers), actions);
    assert ReaderInv(s, i);
    if s.passes[i].Copied? {
      BumpParity(s.passes[i].second % WRAP, s.passes[i].second);
    }
  }

  /**
   * What such a load returns: without a copying pass, the uninitialised out; otherwise, word
   * by word, values whose stores were begun and not yet replaced during its last pass. With
   * fewer than 2^31 stores in between, the store that pass ran into is still the current one.
   */
  lemma OddLoadsReturn<T(!new)>(init: Value<T>, readers: nat, actions: seq<Action<T>>, k: nat)
    requires k < |Run(Initial(init, readers), actions).results|
    ensures var s := Run(Initial(init, readers), actions);
            var r := s.results[k];
            && (r.s1 % 2 == 1 <==> r.pass.Unset? || r.pass.second % 2 == 1)
            && (r.pass.Unset? ==> r.value == r.pass.junk && r.pass.s2 == r.s1)
            && (r.pass.Copied? ==> MixOf(Begun(s), r.value, |r.value|, r.pass.first, r.pass.second))
            && (r.s1 % 2 == 1 && r.pass.Copied? && r.first / 2 - r.pass.second / 2 < 0x8000_0000 ==>
                  r.pass.second == r.first)
  {
    hide Run, MixOf, WholeAt, WriterInv, ReaderInv;
    RunKeepsInv(init, readers, actions);
    var s := Run(Initial(init, readers), actions);
    var r := s.results[k];
    assert ResultInv(s, r);
    BumpParity(r.s1, r.first);
    if r.pass.Copied? {
      BumpParity(r.s1, r.pass.second);
      if r.s1 % 2 == 1 {
        SameOddWord(r.pass.second, r.first);
      }
    }
  }

  lemma SameOddWord(first: nat, second: nat)
    requires first <= second && first % WRAP == second % WRAP && first % 2 == 1
    ensures second / 2 - first / 2 < 0x8000_0000 ==> first == second
  {
    var q := second / WRAP - first / WRAP;
    assert second - first == q * WRAP;
    assert second / 2 - first / 2 == q * 0x8000_0000;
  }

  /** A load that starts during a store can return what was never stored: its uninitialised out. */
  lemma OddLoadCanReturnJunk() returns (actions: seq<Action<int>>)
    ensures var s := Run(Initial([0], 1), actions);
            && |s.results| == 1 && s.results[0].value == [7]
            && Begun(s) == [[0], [1]]
  {
    hide Step, Initial;
    var s: State<int> := Initial([0], 1);
    JunkExit();
    actions := [];
    actions := Then(s, actions, StoreBegin([1]));
    actions := Then(s, actions, LoadStart(0, [7], 1));
    actions := Then(s, actions, ReadFirst(0));
    actions := Then(s, actions, Test(0));
  }

  lemma JunkExit()
    ensures var s := Step(Step(Step(Step(Initial([0], 1), StoreBegin([1])), LoadStart(0, [7], 1)), ReadFirst(0)), Test(0));
            && |s.results| == 1 && s.results[0].value == [7]
            && Begun(s) == [[0], [1]]
  {
    var s := Step(Step(Step(Initial([0], 1), StoreBegin([1])), LoadStart(0, [7], 1)), ReadFirst(0));
    assert s.readers == [RTest(1, 1, [7])];
  }

  /** And one that copied can return half of each of two stores. */
  lemma OddLoadCanTear() returns (actions: seq<Action<int>>)
    ensures var s := Run(Initial([0, 0], 1), actions);
            && |s.results| == 1 && s.results[0].value == [0, 1] && s.results[0].s1 == 1
            && s.stored == [[0, 0]] && s.writer == WCopying([1, 1], 2)
  {
    hide Step, Initial;
    var s: State<int> := Initial([0, 0], 1);
    TearRead();
    TearWrite();
    TearExit();
    actions := [];
    actions := Then(s, actions, LoadStart(0, [7, 7], 9));
    actions := Then(s, actions, ReadFirst(0));
    actions := Then(s, actions, CopyOut(0));
    actions := Then(s, actions, StoreBegin([1, 1]));
    actions := Then(s, actions, CopyIn);
    actions := Then(s, actions, CopyIn);
    actions := Then(s, actions, CopyOut(0));
    actions := Then(s, actions, ReadSecond(0));
    actions := Then(s, actions, Test(0));
    actions := Then(s, actions, ReadFirst(0));
    actions := Then(s, actions, Test(0));
  }

  /** One reader, one word into its pass, before (w = false) or inside (w = true) the store of [1, 1] over [0, 0]. */
  function Tearing(w: bool): State<int> {
    var r := RCopying(0, 9, [0, 7], 1);
    var p := Unset(9, [7, 7]);
    if w then State(1, [1, 1], WCopying([1, 1], 2), [r], 1, [[0, 0]], [0], [0], [p], [])
    else State(0, [0, 0], WIdle, [r], 0, [[0, 0]], [0], [0], [p], [])
  }

  lemma TearRead()
    ensures Step(Step(Step(Initial([0, 0], 1), LoadStart(0, [7, 7], 9)), ReadFirst(0)), CopyOut(0)) == Tearing(false)
  {
    var s: State<int> := Initial([0, 0], 1);
    assert s == State(0, [0, 0], WIdle, [RIdle], 0, [[0, 0]], [0], [0], [Unset(0, [0, 0])], []);
    assert [7, 7][0 := 0] == [0, 7];
  }

  lemma TearWrite()
    ensures Step(Step(Step(Tearing(false), StoreBegin([1, 1])), CopyIn), CopyIn) == Tearing(true)
  {
    assert [0, 0][0 := 1][1 := 1] == [1, 1];
  }

  lemma TearExit()
    ensures var s := Step(Step(Step(Step(Step(Tearing(true), CopyOut(0)), ReadSecond(0)), Test(0)), ReadFirst(0)), Test(0));
            && |s.results| == 1 && s.results[0].value == [0, 1] && s.results[0].s1 == 1
            && s.stored == [[0, 0]] && s.writer == WCopying([1, 1], 2)
  {
    assert [0, 7][1 := 1] == [0, 1];
    assert Step(Step(Tearing(true), CopyOut(0)), ReadSecond(0)).readers == [RTest(0, 1, [0, 1])];
  }

  lemma Then<T>(s: State<T>, xs: seq<Action<T>>, a: Action<T>) returns (ys: seq<Action<T>>)
    requires Shaped(s)
    ensures ys == xs + [a] && Run(s, ys) == Step(Run(s, xs), a)
  {
    ys := xs + [a];
    assert ys[..|xs|] == xs;
  }

  // ----- the class -------------------------------------------------------------

  lemma InBounds<T(!new)>(s: State<T>)
    requires Inv(s)
    ensures Shaped(s)
    ensures s.writer.WCopying? ==> |s.writer.val| == |s.data|
    ensures s.writer.WIdle? ==> s.seqNo % 2 == 0 && s.data == s.stored[|s.stored| - 1]
    ensures forall i :: 0 <= i < |s.readers| && s.readers[i].RCopying? ==> |s.readers[i].out| == |s.data|
  {
    BumpParity(s.seqNo, s.bumps);
    forall i | 0 <= i < |s.readers| && s.readers[i].RCopying? ensures |s.readers[i].out| == |s.data| {
      assert ReaderInv(s, i);
    }
  }

  /** The first and last actions of a load, and a copied word, while no store is in progress. */
  lemma StartLoadStep<T>(s: State<T>, i: nat, junk: Value<T>, s2: nat)
    requires Shaped(s) && i < |s.readers| && s.readers[i].RIdle? && |junk| == |s.data| && s2 < WRAP && s.seqNo % 2 == 0
    ensures var t := Step(Step(s, LoadStart(i, junk, s2)), ReadFirst(i));
            && t.readers == s.readers[i := RCopying(s.seqNo, s2, junk, 0)]
            && t.data == s.data && t.seqNo == s.seqNo && t.writer == s.writer && t.stored == s.stored
  {
    assert s.readers[i := RTop(s2, junk)][i := RCopying(s.seqNo, s2, junk, 0)]
        == s.readers[i := RCopying(s.seqNo, s2, junk, 0)];
  }

  lemma CopyOutStep<T>(s: State<T>, i: nat)
    requires Shaped(s) && i < |s.readers| && s.readers[i].RCopying?
    requires s.readers[i].k < |s.readers[i].out| == |s.data|
    ensures var r, t := s.readers[i], Step(s, CopyOut(i));
            && t.readers == s.readers[i := RCopying(r.s1, r.s2, r.out[r.k := s.data[r.k]], r.k + 1)]
            && t.data == s.data && t.seqNo == s.seqNo && t.writer == s.writer && t.stored == s.stored
  {
  }

  lemma EndLoadStep<T>(s: State<T>, i: nat)
    requires Shaped(s) && i < |s.readers| && s.readers[i].RCopying?
    requires s.readers[i].k == |s.readers[i].out| && s.readers[i].s1 == s.seqNo
    ensures var r, t := s.readers[i], Step(s, ReadSecond(i));
            && t.readers == s.readers[i := RTest(r.s1, s.seqNo, r.out)]
            && var u := Step(t, Test(i));
            && u.readers == s.readers[i := RIdle]
            && u.data == s.data && u.seqNo == s.seqNo && u.writer == s.writer && u.stored == s.stored
  {
    var r := s.readers[i];
    assert s.readers[i := RTest(r.s1, s.seqNo, r.out)][i := RIdle] == s.readers[i := RIdle];
  }

  class Buffer<T(0, !new)> {
    var seqNo: nat
    const data: array<T>
    var writer: Writer<T>
    var readers: seq<Reader<T>>
    ghost var bumps: nat
    ghost var stored: seq<Value<T>>
    ghost var first: seq<nat>
    ghost var second: seq<nat>
    ghost var passes: seq<Pass<T>>
    ghost var results: seq<Result<T>>

    ghost function View(): State<T>
      reads this, data
    {
      State(seqNo, data[..], writer, readers, bumps, stored, first, second, passes, results)
    }

    ghost predicate Valid()
      reads this, data
    {
      Inv(View())
    }

    constructor (init: Value<T>, readerCount: nat)
      ensures Valid() && View() == Initial(init, readerCount) && fresh(data)
    {
      data := new T[|init|](i requires 0 <= i < |init| => init[i]);
      seqNo, writer, readers := 0, WIdle, seq(readerCount, i => RIdle);
      bumps, stored := 0, [init];
      first, second, results := seq(readerCount, i => 0), seq(readerCount, i => 0), [];
      passes := seq(readerCount, i => Unset(0, init));
      new;
      assert data[..] == init;
      RunKeepsInv(init, readerCount, []);
    }

    /** Performs one atomic action of whichever thread it belongs to. */
    method Act(a: Action<T>)
      requires Valid()
      modifies this, data
      ensures Valid() && View() == Step(old(View()), a)
    {
      hide Inv, Bump;
      ghost var before := View();
      InBounds(before);
      if WriterAction(a) {
        WriterStepKeepsInv(before, a);
      } else {
        ReaderStepKeepsInv(before, a);
      }
      match a {
        case StoreBegin(val) =>
          if writer.WIdle? && |val| == data.Length {
            seqNo, bumps, writer := Bump(seqNo), bumps + 1, WCopying(val, 0);
          }
        case CopyIn =>
          if writer.WCopying? && writer.k < |writer.val| {
            data[writer.k] := writer.val[writer.k];
            writer := WCopying(writer.val, writer.k + 1);
          }
        case StoreEnd =>
          if writer.WCopying? && writer.k == |writer.val| {
            seqNo, bumps, stored, writer := Bump(seqNo), bumps + 1, stored + [writer.val], WIdle;
          }
        case LoadStart(i, junk, s2) =>
          if i < |readers| && readers[i].RIdle? && |junk| == data.Length && s2 < WRAP {
            readers := readers[i := RTop(s2, junk)];
            passes := passes[i := Unset(s2, junk)];
          }
        case ReadFirst(i) =>
          if i < |readers| && readers[i].RTop? {
            var r := readers[i];
            first := first[i := bumps];
            readers := readers[i :=
              if seqNo % 2 == 1 then RTest(seqNo, r.s2, r.out) else RCopying(seqNo, r.s2, r.out, 0)];
          }
        case CopyOut(i) =>
          if i < |readers| && readers[i].RCopying? && readers[i].k < |readers[i].out| {
            var r := readers[i];
            readers := readers[i := RCopying(r.s1, r.s2, r.out[r.k := data[r.k]], r.k + 1)];
          }
        case ReadSecond(i) =>
          if i < |readers| && readers[i].RCopying? && readers[i].k == |readers[i].out| {
            second := second[i := bumps];
            passes := passes[i := Copied(first[i], bumps)];
            readers := readers[i := RTest(readers[i].s1, seqNo, readers[i].out)];
          }
        case Test(i) =>
          if i < |readers| && readers[i].RTest? {
            var r := readers[i];
            if r.s1 != r.s2 {
              readers := readers[i := RTop(r.s2, r.out)];
            } else {
              results := results + [Result(r.out, r.s1, first[i], second[i], passes[i])];
              readers := readers[i := RIdle];
            }
          }
      }
    }

    /** store(val) with no other action in between. */
    method Store(val: Value<T>)
      requires Valid() && writer.WIdle? && |val| == data.Length
      modifies this, data
      ensures Valid() && writer.WIdle? && data[..] == val && stored == old(stored) + [val]
      ensures readers == old(readers)
    {
      hide Inv, Bump;
      Act(StoreBegin(val));
      while writer.k < |val|
        invariant Valid() && writer.WCopying? && writer.val == val && writer.k <= |val|
        invariant stored == old(stored) && readers == old(readers)
        decreases |val| - writer.k
      {
        Act(CopyIn);
      }
      Act(StoreEnd);
      InBounds(View());
    }

    /** load() by reader i with no other action in between goes round once and returns the data. */
    method Load(i: nat, junk: Value<T>, s2: nat) returns (out: Value<T>)
      requires Valid() && writer.WIdle? && i < |readers| && readers[i].RIdle?
      requires |junk| == data.Length && s2 < WRAP
      modifies this, data
      ensures Valid() && writer.WIdle? && data[..] == old(data[..]) && stored == old(stored)
      ensures out == data[..] && readers == old(readers)
    {
      hide Inv, Bump, Step;
      InBounds(View());
      StartLoadStep(View(), i, junk, s2);
      Act(LoadStart(i, junk, s2));
      Act(ReadFirst(i));
      while readers[i].k < |readers[i].out|
        invariant Valid() && writer.WIdle? && data[..] == old(data[..]) && stored == old(stored)
        invariant seqNo == old(seqNo)
        invariant |readers| == |old(readers)| && readers[i].RCopying? && readers[i].s1 == seqNo
        invariant readers[i].k <= |readers[i].out| == data.Length
        invariant readers[i].out[..readers[i].k] == data[..readers[i].k]
        invariant readers == old(readers)[i := readers[i]]
        decreases |readers[i].out| - readers[i].k
      {
        ghost var k := readers[i].k;
        InBounds(View());
        CopyOutStep(View(), i);
        Act(CopyOut(i));
        assert readers[i].out[..k + 1] == data[..k] + [data[k]] == data[..k + 1];
      }
      InBounds(View());
      EndLoadStep(View(), i);
      Act(ReadSecond(i));
      out := readers[i].out;
      Act(Test(i));
    }
  }
}
