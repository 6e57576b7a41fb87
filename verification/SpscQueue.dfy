/**
 * The single-producer single-consumer ring buffer, one atomic action at a time.
 * Atomics are sequentially consistent; copying an item in or out of a slot takes
 * two actions, and the slot holds no item in between.
 */
module SpscQueue {
  import opened Masks

  /** What a ring slot holds; Torn while an item is being copied into it. */
  datatype Cell<T> = Whole(value: T) | Torn

  /** Where the producer is inside push(item), with the locals it has computed. */
  datatype Producer<T> =
    | PIdle
    | PLoaded(item: T, w: nat)
    | PReady(item: T, w: nat, next: nat)
    | PWriting(item: T, w: nat, next: nat)
    | PWritten(item: T, w: nat, next: nat)

  /** Where the consumer is inside pop(out). */
  datatype Consumer<T> =
    | CIdle
    | CLoaded(r: nat)
    | CReady(r: nat)
    | CReading(r: nat)
    | CTaken(r: nat, out: Cell<T>)

  /** Shared memory, both threads, and the history of completed operations. */
  datatype State<T> = State(
    buf: seq<Cell<T>>, writePos: nat, readPos: nat,
    prod: Producer<T>, cons: Consumer<T>,
    offered: seq<T>, accepted: seq<T>, popped: seq<T>)

  datatype Action<T> =
    | PushStart(item: T) | PushCheck | WriteBegin | WriteEnd | PushPublish
    | PopStart | PopCheck | ReadBegin | ReadEnd | PopRelease

  /** The static_asserts on the template parameter N. */
  predicate RingSize(n: nat) {
    n >= 2 && BitAnd(n, n - 1) == 0
  }

  function Next(pos: nat, n: nat): nat
    requires n > 0
  {
    BitAnd(pos + 1, n - 1)
  }

  function Initial<T>(n: nat, zero: T): State<T> {
    State(seq(n, i => Whole(zero)), 0, 0, PIdle, CIdle, [], [], [])
  }

  /** One atomic action; an action whose thread is elsewhere changes nothing. */
  function Step<T>(s: State<T>, a: Action<T>): (r: State<T>)
    requires s.buf != []
    ensures |r.buf| == |s.buf|
  {
    match a
    case PushStart(item) =>
      if s.prod.PIdle? then s.(prod := PLoaded(item, s.writePos)) else s
    case PushCheck =>
      if !s.prod.PLoaded? then s
      else
        var next := Next(s.prod.w, |s.buf|);
        if next == s.readPos then s.(prod := PIdle, offered := s.offered + [s.prod.item])
        else s.(prod := PReady(s.prod.item, s.prod.w, next))
    case WriteBegin =>
      if s.prod.PReady? && s.prod.w < |s.buf| then
        s.(prod := PWriting(s.prod.item, s.prod.w, s.prod.next), buf := s.buf[s.prod.w := Torn])
      else s
    case WriteEnd =>
      if s.prod.PWriting? && s.prod.w < |s.buf| then
        s.(prod := PWritten(s.prod.item, s.prod.w, s.prod.next), buf := s.buf[s.prod.w := Whole(s.prod.item)])
      else s
    case PushPublish =>
      if s.prod.PWritten? then
        s.(prod := PIdle, writePos := s.prod.next,
           offered := s.offered + [s.prod.item], accepted := s.accepted + [s.prod.item])
      else s
    case PopStart =>
      if s.cons.CIdle? then s.(cons := CLoaded(s.readPos)) else s
    case PopCheck =>
      if !s.cons.CLoaded? then s
      else if s.cons.r == s.writePos then s.(cons := CIdle)
      else s.(cons := CReady(s.cons.r))
    case ReadBegin =>
      if s.cons.CReady? then s.(cons := CReading(s.cons.r)) else s
    case ReadEnd =>
      if s.cons.CReading? && s.cons.r < |s.buf| then s.(cons := CTaken(s.cons.r, s.buf[s.cons.r])) else s
    case PopRelease =>
      if s.cons.CTaken? && s.cons.out.Whole? then
        s.(cons := CIdle, readPos := Next(s.cons.r, |s.buf|), popped := s.popped + [s.cons.out.value])
      else s
  }

  /** Any interleaving of the two threads is some sequence of actions. */
  function Run<T>(s: State<T>, actions: seq<Action<T>>): (r: State<T>)
    requires s.buf != []
    ensures |r.buf| == |s.buf|
    decreases |actions|
  {
    if actions == [] then s
    else Step(Run(s, actions[..|actions| - 1]), actions[|actions| - 1])
  }

  // ----- remainders ------------------------------------------------------------

  lemma ModWindow(i: nat, j: nat, n: nat)
    requires n > 0 && i <= j <= i + n
    ensures i % n == j % n <==> j == i || j == i + n
  {
    var q, r := i / n, i % n;
    assert i == q * n + r;
    if r + (j - i) < n {
      Remainder(j, n, q, r + (j - i));
    } else if r + (j - i) < 2 * n {
      assert j == (q + 1) * n + (r + (j - i) - n);
      Remainder(j, n, q + 1, r + (j - i) - n);
    }
  }

  lemma SuccessorMod(i: nat, n: nat)
    requires n > 0
    ensures (i % n + 1) % n == (i + 1) % n
  {
    var q, r := i / n, i % n;
    if r + 1 < n {
      Remainder(r + 1, n, 0, r + 1);
      Remainder(i + 1, n, q, r + 1);
    } else {
      Remainder(r + 1, n, 1, 0);
      assert (q + 1) * n == q * n + n;
      Remainder(i + 1, n, q + 1, 0);
    }
  }

  lemma NextIsSuccessor(i: nat, n: nat)
    requires RingSize(n)
    ensures Next(i % n, n) == (i + 1) % n
  {
    RingMask(n, i % n + 1);
    SuccessorMod(i, n);
  }

  // ----- the invariant ---------------------------------------------------------

  ghost predicate ProducerInv<T(!new)>(s: State<T>)
    requires s.buf != []
  {
    var n, a := |s.buf|, |s.accepted|;
    match s.prod
    case PIdle => true
    case PLoaded(item, w) => w == a % n
    case PReady(item, w, next) => Room(s) && w == a % n && next == (a + 1) % n
    case PWriting(item, w, next) => Room(s) && w == a % n && next == (a + 1) % n && s.buf[w] == Torn
    case PWritten(item, w, next) => Room(s) && w == a % n && next == (a + 1) % n && s.buf[w] == Whole(item)
  }

  ghost predicate Room<T(!new)>(s: State<T>) {
    |s.accepted| - |s.popped| <= |s.buf| - 2
  }

  ghost predicate ConsumerInv<T(!new)>(s: State<T>)
    requires s.buf != []
  {
    var n, p := |s.buf|, |s.popped|;
    match s.cons
    case CIdle => true
    case CLoaded(r) => r == p % n
    case CReady(r) => r == p % n && p < |s.accepted|
    case CReading(r) => r == p % n && p < |s.accepted|
    case CTaken(r, out) => r == p % n && p < |s.accepted| && out == Whole(s.accepted[p])
  }

  ghost predicate RingInv<T(!new)>(s: State<T>)
    requires s.buf != []
  {
    var n, p, a := |s.buf|, |s.popped|, |s.accepted|;
    && p <= a <= p + n - 1
    && s.popped == s.accepted[..p]
    && s.writePos == a % n && s.readPos == p % n
    && forall k :: p <= k < a ==> s.buf[k % n] == Whole(s.accepted[k])
  }

  ghost predicate Inv<T(!new)>(s: State<T>) {
    && RingSize(|s.buf|)
    && RingInv(s) && ProducerInv(s) && ConsumerInv(s)
  }

  /** Reading the positions and publishing leave the slots alone. */
  lemma ProducerPositionsKeepInv<T(!new)>(s: State<T>, a: Action<T>)
    requires Inv(s) && (a.PushStart? || a.PushCheck? || a.PushPublish?)
    ensures Inv(Step(s, a))
  {
    var n, p, t := |s.buf|, |s.popped|, |s.accepted|;
    NextIsSuccessor(t, n);
    hide Next, RingSize;
    ModWindow(p, t + 1, n);
    var s' := Step(s, a);
    if a.PushPublish? {
      assert forall k :: p <= k < |s'.accepted| ==> s'.buf[k % n] == Whole(s'.accepted[k]);
    }
  }

  /** Writing touches only the free slot behind the accepted items. */
  lemma ProducerWritesKeepInv<T(!new)>(s: State<T>, a: Action<T>)
    requires Inv(s) && (a.WriteBegin? || a.WriteEnd?)
    ensures Inv(Step(s, a))
  {
    hide Next, RingSize;
    var n, p, t := |s.buf|, |s.popped|, |s.accepted|;
    forall k | p <= k < t ensures k % n != t % n {
      ModWindow(k, t, n);
    }
  }

  lemma ProducerStepKeepsInv<T(!new)>(s: State<T>, a: Action<T>)
    requires Inv(s)
    requires a.PushStart? || a.PushCheck? || a.WriteBegin? || a.WriteEnd? || a.PushPublish?
    ensures Inv(Step(s, a))
  {
    hide Inv, Step;
    if a.WriteBegin? || a.WriteEnd? {
      ProducerWritesKeepInv(s, a);
    } else {
      ProducerPositionsKeepInv(s, a);
    }
  }

  lemma ConsumerStepKeepsInv<T(!new)>(s: State<T>, a: Action<T>)
    requires Inv(s)
    requires a.PopStart? || a.PopCheck? || a.ReadBegin? || a.ReadEnd? || a.PopRelease?
    ensures Inv(Step(s, a))
  {
    var n, p, t := |s.buf|, |s.popped|, |s.accepted|;
    NextIsSuccessor(p, n);
    ModWindow(p, t, n);
  }

  /** Every interleaving, for every power-of-two ring size, keeps the invariant. */
  lemma {:induction false} RunKeepsInv<T(!new)>(n: nat, zero: T, actions: seq<Action<T>>)
    requires RingSize(n)
    ensures Inv(Run(Initial(n, zero), actions))
  {
    if actions == [] {
      Remainder(0, n, 0, 0);
    } else {
      var a := actions[|actions| - 1];
      RunKeepsInv(n, zero, actions[..|actions| - 1]);
      var s := Run(Initial(n, zero), actions[..|actions| - 1]);
      if a.PushStart? || a.PushCheck? || a.WriteBegin? || a.WriteEnd? || a.PushPublish? {
        ProducerStepKeepsInv(s, a);
      } else {
        ConsumerStepKeepsInv(s, a);
      }
    }
  }

  // ----- refinement of an unbounded queue --------------------------------------

  /** The abstract queue: accepted items that have not been popped. */
  ghost function Queue<T>(s: State<T>): seq<T> {
    if |s.popped| <= |s.accepted| then s.accepted[|s.popped|..] else []
  }

  /** Popped items are a prefix of the accepted ones, in order, with at most N - 1 in flight. */
  lemma PoppedIsPrefix<T(!new)>(n: nat, zero: T, actions: seq<Action<T>>)
    requires RingSize(n)
    ensures var s := Run(Initial(n, zero), actions);
            && s.popped <= s.accepted
            && |s.accepted| - |s.popped| <= n - 1
            && s.accepted == s.popped + Queue(s)
  {
    RunKeepsInv(n, zero, actions);
  }

  /** Each action leaves the abstract queue alone, appends the pushed item, or removes the head and returns it. */
  lemma Refinement<T(!new)>(s: State<T>, a: Action<T>)
    requires Inv(s)
    ensures a.PushPublish? && s.prod.PWritten? ==> Queue(Step(s, a)) == Queue(s) + [s.prod.item]
    ensures a.PopRelease? && s.cons.CTaken? ==>
              && Queue(s) != [] && s.cons.out == Whole(Queue(s)[0])
              && Step(s, a).popped == s.popped + [Queue(s)[0]]
              && Queue(Step(s, a)) == Queue(s)[1..]
    ensures !(a.PushPublish? && s.prod.PWritten?) && !(a.PopRelease? && s.cons.CTaken?) ==>
              Queue(Step(s, a)) == Queue(s)
  {
    hide Next, ProducerInv;
    if a.PushPublish? && s.prod.PWritten? {
      Appended(s, a);
    } else if a.PopRelease? && s.cons.CTaken? {
      HeadRemoved(s, a);
    }
  }

  lemma Appended<T(!new)>(s: State<T>, a: Action<T>)
    requires s.buf != [] && a.PushPublish? && s.prod.PWritten? && |s.popped| <= |s.accepted|
    ensures Queue(Step(s, a)) == Queue(s) + [s.prod.item]
  {
  }

  lemma HeadRemoved<T(!new)>(s: State<T>, a: Action<T>)
    requires s.buf != [] && a.PopRelease? && s.cons.CTaken? && |s.popped| < |s.accepted|
    requires s.cons.out == Whole(s.accepted[|s.popped|])
    ensures Queue(s) != [] && s.cons.out == Whole(Queue(s)[0])
    ensures Step(s, a).popped == s.popped + [Queue(s)[0]]
    ensures Queue(Step(s, a)) == Queue(s)[1..]
  {
    hide Next;
  }

  /** push returns false exactly when N - 1 items were held as it read read_pos_; pop, when none were. */
  lemma FailsExactlyWhen<T(!new)>(s: State<T>)
    requires Inv(s)
    ensures s.prod.PLoaded? ==> (Step(s, PushCheck).prod.PIdle? <==> |Queue(s)| == |s.buf| - 1)
    ensures s.cons.CLoaded? ==> (Step(s, PopCheck).cons.CIdle? <==> Queue(s) == [])
  {
    var n, p, t := |s.buf|, |s.popped|, |s.accepted|;
    NextIsSuccessor(t, n);
    ModWindow(p, t + 1, n);
    ModWindow(p, t, n);
  }

  /** The slot being written is never the slot being read, and a read slot keeps its item until it is released. */
  lemma NoOverlap<T(!new)>(s: State<T>, a: Action<T>)
    requires Inv(s)
    requires s.cons.CReady? || s.cons.CReading? || s.cons.CTaken?
    ensures s.prod.PWriting? || s.prod.PReady? || s.prod.PWritten? ==> s.prod.w != s.cons.r
    ensures s.cons.r < |s.buf| && s.buf[s.cons.r].Whole?
    ensures a != PopRelease ==> Step(s, a).buf[s.cons.r] == s.buf[s.cons.r]
  {
    var n, p, t := |s.buf|, |s.popped|, |s.accepted|;
    ModWindow(p, t, n);
  }

  /** Nothing is dropped silently: without a full ring the accepted items are all the offered ones. */
  lemma {:induction false} OfferedOrAccepted<T(!new)>(n: nat, zero: T, actions: seq<Action<T>>)
    requires RingSize(n)
    ensures var s := Run(Initial(n, zero), actions);
            |s.accepted| <= |s.offered| && (|s.accepted| == |s.offered| ==> s.accepted == s.offered)
  {
    if actions != [] {
      OfferedOrAccepted(n, zero, actions[..|actions| - 1]);
    }
  }

  // ----- uninterrupted operations ----------------------------------------------

  lemma Indices<T(!new)>(s: State<T>)
    requires Inv(s)
    ensures s.prod.PReady? || s.prod.PWriting? ==> s.prod.w < |s.buf|
    ensures s.cons.CReading? ==> s.cons.r < |s.buf|
    ensures s.cons.CTaken? ==> s.cons.out.Whole?
    ensures |Queue(s)| <= |s.buf| - 1 && s.buf != []
  {
  }

  lemma UninterruptedPush<T(!new)>(s: State<T>, item: T)
    requires Inv(s) && s.prod.PIdle?
    ensures var checked := Step(Step(s, PushStart(item)), PushCheck);
            var done := Step(Step(Step(checked, WriteBegin), WriteEnd), PushPublish);
            if |Queue(s)| == |s.buf| - 1 then
              checked == s.(offered := s.offered + [item]) && Queue(checked) == Queue(s)
            else
              && !checked.prod.PIdle?
              && done.prod.PIdle? && done.cons == s.cons && done.popped == s.popped
              && Queue(done) == Queue(s) + [item] && done.offered == s.offered + [item]
    ensures |Queue(s)| <= |s.buf| - 1
  {
    hide Inv, Next, Queue;
    Indices(s);
    var s1 := Step(s, PushStart(item));
    ProducerStepKeepsInv(s, PushStart(item));
    Refinement(s, PushStart(item));
    FailsExactlyWhen(s1);
    var s2 := Step(s1, PushCheck);
    ProducerStepKeepsInv(s1, PushCheck);
    Refinement(s1, PushCheck);
    Indices(s2);
    var s3 := Step(s2, WriteBegin);
    ProducerStepKeepsInv(s2, WriteBegin);
    Refinement(s2, WriteBegin);
    Indices(s3);
    var s4 := Step(s3, WriteEnd);
    ProducerStepKeepsInv(s3, WriteEnd);
    Refinement(s3, WriteEnd);
    Refinement(s4, PushPublish);
  }

  lemma UninterruptedPop<T(!new)>(s: State<T>)
    requires Inv(s) && s.cons.CIdle?
    ensures var checked := Step(Step(s, PopStart), PopCheck);
            var read := Step(Step(checked, ReadBegin), ReadEnd);
            var done := Step(read, PopRelease);
            if Queue(s) == [] then
              checked == s
            else
              && !checked.cons.CIdle? && read.cons.CTaken? && read.cons.out == Whole(Queue(s)[0])
              && done.cons.CIdle? && done.prod == s.prod
              && done.offered == s.offered && done.accepted == s.accepted
              && done.popped == s.popped + [Queue(s)[0]] && Queue(s) == [Queue(s)[0]] + Queue(done)
  {
    hide Inv, Next, Queue;
    Indices(s);
    var s1 := Step(s, PopStart);
    ConsumerStepKeepsInv(s, PopStart);
    Refinement(s, PopStart);
    FailsExactlyWhen(s1);
    var s2 := Step(s1, PopCheck);
    ConsumerStepKeepsInv(s1, PopCheck);
    Refinement(s1, PopCheck);
    var s3 := Step(s2, ReadBegin);
    ConsumerStepKeepsInv(s2, ReadBegin);
    Refinement(s2, ReadBegin);
    Indices(s3);
    var s4 := Step(s3, ReadEnd);
    ConsumerStepKeepsInv(s3, ReadEnd);
    Refinement(s3, ReadEnd);
    Indices(s4);
    Refinement(s4, PopRelease);
  }

  // ----- the class -------------------------------------------------------------

  /** The object itself: push and pop act on its fields one action at a time. */
  class Ring<T(0, !new)> {
    const buf: array<Cell<T>>
    var writePos: nat
    var readPos: nat
    var prod: Producer<T>
    var cons: Consumer<T>
    ghost var offered: seq<T>
    ghost var accepted: seq<T>
    ghost var popped: seq<T>

    ghost function View(): State<T>
      reads this, buf
    {
      State(buf[..], writePos, readPos, prod, cons, offered, accepted, popped)
    }

    ghost predicate Valid()
      reads this, buf
    {
      Inv(View())
    }

    constructor (n: nat, zero: T)
      requires RingSize(n)
      ensures Valid() && View() == Initial(n, zero)
      ensures fresh(buf)
    {
      buf := new Cell<T>[n](i => Whole(zero));
      writePos, readPos := 0, 0;
      prod, cons := PIdle, CIdle;
      offered, accepted, popped := [], [], [];
      new;
      assert buf[..] == Initial(n, zero).buf;
      RunKeepsInv(n, zero, []);
    }

    /** Performs one atomic action of whichever thread it belongs to. */
    method Act(a: Action<T>)
      requires Valid()
      modifies this, buf
      ensures Valid() && View() == Step(old(View()), a)
    {
      hide Inv, Next;
      ghost var before := View();
      Indices(before);
      if a.PushStart? || a.PushCheck? || a.WriteBegin? || a.WriteEnd? || a.PushPublish? {
        ProducerStepKeepsInv(before, a);
      } else {
        ConsumerStepKeepsInv(before, a);
      }
      match a {
        case PushStart(item) =>
          if prod.PIdle? { prod := PLoaded(item, writePos); }
        case PushCheck =>
          if prod.PLoaded? {
            var next := Next(prod.w, buf.Length);
            if next == readPos {
              offered := offered + [prod.item];
              prod := PIdle;
            } else {
              prod := PReady(prod.item, prod.w, next);
            }
          }
        case WriteBegin =>
          if prod.PReady? {
            buf[prod.w] := Torn;
            prod := PWriting(prod.item, prod.w, prod.next);
          }
        case WriteEnd =>
          if prod.PWriting? {
            buf[prod.w] := Whole(prod.item);
            prod := PWritten(prod.item, prod.w, prod.next);
          }
        case PushPublish =>
          if prod.PWritten? {
            offered, accepted := offered + [prod.item], accepted + [prod.item];
            writePos := prod.next;
            prod := PIdle;
          }
        case PopStart =>
          if cons.CIdle? { cons := CLoaded(readPos); }
        case PopCheck =>
          if cons.CLoaded? {
            cons := if cons.r == writePos then CIdle else CReady(cons.r);
          }
        case ReadBegin =>
          if cons.CReady? { cons := CReading(cons.r); }
        case ReadEnd =>
          if cons.CReading? { cons := CTaken(cons.r, buf[cons.r]); }
        case PopRelease =>
          if cons.CTaken? {
            readPos := Next(cons.r, buf.Length);
            popped := popped + [cons.out.value];
            cons := CIdle;
          }
      }
    }

    /** push with no action of the consumer in between. */
    method Push(item: T) returns (ok: bool)
      requires Valid() && prod.PIdle?
      modifies this, buf
      ensures Valid() && prod.PIdle? && cons == old(cons) && popped == old(popped)
      ensures ok <==> |Queue(old(View()))| < buf.Length - 1
      ensures Queue(View()) == if ok then Queue(old(View())) + [item] else Queue(old(View()))
      ensures offered == old(offered) + [item]
    {
      hide Inv, Step, Queue;
      UninterruptedPush(View(), item);
      Act(PushStart(item));
      Act(PushCheck);
      if prod.PIdle? {
        return false;
      }
      Act(WriteBegin);
      Act(WriteEnd);
      Act(PushPublish);
      ok := true;
    }

    /** pop(out) with no action of the producer in between; a failed pop leaves out as it was. */
    method Pop(into: T) returns (ok: bool, out: T)
      requires Valid() && cons.CIdle?
      modifies this, buf
      ensures Valid() && cons.CIdle? && prod == old(prod)
      ensures offered == old(offered) && accepted == old(accepted)
      ensures ok <==> Queue(old(View())) != []
      ensures ok ==> Queue(old(View())) == [out] + Queue(View()) && popped == old(popped) + [out]
      ensures !ok ==> out == into && View() == old(View())
    {
      hide Inv, Step, Queue;
      UninterruptedPop(View());
      Act(PopStart);
      Act(PopCheck);
      if cons.CIdle? {
        return false, into;
      }
      Act(ReadBegin);
      Act(ReadEnd);
      out := cons.out.value;
      Act(PopRelease);
      ok := true;
    }
  }
}
