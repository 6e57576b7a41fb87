/**
 * The three-slot publish/subscribe buffer with one writer and one reader. A value
 * is a row of words, copied into or out of its slot one word per action; the two
 * exchanges on the packed word are single actions (sequentially consistent).
 */
module AtomicDoubleBuffer {
  import opened Masks

  const SLOT_MASK: nat := 3
  const NEW_DATA_FLAG: nat := 4

  function SlotOf(packed: nat): nat {
    BitAnd(packed, SLOT_MASK)
  }

  predicate HasNew(packed: nat) {
    BitAnd(packed, NEW_DATA_FLAG) != 0
  }

  /** slot | kNewDataFlag; bit 2 of a slot number is clear. */
  function Publish(slot: nat): nat {
    slot + NEW_DATA_FLAG
  }

  lemma PackedBits(slot: nat)
    requires slot < 3
    ensures SlotOf(slot) == slot && !HasNew(slot)
    ensures SlotOf(Publish(slot)) == slot && HasNew(Publish(slot))
  {
    assert BitAnd(1, 1) == 1 && BitAnd(0, 1) == 0;
    assert BitAnd(1, 2) == 0 && BitAnd(2, 2) == 2 && BitAnd(3, 2) == 2;
    assert BitAnd(2, 1) == 0 && BitAnd(3, 1) == 1;
    assert BitAnd(slot / 2, 2) == 0;
  }

  type Value<T> = seq<T>

  /** Where the writer is inside store(val). */
  datatype Writer<T> = WIdle | WCopying(val: Value<T>, k: nat) | WSwapped(taken: nat)

  /** Where the reader is inside load(). */
  datatype Reader<T> = RIdle | RPeeked | RSwapped(taken: nat) | RCopying(out: Value<T>)

  /** A completed load: what it returned, which publication that was, and the last one before its peek. */
  datatype LoadRecord<T> = LoadRecord(value: Value<T>, version: nat, since: nat)

  /**
   * Shared memory, both threads, and the history: published[v] is the v-th value
   * stored, the initial one first; version[i] is the publication slot i last held;
   * since is the last publication before the reader's latest peek.
   */
  datatype State<T> = State(
    buf: seq<Value<T>>, packed: nat, writerSlot: nat, readerSlot: nat,
    writer: Writer<T>, reader: Reader<T>,
    published: seq<Value<T>>, version: seq<nat>, since: nat, loads: seq<LoadRecord<T>>)

  datatype Action<T> =
    | StoreStart(val: Value<T>) | CopyIn | PublishExchange | WriterTake
    | Peek | TakeExchange | ReaderTake | CopyOut | LoadReturn

  predicate Shaped<T>(s: State<T>) {
    && |s.buf| == 3 && |s.version| == 3 && s.published != []
    && s.writerSlot < 3 && s.readerSlot < 3
  }

  function Initial<T>(init: Value<T>): (s: State<T>)
    ensures Shaped(s)
  {
    State([init, init, init], 1, 2, 0, WIdle, RIdle, [init], [0, 0, 0], 0, [])
  }

  /** The number of words in a value. */
  function Words<T>(s: State<T>): nat
    requires s.published != []
  {
    |s.published[0]|
  }

  /** One atomic action; an action whose thread is elsewhere changes nothing. */
  function Step<T>(s: State<T>, a: Action<T>): (r: State<T>)
    requires Shaped(s)
    ensures Shaped(r)
  {
    match a
    case StoreStart(val) =>
      if s.writer.WIdle? && |val| == Words(s) then s.(writer := WCopying(val, 0)) else s
    case CopyIn =>
      if s.writer.WCopying? && s.writer.k < |s.writer.val| && s.writer.k < |s.buf[s.writerSlot]| then
        var k := s.writer.k;
        s.(buf := s.buf[s.writerSlot := s.buf[s.writerSlot][k := s.writer.val[k]]],
           writer := WCopying(s.writer.val, k + 1))
      else s
    case PublishExchange =>
      if s.writer.WCopying? && s.writer.k == |s.writer.val| then
        s.(packed := Publish(s.writerSlot), writer := WSwapped(s.packed),
           version := s.version[s.writerSlot := |s.published|], published := s.published + [s.writer.val])
      else s
    case WriterTake =>
      if s.writer.WSwapped? && SlotOf(s.writer.taken) < 3 then
        s.(writerSlot := SlotOf(s.writer.taken), writer := WIdle)
      else s
    case Peek =>
      if s.reader.RIdle? then
        s.(reader := if HasNew(s.packed) then RPeeked else RCopying([]), since := |s.published| - 1)
      else s
    case TakeExchange =>
      if s.reader.RPeeked? then
        s.(packed := s.readerSlot, reader := RSwapped(s.packed))
      else s
    case ReaderTake =>
      if s.reader.RSwapped? && SlotOf(s.reader.taken) < 3 then
        s.(readerSlot := SlotOf(s.reader.taken), reader := RCopying([]))
      else s
    case CopyOut =>
      if s.reader.RCopying? && |s.reader.out| < |s.buf[s.readerSlot]| then
        s.(reader := RCopying(s.reader.out + [s.buf[s.readerSlot][|s.reader.out|]]))
      else s
    case LoadReturn =>
      if s.reader.RCopying? && |s.reader.out| == |s.buf[s.readerSlot]| then
        s.(reader := RIdle, loads := s.loads + [LoadRecord(s.reader.out, s.version[s.readerSlot], s.since)])
      else s
  }

  function Run<T>(s: State<T>, actions: seq<Action<T>>): (r: State<T>)
    requires Shaped(s)
    ensures Shaped(r)
    decreases |actions|
  {
    if actions == [] then s
    else Step(Run(s, actions[..|actions| - 1]), actions[|actions| - 1])
  }

  // ----- ownership -------------------------------------------------------------

  /** The writer's slot, counting one it holds between its exchange and the assignment. */
  function WriterOwns<T>(s: State<T>): nat {
    if s.writer.WSwapped? then SlotOf(s.writer.taken) else s.writerSlot
  }

  function ReaderOwns<T>(s: State<T>): nat {
    if s.reader.RSwapped? then SlotOf(s.reader.taken) else s.readerSlot
  }

  function Shared<T>(s: State<T>): nat {
    SlotOf(s.packed)
  }

  /** The three owned slots are 0, 1 and 2 in some order. */
  ghost predicate Permutation<T>(s: State<T>) {
    var w, r, h := WriterOwns(s), ReaderOwns(s), Shared(s);
    w < 3 && r < 3 && h < 3 && w != r && r != h && w != h
  }

  ghost predicate PackedOk(packed: nat) {
    SlotOf(packed) < 3 && (packed == SlotOf(packed) || packed == Publish(SlotOf(packed)))
  }

  ghost predicate Contents<T(!new)>(s: State<T>)
    requires Shaped(s) && Permutation(s)
  {
    var h, r, latest := Shared(s), ReaderOwns(s), |s.published| - 1;
    && (forall i :: 0 <= i < 3 ==> |s.buf[i]| == Words(s) && s.version[i] <= latest)
    && (forall v :: 0 <= v <= latest ==> |s.published[v]| == Words(s))
    && s.buf[h] == s.published[s.version[h]] && s.buf[r] == s.published[s.version[r]]
    && (HasNew(s.packed) ==> s.version[h] == latest)
    && (HasNew(s.packed) <==> s.version[r] < latest)
  }

  ghost predicate Threads<T(!new)>(s: State<T>)
    requires Shaped(s) && Permutation(s)
  {
    && (match s.writer
        case WIdle => true
        case WCopying(val, k) =>
          |val| == Words(s) == |s.buf[s.writerSlot]| && k <= |val| && s.buf[s.writerSlot][..k] == val[..k]
        case WSwapped(taken) => PackedOk(taken))
    && s.since < |s.published|
    && (match s.reader
        case RIdle => true
        case RPeeked => HasNew(s.packed)
        case RSwapped(taken) => PackedOk(taken) && s.since <= s.version[SlotOf(taken)]
        case RCopying(out) => s.since <= s.version[s.readerSlot] && out <= s.buf[s.readerSlot])
  }

  ghost predicate LoadOk<T>(s: State<T>, l: LoadRecord<T>) {
    l.since <= l.version < |s.published| && l.value == s.published[l.version]
  }

  ghost predicate History<T(!new)>(s: State<T>)
    requires Shaped(s) && Permutation(s)
  {
    && (forall i :: 0 <= i < |s.loads| ==>
          LoadOk(s, s.loads[i]) && s.loads[i].version <= s.version[ReaderOwns(s)])
    && (forall i, j :: 0 <= i < j < |s.loads| ==> s.loads[i].version <= s.loads[j].version)
  }

  ghost predicate Inv<T(!new)>(s: State<T>) {
    && Shaped(s) && PackedOk(s.packed) && Permutation(s)
    && Contents(s) && Threads(s) && History(s)
  }

  predicate WriterAction<T>(a: Action<T>) {
    a.StoreStart? || a.CopyIn? || a.PublishExchange? || a.WriterTake?
  }

  lemma WriterStepKeepsInv<T(!new)>(s: State<T>, a: Action<T>)
    requires Inv(s) && WriterAction(a)
    ensures Inv(Step(s, a))
  {
    hide BitAnd, SlotOf, HasNew, Publish;
    forall slot: nat | slot < 3 ensures SlotOf(slot) == slot && !HasNew(slot)
      && SlotOf(Publish(slot)) == slot && HasNew(Publish(slot))
    {
      PackedBits(slot);
    }
    var t := Step(s, a);
    if a.CopyIn? && s.writer.WCopying? {
      var k, val := s.writer.k, s.writer.val;
      assert k < |val| ==> t.buf[s.writerSlot][..k + 1] == s.buf[s.writerSlot][..k] + [val[k]];
      assert k < |val| ==> val[..k + 1] == val[..k] + [val[k]];
    }
    if a.PublishExchange? && s.writer.WCopying? {
      assert s.writer.k == |s.writer.val| ==> s.buf[s.writerSlot] == s.writer.val;
    }
  }

  lemma ReaderStepKeepsInv<T(!new)>(s: State<T>, a: Action<T>)
    requires Inv(s) && !WriterAction(a)
    ensures Inv(Step(s, a))
  {
    hide Inv, Step;
    if a.CopyOut? || a.LoadReturn? {
      CopyingKeepsInv(s, a);
    } else {
      TakingKeepsInv(s, a);
    }
  }

  lemma CopyingKeepsInv<T(!new)>(s: State<T>, a: Action<T>)
    requires Inv(s) && (a.CopyOut? || a.LoadReturn?)
    ensures Inv(Step(s, a))
  {
    hide BitAnd, SlotOf, HasNew, Publish;
    if a.LoadReturn? && s.reader.RCopying? {
      assert |s.reader.out| == |s.buf[s.readerSlot]| ==> s.reader.out == s.buf[s.readerSlot];
    }
  }

  lemma TakingKeepsInv<T(!new)>(s: State<T>, a: Action<T>)
    requires Inv(s) && (a.Peek? || a.TakeExchange? || a.ReaderTake?)
    ensures Inv(Step(s, a))
  {
    hide BitAnd, SlotOf, HasNew, Publish;
    forall slot: nat | slot < 3 ensures SlotOf(slot) == slot && !HasNew(slot)
      && SlotOf(Publish(slot)) == slot && HasNew(Publish(slot))
    {
      PackedBits(slot);
    }
  }

  /** Every interleaving of one writer and one reader keeps the invariant. */
  lemma {:induction false} RunKeepsInv<T(!new)>(init: Value<T>, actions: seq<Action<T>>)
    ensures Inv(Run(Initial(init), actions))
  {
    hide BitAnd;
    if actions == [] {
      PackedBits(1);
      assert SlotOf(1) == 1 && !HasNew(1);
    } else {
      var a := actions[|actions| - 1];
      RunKeepsInv(init, actions[..|actions| - 1]);
      var s := Run(Initial(init), actions[..|actions| - 1]);
      if WriterAction(a) {
        WriterStepKeepsInv(s, a);
      } else {
        ReaderStepKeepsInv(s, a);
      }
    }
  }

  // ----- what every run promises -----------------------------------------------

  /**
   * Writer's, reader's and shared slot are always a permutation of {0, 1, 2}, so a
   * word is never written into the slot being read.
   */
  lemma SlotsArePermutation<T(!new)>(init: Value<T>, actions: seq<Action<T>>)
    ensures var s := Run(Initial(init), actions);
            && Permutation(s)
            && (s.writer.WCopying? && s.reader.RCopying? ==> s.writerSlot != s.readerSlot)
            && Step(s, CopyIn).buf[ReaderOwns(s)] == s.buf[ReaderOwns(s)]
            && Step(s, CopyIn).buf[Shared(s)] == s.buf[Shared(s)]
  {
    hide BitAnd, SlotOf, Contents, History, HasNew;
    RunKeepsInv(init, actions);
  }

  /**
   * Every load returns one whole stored value, at least as new as the last one
   * published before it peeked, and successive loads never go back.
   */
  lemma LoadsAreWholeAndFresh<T(!new)>(init: Value<T>, actions: seq<Action<T>>)
    ensures var s := Run(Initial(init), actions);
            && (forall i :: 0 <= i < |s.loads| ==>
                  s.loads[i].since <= s.loads[i].version < |s.published|
                  && s.loads[i].value == s.published[s.loads[i].version])
            && (forall i, j :: 0 <= i < j < |s.loads| ==> s.loads[i].version <= s.loads[j].version)
  {
    hide Contents, Threads;
    RunKeepsInv(init, actions);
  }

  /** The flag read by has_new_data says exactly whether something newer than the reader's value is published. */
  lemma FlagMeansNewer<T(!new)>(init: Value<T>, actions: seq<Action<T>>)
    ensures var s := Run(Initial(init), actions);
            ReaderOwns(s) < 3
            && (HasNew(s.packed) <==> s.version[ReaderOwns(s)] < |s.published| - 1)
  {
    RunKeepsInv(init, actions);
  }

  lemma InBounds<T(!new)>(s: State<T>)
    requires Inv(s)
    ensures Shaped(s) && forall i :: 0 <= i < 3 ==> |s.buf[i]| == Words(s)
    ensures s.writer.WSwapped? ==> SlotOf(s.writer.taken) < 3
    ensures s.reader.RSwapped? ==> SlotOf(s.reader.taken) < 3
    ensures s.writer.WCopying? ==> |s.writer.val| == Words(s)
  {
  }

  lemma CopyingLatest<T(!new)>(s: State<T>)
    requires Inv(s) && s.reader.RCopying? && s.since == |s.published| - 1
    ensures s.buf[s.readerSlot] == s.published[s.since] && s.reader.out <= s.published[s.since]
  {
  }

  // ----- the class -------------------------------------------------------------

  class Buffer<T(0, !new)> {
    const buf: array<Value<T>>
    var packed: nat
    var writerSlot: nat
    var readerSlot: nat
    var writer: Writer<T>
    var reader: Reader<T>
    ghost var published: seq<Value<T>>
    ghost var version: seq<nat>
    ghost var since: nat
    ghost var loads: seq<LoadRecord<T>>

    ghost function View(): State<T>
      reads this, buf
    {
      State(buf[..], packed, writerSlot, readerSlot, writer, reader, published, version, since, loads)
    }

    ghost predicate Valid()
      reads this, buf
    {
      Inv(View())
    }

    constructor (init: Value<T>)
      ensures Valid() && View() == Initial(init) && fresh(buf)
    {
      buf := new Value<T>[3](i => init);
      packed, writerSlot, readerSlot := 1, 2, 0;
      writer, reader := WIdle, RIdle;
      published, version, since, loads := [init], [0, 0, 0], 0, [];
      new;
      RunKeepsInv(init, []);
      assert buf[..] == [init, init, init];
    }

    /** Performs one atomic action of whichever thread it belongs to. */
    method Act(a: Action<T>)
      requires Valid()
      modifies this, buf
      ensures Valid() && View() == Step(old(View()), a)
    {
      hide BitAnd, Publish, SlotOf, HasNew, Inv;
      ghost var before := View();
      InBounds(before);
      if WriterAction(a) {
        WriterStepKeepsInv(before, a);
      } else {
        ReaderStepKeepsInv(before, a);
      }
      match a {
        case StoreStart(val) =>
          if writer.WIdle? && |val| == |buf[0]| { writer := WCopying(val, 0); }
        case CopyIn =>
          if writer.WCopying? && writer.k < |writer.val| {
            var k := writer.k;
            buf[writerSlot] := buf[writerSlot][k := writer.val[k]];
            writer := WCopying(writer.val, k + 1);
          }
        case PublishExchange =>
          if writer.WCopying? && writer.k == |writer.val| {
            var taken := packed;
            version := version[writerSlot := |published|];
            published := published + [writer.val];
            packed := Publish(writerSlot);
            writer := WSwapped(taken);
          }
        case WriterTake =>
          if writer.WSwapped? {
            writerSlot := SlotOf(writer.taken);
            writer := WIdle;
          }
        case Peek =>
          if reader.RIdle? {
            since := |published| - 1;
            reader := if HasNew(packed) then RPeeked else RCopying([]);
          }
        case TakeExchange =>
          if reader.RPeeked? {
            var taken := packed;
            packed := readerSlot;
            reader := RSwapped(taken);
          }
        case ReaderTake =>
          if reader.RSwapped? {
            readerSlot := SlotOf(reader.taken);
            reader := RCopying([]);
          }
        case CopyOut =>
          if reader.RCopying? && |reader.out| < |buf[readerSlot]| {
            reader := RCopying(reader.out + [buf[readerSlot][|reader.out|]]);
          }
        case LoadReturn =>
          if reader.RCopying? && |reader.out| == |buf[readerSlot]| {
            loads := loads + [LoadRecord(reader.out, version[readerSlot], since)];
            reader := RIdle;
          }
      }
    }

    /** store(val) with no action of the reader in between. */
    method Store(val: Value<T>)
      requires Valid() && writer.WIdle? && |val| == Words(View())
      modifies this, buf
      ensures Valid() && writer.WIdle? && published == old(published) + [val]
      ensures reader == old(reader) && loads == old(loads)
    {
      hide Inv, BitAnd, SlotOf, HasNew, Publish;
      InBounds(View());
      Act(StoreStart(val));
      while writer.k < |val|
        invariant Valid() && writer.WCopying? && writer.val == val && writer.k <= |val|
        invariant published == old(published) && reader == old(reader) && loads == old(loads)
        decreases |val| - writer.k
      {
        InBounds(View());
        Act(CopyIn);
      }
      Act(PublishExchange);
      InBounds(View());
      Act(WriterTake);
    }

    /** load() with no action of the writer in between returns the latest value. */
    method Load() returns (out: Value<T>)
      requires Valid() && reader.RIdle?
      modifies this, buf
      ensures Valid() && reader.RIdle? && writer == old(writer) && published == old(published)
      ensures published != [] && out == published[|published| - 1]
    {
      hide Inv, BitAnd, SlotOf, HasNew, Publish, Words;
      InBounds(View());
      Act(Peek);
      if reader.RPeeked? {
        Act(TakeExchange);
        InBounds(View());
        Act(ReaderTake);
      }
      out := CopyReaderSlot();
    }

    /** return buf_[reader_slot_] */
    method CopyReaderSlot() returns (out: Value<T>)
      requires Valid() && reader.RCopying? && since == |published| - 1
      modifies this, buf
      ensures Valid() && reader.RIdle? && writer == old(writer) && published == old(published)
      ensures published != [] && out == published[|published| - 1]
    {
      hide Inv, BitAnd, SlotOf, HasNew, Publish, Words;
      InBounds(View());
      while |reader.out| < |buf[readerSlot]|
        invariant Valid() && reader.RCopying? && readerSlot < 3
        invariant writer == old(writer) && published == old(published)
        invariant since == |published| - 1
        decreases |buf[readerSlot]| - |reader.out|
      {
        Act(CopyOut);
      }
      CopyingLatest(View());
      out := reader.out;
      Act(LoadReturn);
    }
  }
}
