/** Order events travelling from the IO thread to the map of open orders kept by the consumer. */
module OrderEvents {
  import opened Masks
  import opened SpscQueue

  datatype Order = Order(id: string, side: string, price: real, amount: real)

  datatype EventType = OPEN | CANCEL | FILL

  datatype OrderEvent = OrderEvent(kind: EventType, order: Order)

  type OrderMap = map<string, Order>

  // ----- producing events ------------------------------------------------------

  /** One element of a spot.orders push: its id and status, and its full conversion. */
  datatype Item = Item(id: string, status: string, order: Order)

  function Blank(id: string): Order {
    Order(id, "", 0.0, 0.0)
  }

  function EventOf(item: Item): OrderEvent {
    if item.status == "open" then OrderEvent(OPEN, item.order)
    else if item.status == "closed" then OrderEvent(FILL, Blank(item.id))
    else OrderEvent(CANCEL, Blank(item.id))
  }

  /** Items without an id are skipped. */
  function EventsOf(items: seq<Item>): seq<OrderEvent> {
    if items == [] then []
    else
      var rest := EventsOf(items[..|items| - 1]);
      var item := items[|items| - 1];
      if item.id == "" then rest else rest + [EventOf(item)]
  }

  // ----- applying events -------------------------------------------------------

  function Apply(orders: OrderMap, ev: OrderEvent): OrderMap {
    match ev.kind
    case OPEN => orders[ev.order.id := ev.order]
    case FILL => orders - {ev.order.id}
    case CANCEL => orders - {ev.order.id}
  }

  function FoldFrom(orders: OrderMap, events: seq<OrderEvent>): OrderMap {
    if events == [] then orders
    else Apply(FoldFrom(orders, events[..|events| - 1]), events[|events| - 1])
  }

  /** The open orders after a whole history of events: an id is open iff its last event opened it. */
  function Fold(events: seq<OrderEvent>): OrderMap {
    FoldFrom(map[], events)
  }

  ghost predicate LastOpens(events: seq<OrderEvent>, k: nat, id: string) {
    && k < |events| && events[k].kind == OPEN && events[k].order.id == id
    && forall j :: k < j < |events| ==> events[j].order.id != id
  }

  /** An order is in the map exactly when the last event about it opened it, with that event's data. */
  lemma {:induction false} FoldMeaning(events: seq<OrderEvent>, id: string)
    ensures id in Fold(events) <==> exists k: nat :: LastOpens(events, k, id)
    ensures forall k: nat :: LastOpens(events, k, id) ==> id in Fold(events) && Fold(events)[id] == events[k].order
  {
    if events != [] {
      var n := |events| - 1;
      var init := events[..n];
      FoldMeaning(init, id);
      if events[n].order.id == id {
        assert forall k: nat :: LastOpens(events, k, id) ==> k == n;
        assert events[n].kind == OPEN ==> LastOpens(events, n, id);
      } else {
        assert forall k: nat :: LastOpens(init, k, id) ==> LastOpens(events, k, id);
        assert forall k: nat :: LastOpens(events, k, id) ==> LastOpens(init, k, id);
      }
    }
  }

  lemma {:induction false} FoldFromAppend(orders: OrderMap, xs: seq<OrderEvent>, ys: seq<OrderEvent>)
    ensures FoldFrom(orders, xs + ys) == FoldFrom(FoldFrom(orders, xs), ys)
  {
    if ys == [] {
      assert xs + ys == xs;
    } else {
      FoldFromAppend(orders, xs, ys[..|ys| - 1]);
      assert (xs + ys)[..|xs + ys| - 1] == xs + ys[..|ys| - 1];
    }
  }

  // ----- what pushed items mean ------------------------------------------------

  /** items[k] is the last of the items with that id. */
  ghost predicate LastItem(items: seq<Item>, k: nat, id: string) {
    && k < |items| && items[k].id == id
    && forall j :: k < j < |items| ==> items[j].id != id
  }

  /** The order in an item carries the item's id. */
  ghost predicate Consistent(items: seq<Item>) {
    forall k :: 0 <= k < |items| ==> items[k].order.id == items[k].id
  }

  /** What the map says of an id after the items have been applied to it. */
  ghost predicate Decides(orders: OrderMap, items: seq<Item>, after: OrderMap, id: string) {
    && (forall k: nat :: LastItem(items, k, id) && id != "" ==>
          && (id in after <==> items[k].status == "open")
          && (id in after ==> after[id] == items[k].order))
    && (id == "" || (forall k :: 0 <= k < |items| ==> items[k].id != id) ==>
          && (id in after <==> id in orders)
          && (id in after ==> after[id] == orders[id]))
  }

  /** One more item. */
  lemma ItemDecides(orders: OrderMap, init: seq<Item>, item: Item, before: OrderMap, after: OrderMap, id: string)
    requires Decides(orders, init, before, id) && item.order.id == item.id
    requires after == if item.id == "" then before else Apply(before, EventOf(item))
    ensures Decides(orders, init + [item], after, id)
  {
    var items := init + [item];
    assert items[|init|] == item;
    assert forall k :: 0 <= k < |init| ==> init[k] == items[k];
    forall k: nat | LastItem(items, k, id) ensures if item.id == id then k == |init| else LastItem(init, k, id) {
    }
  }

  lemma FoldOfItems(orders: OrderMap, init: seq<Item>, item: Item)
    ensures var before := FoldFrom(orders, EventsOf(init));
            FoldFrom(orders, EventsOf(init + [item]))
            == if item.id == "" then before else Apply(before, EventOf(item))
  {
    hide EventOf, Apply;
    assert (init + [item])[..|init|] == init;
    if item.id != "" {
      var events := EventsOf(init) + [EventOf(item)];
      assert events[..|events| - 1] == EventsOf(init);
    }
  }

  /** The map after the events of the items: the last item with an id decides, and ids without an item are left alone. */
  lemma {:induction false} LastItemDecides(orders: OrderMap, items: seq<Item>, id: string)
    requires Consistent(items)
    ensures Decides(orders, items, FoldFrom(orders, EventsOf(items)), id)
  {
    if items != [] {
      var n := |items| - 1;
      var init, item := items[..n], items[n];
      LastItemDecides(orders, init, id);
      FoldOfItems(orders, init, item);
      hide Decides, EventOf, Apply, EventsOf, FoldFrom;
      assert items == init + [item];
      ItemDecides(orders, init, item, FoldFrom(orders, EventsOf(init)), FoldFrom(orders, EventsOf(items)), id);
    }
  }

  /** An event of the kind the status asks for, about an item with an id. */
  ghost predicate Reports(items: seq<Item>, k: nat, ev: OrderEvent) {
    && k < |items| && items[k].id != "" && ev.order.id == items[k].id
    && (ev.kind == OPEN <==> items[k].status == "open")
    && (ev.kind == FILL <==> items[k].status == "closed")
  }

  /** Every event reports an item, and every item with an id is reported: filled when closed, cancelled unless open or closed. */
  lemma {:induction false} EventsReportItems(items: seq<Item>)
    requires Consistent(items)
    ensures forall ev :: ev in EventsOf(items) ==> exists k: nat :: Reports(items, k, ev)
    ensures forall k :: 0 <= k < |items| && items[k].id != "" ==>
              exists ev :: ev in EventsOf(items) && Reports(items, k, ev)
  {
    if items != [] {
      var n := |items| - 1;
      var init, item := items[..n], items[n];
      EventsReportItems(init);
      assert item.id != "" ==> Reports(items, n, EventOf(item));
      forall ev | ev in EventsOf(items) ensures exists k: nat :: Reports(items, k, ev) {
        if ev in EventsOf(init) {
          var k: nat :| Reports(init, k, ev);
          assert Reports(items, k, ev);
        }
      }
      forall k | 0 <= k < |items| && items[k].id != ""
        ensures exists ev :: ev in EventsOf(items) && Reports(items, k, ev)
      {
        if k < n {
          assert init[k].id != "";
          var ev :| ev in EventsOf(init) && Reports(init, k, ev);
          assert ev in EventsOf(items) && Reports(items, k, ev);
        } else {
          assert EventOf(item) in EventsOf(items);
        }
      }
    }
  }

  // ----- draining under concurrent pushes --------------------------------------

  /** Where the caller of fetch_open_orders is. */
  datatype Drain =
    | Outside
    | Draining
    | Holding(ev: OrderEvent)
    | Drained(result: OrderMap, drainedAt: nat, offeredAt: seq<OrderEvent>)

  datatype System = System(queue: State<OrderEvent>, orders: OrderMap, drain: Drain)

  datatype SysAction =
    | Produce(a: Action<OrderEvent>)
    | FetchStart
    | Consume(a: Action<OrderEvent>)
    | ApplyEvent
    | FetchReturn

  predicate ProducerAction(a: Action<OrderEvent>) {
    a.PushStart? || a.PushCheck? || a.WriteBegin? || a.WriteEnd? || a.PushPublish?
  }

  /** One atomic action of the IO thread or of the thread in fetch_open_orders. */
  function SysStep(s: System, a: SysAction): System
    requires s.queue.buf != []
  {
    match a
    case Produce(p) =>
      if ProducerAction(p) then s.(queue := Step(s.queue, p)) else s
    case FetchStart =>
      if s.drain.Outside? then s.(drain := Draining) else s
    case Consume(c) =>
      if ProducerAction(c) || !s.drain.Draining? then s
      else
        var q := Step(s.queue, c);
        if c.PopRelease? && s.queue.cons.CTaken? && s.queue.cons.out.Whole? then
          s.(queue := q, drain := Holding(s.queue.cons.out.value))
        else if c.PopCheck? && s.queue.cons.CLoaded? && q.cons.CIdle? then
          s.(queue := q, drain := Drained(s.orders, |s.queue.accepted|, s.queue.offered))
        else s.(queue := q)
    case ApplyEvent =>
      if s.drain.Holding? then s.(orders := Apply(s.orders, s.drain.ev), drain := Draining) else s
    case FetchReturn =>
      if s.drain.Drained? then s.(drain := Outside) else s
  }

  function SysRun(s: System, actions: seq<SysAction>): (r: System)
    requires s.queue.buf != []
    ensures |r.queue.buf| == |s.queue.buf|
    decreases |actions|
  {
    if actions == [] then s
    else SysStep(SysRun(s, actions[..|actions| - 1]), actions[|actions| - 1])
  }

  function SysInitial(n: nat, zero: OrderEvent): System {
    System(Initial(n, zero), map[], Outside)
  }

  ghost predicate DrainInv(s: System) {
    var q, n := s.queue, |s.queue.popped|;
    match s.drain
    case Outside => s.orders == Fold(q.popped) && q.cons.CIdle?
    case Draining => s.orders == Fold(q.popped)
    case Holding(ev) => n > 0 && ev == q.popped[n - 1] && s.orders == Fold(q.popped[..n - 1]) && q.cons.CIdle?
    case Drained(result, at, offeredAt) =>
      && s.orders == result == Fold(q.popped) && q.cons.CIdle?
      && at == n <= |q.accepted| && q.popped == q.accepted[..at]
      && offeredAt <= q.offered
      && (|offeredAt| == at ==> q.popped == offeredAt)
  }

  ghost predicate SysInv(s: System) {
    Inv(s.queue) && DrainInv(s)
    && |s.queue.accepted| <= |s.queue.offered|
    && (|s.queue.accepted| == |s.queue.offered| ==> s.queue.accepted == s.queue.offered)
  }

  lemma ProduceKeepsInv(s: System, a: Action<OrderEvent>)
    requires SysInv(s) && ProducerAction(a)
    ensures SysInv(SysStep(s, Produce(a)))
  {
    hide Next, Fold, ProducerInv, ConsumerInv, RingInv;
    ProducerStepKeepsInv(s.queue, a);
    Refinement(s.queue, a);
    var t := Step(s.queue, a);
    assert s.queue.accepted <= t.accepted && s.queue.offered <= t.offered;
  }

  lemma ConsumeKeepsInv(s: System, a: Action<OrderEvent>)
    requires SysInv(s) && !ProducerAction(a)
    ensures SysInv(SysStep(s, Consume(a)))
  {
    hide Next, Fold, ProducerInv;
    ConsumerStepKeepsInv(s.queue, a);
    if s.drain.Draining? {
      FailsExactlyWhen(s.queue);
      var t := Step(s.queue, a);
      assert t.popped != s.queue.popped ==> t.popped[..|t.popped| - 1] == s.queue.popped;
      assert s.queue.accepted[..|s.queue.accepted|] == s.queue.accepted;
    }
  }

  lemma {:induction false} SysRunKeepsInv(n: nat, zero: OrderEvent, actions: seq<SysAction>)
    requires RingSize(n)
    ensures SysInv(SysRun(SysInitial(n, zero), actions))
  {
    hide Next, Inv, Step;
    if actions == [] {
      InitialKeepsInv(n, zero);
    } else {
      var a := actions[|actions| - 1];
      SysRunKeepsInv(n, zero, actions[..|actions| - 1]);
      var s := SysRun(SysInitial(n, zero), actions[..|actions| - 1]);
      match a
      case Produce(p) => if ProducerAction(p) { ProduceKeepsInv(s, p); }
      case Consume(c) => if !ProducerAction(c) { ConsumeKeepsInv(s, c); }
      case ApplyEvent => ApplyKeepsInv(s);
      case FetchStart =>
      case FetchReturn =>
    }
  }

  lemma InitialKeepsInv(n: nat, zero: OrderEvent)
    requires RingSize(n)
    ensures SysInv(SysInitial(n, zero))
  {
    RunKeepsInv(n, zero, []);
  }

  lemma ApplyKeepsInv(s: System)
    requires SysInv(s)
    ensures SysInv(SysStep(s, ApplyEvent))
  {
    if s.drain.Holding? {
      var popped := s.queue.popped;
      assert Fold(popped) == Apply(Fold(popped[..|popped| - 1]), popped[|popped| - 1]);
    }
  }

  /**
   * Whatever is pushed meanwhile, a finished drain returns the fold of all events
   * accepted before its final emptiness check; if no push had failed by then, that
   * is the fold of the full event history.
   */
  lemma DrainIsFold(n: nat, zero: OrderEvent, actions: seq<SysAction>)
    requires RingSize(n)
    ensures var s := SysRun(SysInitial(n, zero), actions);
            s.drain.Drained? ==>
              && s.drain.drainedAt <= |s.queue.accepted|
              && s.drain.result == s.orders == Fold(s.queue.accepted[..s.drain.drainedAt])
              && (|s.drain.offeredAt| == s.drain.drainedAt ==> s.drain.result == Fold(s.drain.offeredAt))
  {
    SysRunKeepsInv(n, zero, actions);
  }

  /** The check that ends a drain is the one that finds every accepted event already applied. */
  lemma DrainEndsAtEmptyQueue(s: System)
    requires SysInv(s) && s.drain.Draining? && s.queue.cons.CLoaded?
    ensures var t := SysStep(s, Consume(PopCheck));
            t.drain.Drained? <==> s.queue.popped == s.queue.accepted
    ensures var t := SysStep(s, Consume(PopCheck));
            t.drain.Drained? ==> t.drain.drainedAt == |s.queue.accepted| && t.drain.offeredAt == s.queue.offered
  {
    hide Next, Fold, ProducerInv;
    FailsExactlyWhen(s.queue);
  }

  lemma {:induction false} NoMoreEvents(items: seq<Item>)
    ensures |EventsOf(items)| <= |items|
  {
    if items != [] {
      NoMoreEvents(items[..|items| - 1]);
    }
  }

  // ----- the connector's two loops ---------------------------------------------

  class OrderFeed {
    const queue: Ring<OrderEvent>
    var consumerOrders: OrderMap

    constructor (queue: Ring<OrderEvent>)
      ensures this.queue == queue && consumerOrders == map[]
    {
      this.queue := queue;
      consumerOrders := map[];
    }

    /** Pushes one event per item that has an id; events that find the ring full are dropped. */
    method OnOrderMsg(items: seq<Item>)
      requires queue.Valid() && queue.prod.PIdle?
      modifies queue, queue.buf
      ensures queue.Valid() && queue.prod.PIdle? && queue.popped == old(queue.popped) && queue.cons == old(queue.cons)
      ensures queue.offered == old(queue.offered) + EventsOf(items)
      ensures var held := Queue(old(queue.View()));
              var room := queue.buf.Length - 1 - |held|;
              Queue(queue.View()) == held + EventsOf(items)[..Smaller(room, |EventsOf(items)|)]
    {
      hide Inv, Step, Queue;
      Indices(queue.View());
      ghost var held := Queue(queue.View());
      ghost var room := queue.buf.Length - 1 - |held|;
      assert items[..0] == [];
      for i := 0 to |items|
        invariant queue.Valid() && queue.prod.PIdle? && queue.popped == old(queue.popped) && queue.cons == old(queue.cons)
        invariant queue.offered == old(queue.offered) + EventsOf(items[..i])
        invariant Queue(queue.View()) == held + EventsOf(items[..i])[..Smaller(room, |EventsOf(items[..i])|)]
      {
        assert items[..i + 1][..i] == items[..i];
        if items[i].id != "" {
          var ok := queue.Push(EventOf(items[i]));
        }
      }
      assert items[..|items|] == items;
    }

    /** Applies queued events until the ring is empty and returns the open orders. */
    method FetchOpenOrders() returns (result: OrderMap)
      requires queue.Valid() && queue.cons.CIdle?
      modifies this, queue, queue.buf
      ensures queue.Valid() && queue.cons.CIdle? && Queue(queue.View()) == []
      ensures queue.accepted == old(queue.accepted)
      ensures result == consumerOrders == FoldFrom(old(consumerOrders), Queue(old(queue.View())))
    {
      hide Inv, Step, Queue;
      ghost var events := Queue(queue.View());
      ghost var done: seq<OrderEvent> := [];
      var ev := OrderEvent(OPEN, Blank(""));
      var ok;
      ok, ev := queue.Pop(ev);
      while ok
        invariant queue.Valid() && queue.cons.CIdle? && queue.accepted == old(queue.accepted)
        invariant events == done + (if ok then [ev] else []) + Queue(queue.View())
        invariant !ok ==> Queue(queue.View()) == []
        invariant consumerOrders == FoldFrom(old(consumerOrders), done)
        decreases ok, |Queue(queue.View())|
      {
        FoldFromAppend(old(consumerOrders), done, [ev]);
        assert FoldFrom(FoldFrom(old(consumerOrders), done), [ev])
            == Apply(FoldFrom(old(consumerOrders), done), ev);
        done := done + [ev];
        match ev.kind {
          case OPEN => consumerOrders := consumerOrders[ev.order.id := ev.order];
          case FILL => consumerOrders := consumerOrders - {ev.order.id};
          case CANCEL => consumerOrders := consumerOrders - {ev.order.id};
        }
        ok, ev := queue.Pop(ev);
      }
      assert done == events;
      result := consumerOrders;
    }

    /**
     * A push that meets an empty queue with enough room, and the fetch after it: an id is open
     * exactly when the last item with it says so, with that item's order; all others stay as they were.
     */
    method PushThenFetch(items: seq<Item>) returns (result: OrderMap)
      requires queue.Valid() && queue.prod.PIdle? && queue.cons.CIdle?
      requires Queue(queue.View()) == [] && |items| < queue.buf.Length && Consistent(items)
      modifies this, queue, queue.buf
      ensures queue.Valid() && queue.cons.CIdle? && Queue(queue.View()) == [] && result == consumerOrders
      ensures forall id :: Decides(old(consumerOrders), items, result, id)
    {
      hide Inv, Step, Queue, EventOf, Decides;
      ghost var before := consumerOrders;
      NoMoreEvents(items);
      OnOrderMsg(items);
      assert Queue(queue.View()) == EventsOf(items);
      result := FetchOpenOrders();
      forall id ensures Decides(before, items, result, id) {
        LastItemDecides(before, items, id);
      }
    }
  }
}
