/** The order manager in dry-run mode: its loops over the open orders, proved against OrderGrid. */
module OrderManager {
  import opened Filters
  import opened OrderGrid
  import opened Orders

  function OtherThan(ids: seq<nat>): Order -> bool {
    (o: Order) => o.id !in ids
  }

  /** Every open order has its creation time recorded, and identifiers are unique and used up. */
  predicate Tracks(orders: seq<Order>, createdAt: map<nat, real>, nextId: nat) {
    && (forall o :: o in orders ==> o.id < nextId && o.id in createdAt && createdAt[o.id] == o.timestamp)
    && Pairwise(orders, DifferentIds)
  }

  lemma CancelKeepsTracks(orders: seq<Order>, createdAt: map<nat, real>, nextId: nat, id: nat)
    requires Tracks(orders, createdAt, nextId)
    ensures Tracks(Filter(orders, OtherThan([id])), createdAt - {id}, nextId)
  {
    FilterMembers(orders, OtherThan([id]));
    FilterPairwise(orders, OtherThan([id]), DifferentIds);
    forall o | o in Filter(orders, OtherThan([id])) ensures o in orders && o.id != id {
      assert OtherThan([id])(o) && id in [id];
    }
  }

  method HasOrderNear(target: real, prices: seq<real>) returns (found: bool)
    ensures found <==> exists i :: 0 <= i < |prices| && Near(prices[i], target)
  {
    for i := 0 to |prices|
      invariant forall j :: 0 <= j < i ==> !Near(prices[j], target)
    {
      if Near(prices[i], target) {
        return true;
      }
    }
    return false;
  }

  class OrderManager {
    /** In insertion order, as a Python dictionary lists it. */
    var openOrders: seq<Order>
    var createdAt: map<nat, real>
    /** Fresh identifiers are assumed. */
    var nextId: nat
    const maxAge: real

    ghost predicate Valid()
      reads this
    {
      Tracks(openOrders, createdAt, nextId)
    }

    ghost function View(): Book
      reads this
    {
      Book(openOrders, nextId)
    }

    constructor (maxOrderAge: real)
      ensures Valid() && View() == Book([], 0) && maxAge == maxOrderAge
    {
      openOrders, createdAt, nextId, maxAge := [], map[], 0, maxOrderAge;
    }

    method CancelOne(id: nat)
      requires Valid()
      modifies `openOrders, `createdAt
      ensures Valid() && openOrders == Filter(old(openOrders), OtherThan([id]))
    {
      var rest: seq<Order> := [];
      for i := 0 to |openOrders|
        invariant openOrders == old(openOrders) && createdAt == old(createdAt)
        invariant rest == Filter(openOrders[..i], OtherThan([id]))
      {
        FilterSnoc(openOrders[..i], openOrders[i], OtherThan([id]));
        assert openOrders[..i + 1] == openOrders[..i] + [openOrders[i]];
        if openOrders[i].id != id {
          rest := rest + [openOrders[i]];
        }
      }
      assert openOrders[..|openOrders|] == openOrders;
      CancelKeepsTracks(openOrders, createdAt, nextId, id);
      openOrders := rest;
      createdAt := createdAt - {id};
    }

    /** Cancelling one after the other removes exactly the listed orders. */
    method CancelMany(ids: seq<nat>)
      requires Valid()
      modifies `openOrders, `createdAt
      ensures Valid() && openOrders == Filter(old(openOrders), OtherThan(ids))
    {
      FilterAll(openOrders, OtherThan([]));
      for i := 0 to |ids|
        invariant Valid()
        invariant openOrders == Filter(old(openOrders), OtherThan(ids[..i]))
      {
        assert ids[..i + 1] == ids[..i] + [ids[i]];
        FilterTwice(old(openOrders), OtherThan(ids[..i]), OtherThan([ids[i]]), OtherThan(ids[..i + 1]));
        CancelOne(ids[i]);
      }
      assert ids[..|ids|] == ids;
    }

    method CancelStaleByAge(now: real)
      requires Valid()
      modifies `openOrders, `createdAt
      ensures Valid() && openOrders == Young(old(openOrders), now, maxAge)
    {
      if maxAge <= 0.0 {
        FilterAll(openOrders, IsYoung(now, maxAge));
        return;
      }
      var staleIds: seq<nat> := [];
      for i := 0 to |openOrders|
        invariant openOrders == old(openOrders) && createdAt == old(createdAt)
        invariant Listed(openOrders[..i], IsYoung(now, maxAge), staleIds)
      {
        var o := openOrders[i];
        assert o in openOrders && openOrders[..i + 1] == openOrders[..i] + [o];
        ListedSnoc(openOrders[..i], o, IsYoung(now, maxAge), staleIds);
        if o.id in createdAt && now - createdAt[o.id] > maxAge {
          staleIds := staleIds + [o.id];
        }
      }
      assert openOrders[..|openOrders|] == openOrders;
      ListedAreFilteredOut(openOrders, IsYoung(now, maxAge), staleIds);
      CancelMany(staleIds);
    }

    /** The identifiers of the open orders that match no desired price. */
    method FindStaleOrders(desired: seq<real>) returns (stale: seq<nat>)
      requires Valid()
      ensures Listed(openOrders, IsWanted(desired), stale)
    {
      stale := [];
      for i := 0 to |openOrders|
        invariant Listed(openOrders[..i], IsWanted(desired), stale)
      {
        var o := openOrders[i];
        assert openOrders[..i + 1] == openOrders[..i] + [o];
        ListedSnoc(openOrders[..i], o, IsWanted(desired), stale);
        var matched := false;
        for j := 0 to |desired|
          invariant matched <==> exists k :: 0 <= k < j && Near(o.price, desired[k])
        {
          if Near(o.price, desired[j]) {
            matched := true;
          }
        }
        if !matched {
          stale := stale + [o.id];
        }
      }
      assert openOrders[..|openOrders|] == openOrders;
    }

    method FindMissing(levels: seq<Level>) returns (missing: seq<Level>)
      ensures missing == Filter(levels, IsMissing(openOrders))
    {
      var prices := seq(|openOrders|, i requires 0 <= i < |openOrders| reads this => openOrders[i].price);
      missing := [];
      for i := 0 to |levels|
        invariant missing == Filter(levels[..i], IsMissing(openOrders))
      {
        assert levels[..i + 1] == levels[..i] + [levels[i]];
        FilterSnoc(levels[..i], levels[i], IsMissing(openOrders));
        var found := HasOrderNear(levels[i].price, prices);
        SameCover(levels[i].price, openOrders, prices);
        if !found {
          missing := missing + [levels[i]];
        }
      }
      assert levels[..|levels|] == levels;
    }

    method FindMissingLevels(g: Grid) returns (missing: seq<Level>)
      ensures missing == Filter(Levels(g), IsMissing(openOrders))
      ensures forall l :: l in missing <==>
                GridAsks(g, l.side, l.price, l.amount) && !Covered(l.price, openOrders)
    {
      hide Levels, GridAsks, Covered;
      missing := FindMissing(Levels(g));
      FilterMembers(Levels(g), IsMissing(openOrders));
      forall l ensures l in Levels(g) <==> GridAsks(g, l.side, l.price, l.amount) {
        LevelsAsk(g, l);
      }
    }

    method PlaceOne(l: Level, now: real) returns (order: seq<Order>)
      requires Valid()
      modifies `openOrders, `createdAt, `nextId
      ensures Valid()
      ensures order == if Placeable(l) then [OrderAt(l, old(nextId), now)] else []
      ensures openOrders == old(openOrders) + order && nextId == old(nextId) + |order|
    {
      if l.amount <= 0.0 || l.price <= 0.0 {
        return [];
      }
      var o := Order(nextId, l.side, l.price, l.amount, now);
      PairwiseJoin(openOrders, [o], DifferentIds);
      openOrders := openOrders + [o];
      createdAt := createdAt[o.id := now];
      nextId := nextId + 1;
      return [o];
    }

    method DiffAndRepost(g: Grid, now: real) returns (placed: seq<Order>)
      requires Valid()
      modifies `openOrders, `createdAt, `nextId
      ensures Valid()
      ensures View() == Step(old(View()), Action.DiffAndRepost(g, now), maxAge)
      ensures placed == Added(old(View()), g, now, maxAge)
      ensures forall side, price, amount ::
                HasOrder(placed, old(nextId), side, price, amount)
                <==> IsNew(old(View()), g, now, maxAge, side, price, amount)
    {
      hide Filter, Near, Levels, Pairwise, Listed, Placeable, HasOrder, IsNew, GridAsks, Covered;
      ghost var b := View();
      CancelStaleByAge(now);
      var young := openOrders;
      var toCancel := FindStaleOrders(g.buyPrices + g.sellPrices);
      var toPlace := FindMissingLevels(g);
      ListedAreFilteredOut(young, IsWanted(Desired(g)), toCancel);
      CancelMany(toCancel);
      ghost var kept := openOrders;
      assert kept == Kept(b, g, now, maxAge);
      placed := PlaceAll(toPlace, now);
      forall side, price, amount
        ensures HasOrder(placed, b.nextId, side, price, amount) <==> IsNew(b, g, now, maxAge, side, price, amount)
      {
        NewOrdersAreThePairs(b, g, now, maxAge, side, price, amount);
      }
    }

    /** The levels that can be placed, in order, with fresh ids. */
    method PlaceAll(levels: seq<Level>, now: real) returns (placed: seq<Order>)
      requires Valid()
      modifies `openOrders, `createdAt, `nextId
      ensures Valid()
      ensures placed == Placed(Filter(levels, Placeable), old(nextId), now)
      ensures openOrders == old(openOrders) + placed && nextId == old(nextId) + |placed|
    {
      hide Filter, Placeable;
      placed := [];
      NothingPlaced(levels, nextId, now);
      for i := 0 to |levels|
        invariant Valid()
        invariant placed == Placed(Filter(levels[..i], Placeable), old(nextId), now)
        invariant openOrders == old(openOrders) + placed && nextId == old(nextId) + |placed|
      {
        assert levels[..i + 1] == levels[..i] + [levels[i]];
        FilterSnoc(levels[..i], levels[i], Placeable);
        PlacedSnoc(Filter(levels[..i], Placeable), levels[i], old(nextId), now);
        var order := PlaceOne(levels[i], now);
        placed := placed + order;
      }
      assert levels[..|levels|] == levels;
    }

    method CancelAll()
      modifies `openOrders, `createdAt
      ensures Valid() && View() == Step(old(View()), Action.CancelAll, maxAge)
    {
      openOrders, createdAt := [], map[];
    }
  }

  lemma SameCover(price: real, orders: seq<Order>, prices: seq<real>)
    requires |prices| == |orders| && forall i :: 0 <= i < |orders| ==> prices[i] == orders[i].price
    ensures Covered(price, orders) <==> exists i :: 0 <= i < |prices| && Near(prices[i], price)
  {
    hide Near;
    if i :| 0 <= i < |prices| && Near(prices[i], price) {
      assert Near(orders[i].price, price);
    }
  }

  /** ids names exactly the orders that fail the test. */
  ghost predicate Listed(orders: seq<Order>, keep: Order -> bool, ids: seq<nat>) {
    && (forall o :: o in orders && !keep(o) ==> o.id in ids)
    && (forall id :: id in ids ==> exists o :: o in orders && o.id == id && !keep(o))
  }

  lemma ListedSnoc(orders: seq<Order>, o: Order, keep: Order -> bool, ids: seq<nat>)
    requires Listed(orders, keep, ids)
    ensures Listed(orders + [o], keep, if keep(o) then ids else ids + [o.id])
  {
    var ids' := if keep(o) then ids else ids + [o.id];
    forall id | id in ids' ensures exists x :: x in orders + [o] && x.id == id && !keep(x) {
      if id in ids {
        var x :| x in orders && x.id == id && !keep(x);
        assert x in orders + [o];
      } else {
        assert o in orders + [o];
      }
    }
  }

  lemma OneOrderPerId(orders: seq<Order>, o: Order, x: Order)
    requires Pairwise(orders, DifferentIds) && o in orders && x in orders
    ensures o.id == x.id ==> o == x
  {
    var i :| 0 <= i < |orders| && orders[i] == o;
    var j :| 0 <= j < |orders| && orders[j] == x;
    assert i < j ==> DifferentIds(orders[i], orders[j]);
    assert j < i ==> DifferentIds(orders[j], orders[i]);
  }

  lemma ListedAreFilteredOut(orders: seq<Order>, keep: Order -> bool, ids: seq<nat>)
    requires Pairwise(orders, DifferentIds) && Listed(orders, keep, ids)
    ensures Filter(orders, OtherThan(ids)) == Filter(orders, keep)
  {
    forall o | o in orders ensures OtherThan(ids)(o) == keep(o) {
      if o.id in ids {
        var x :| x in orders && x.id == o.id && !keep(x);
        OneOrderPerId(orders, o, x);
      }
    }
    FilterSame(orders, OtherThan(ids), keep);
  }

  lemma NothingPlaced(levels: seq<Level>, nextId: nat, now: real)
    ensures Placed(Filter(levels[..0], Placeable), nextId, now) == []
  {
  }

  lemma PlacedSnoc(levels: seq<Level>, l: Level, nextId: nat, now: real)
    ensures Placed(levels + [], nextId, now) == Placed(levels, nextId, now)
    ensures Placed(levels + [l], nextId, now)
         == Placed(levels, nextId, now) + [OrderAt(l, nextId + |levels|, now)]
  {
    assert levels + [] == levels;
  }
}
