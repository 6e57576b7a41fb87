/** Diff-and-repost on values: one call as a function of the open orders, and what every run of calls keeps. */
module OrderGrid {
  import opened Filters
  import opened Orders
  import opened Reals

  datatype Level = Level(side: Side, price: real, amount: real)
  datatype Grid = Grid(buyPrices: seq<real>, buyAmounts: seq<real>, sellPrices: seq<real>, sellAmounts: seq<real>)

  const TOLERANCE_PCT: real := 0.03
  const SMALLEST: real := 0.00000001

  /** The tolerance test of every comparison. */
  predicate Near(price: real, desired: real) {
    Abs(price - desired) / Max(desired, SMALLEST) * 100.0 <= TOLERANCE_PCT
  }

  lemma NearIsLinear(price: real, desired: real)
    ensures Near(price, desired) <==> Abs(price - desired) <= 0.0003 * Max(desired, SMALLEST)
  {
    var m := Max(desired, SMALLEST);
    var q := Abs(price - desired) / m;
    assert q * m == Abs(price - desired);
    ScaleOrder(q, 0.0003, m);
  }

  lemma ScaleOrder(x: real, y: real, m: real)
    requires m > 0.0
    ensures x <= y <==> x * m <= y * m
  {
    assert (y - x) * m == y * m - x * m;
    if x <= y {
      assert (y - x) * m >= 0.0;
    } else {
      assert (x - y) * m > 0.0;
    }
  }

  predicate Matches(o: Order, desired: seq<real>) {
    exists i :: 0 <= i < |desired| && Near(o.price, desired[i])
  }

  predicate Covered(price: real, orders: seq<Order>) {
    exists i :: 0 <= i < |orders| && Near(orders[i].price, price)
  }

  function Desired(g: Grid): seq<real> {
    g.buyPrices + g.sellPrices
  }

  /** zip stops at the shorter list. */
  function Zip(side: Side, prices: seq<real>, amounts: seq<real>): (r: seq<Level>)
    ensures |r| == (if |prices| < |amounts| then |prices| else |amounts|)
    ensures forall i :: 0 <= i < |r| ==> r[i] == Level(side, prices[i], amounts[i])
  {
    var n := if |prices| < |amounts| then |prices| else |amounts|;
    seq(n, i requires 0 <= i < n => Level(side, prices[i], amounts[i]))
  }

  function Levels(g: Grid): seq<Level> {
    Zip(Buy, g.buyPrices, g.buyAmounts) + Zip(Sell, g.sellPrices, g.sellAmounts)
  }

  // ----- one call ---------------------------------------------------------------

  /** Open longer than the maximum age; no order ages when the maximum is not positive. */
  predicate Aged(o: Order, now: real, maxAge: real) {
    maxAge > 0.0 && now - o.timestamp > maxAge
  }

  function IsYoung(now: real, maxAge: real): Order -> bool {
    (o: Order) => !Aged(o, now, maxAge)
  }

  function IsWanted(desired: seq<real>): Order -> bool {
    (o: Order) => Matches(o, desired)
  }

  function IsMissing(orders: seq<Order>): Level -> bool {
    (l: Level) => !Covered(l.price, orders)
  }

  predicate Placeable(l: Level) {
    l.amount > 0.0 && l.price > 0.0
  }

  function Placed(levels: seq<Level>, nextId: nat, now: real): (r: seq<Order>)
    ensures |r| == |levels|
    ensures forall i :: 0 <= i < |r| ==> r[i] == OrderAt(levels[i], nextId + i, now)
  {
    seq(|levels|, i requires 0 <= i < |levels| => OrderAt(levels[i], nextId + i, now))
  }

  function OrderAt(l: Level, id: nat, now: real): Order {
    Order(id, l.side, l.price, l.amount, now)
  }

  /** The open orders in insertion order, and the next fresh id. */
  datatype Book = Book(orders: seq<Order>, nextId: nat)

  function Young(orders: seq<Order>, now: real, maxAge: real): seq<Order> {
    Filter(orders, IsYoung(now, maxAge))
  }

  function Kept(b: Book, g: Grid, now: real, maxAge: real): seq<Order> {
    Filter(Young(b.orders, now, maxAge), IsWanted(Desired(g)))
  }

  /** Missing levels are computed before anything is cancelled. */
  function Wanted(b: Book, g: Grid, now: real, maxAge: real): seq<Level> {
    Filter(Filter(Levels(g), IsMissing(Young(b.orders, now, maxAge))), Placeable)
  }

  function Added(b: Book, g: Grid, now: real, maxAge: real): seq<Order> {
    Placed(Wanted(b, g, now, maxAge), b.nextId, now)
  }

  function Repost(b: Book, g: Grid, now: real, maxAge: real): Book {
    Book(Kept(b, g, now, maxAge) + Added(b, g, now, maxAge), b.nextId + |Added(b, g, now, maxAge)|)
  }

  datatype Action = DiffAndRepost(grid: Grid, now: real) | CancelAll

  function Step(b: Book, a: Action, maxAge: real): Book {
    match a
    case DiffAndRepost(grid, now) => Repost(b, grid, now, maxAge)
    case CancelAll => Book([], b.nextId)
  }

  function Run(actions: seq<Action>, maxAge: real): Book {
    if actions == [] then Book([], 0)
    else Step(Run(actions[..|actions| - 1], maxAge), actions[|actions| - 1], maxAge)
  }

  // ----- what a call achieves ---------------------------------------------------

  lemma NearItself(d: real)
    ensures Near(d, d)
  {
    NearIsLinear(d, d);
  }

  lemma AddedAt(b: Book, g: Grid, now: real, maxAge: real)
    ensures forall o :: o in Added(b, g, now, maxAge) ==>
      exists l :: l in Levels(g) && Placeable(l) && o.price == l.price
                  && !Covered(l.price, Young(b.orders, now, maxAge))
    ensures forall l :: l in Levels(g) && Placeable(l) && !Covered(l.price, Young(b.orders, now, maxAge)) ==>
      exists i :: 0 <= i < |Added(b, g, now, maxAge)| && Added(b, g, now, maxAge)[i].price == l.price
  {
    var young := Young(b.orders, now, maxAge);
    FilterMembers(Levels(g), IsMissing(young));
    FilterMembers(Filter(Levels(g), IsMissing(young)), Placeable);
    var wanted := Wanted(b, g, now, maxAge);
    forall o | o in Added(b, g, now, maxAge)
      ensures exists l :: l in Levels(g) && Placeable(l) && o.price == l.price && !Covered(l.price, young)
    {
      var i :| 0 <= i < |wanted| && o == Added(b, g, now, maxAge)[i];
      assert wanted[i] in wanted;
    }
    forall l | l in Levels(g) && Placeable(l) && !Covered(l.price, young)
      ensures exists i :: 0 <= i < |wanted| && Added(b, g, now, maxAge)[i].price == l.price
    {
      assert l in wanted;
      var i :| 0 <= i < |wanted| && wanted[i] == l;
      assert Added(b, g, now, maxAge)[i].price == l.price;
    }
  }

  lemma LevelIsDesired(g: Grid, l: Level)
    requires l in Levels(g)
    ensures exists i :: 0 <= i < |Desired(g)| && Desired(g)[i] == l.price
  {
    var i :| 0 <= i < |Levels(g)| && Levels(g)[i] == l;
    var n := |Zip(Buy, g.buyPrices, g.buyAmounts)|;
    if i < n {
      assert Desired(g)[i] == l.price;
    } else {
      assert Desired(g)[|g.buyPrices| + (i - n)] == l.price;
    }
  }

  /** An order that covers a level of the grid is never stale. */
  lemma CoveringOrderIsKept(b: Book, g: Grid, now: real, maxAge: real, l: Level)
    requires l in Levels(g) && Covered(l.price, Young(b.orders, now, maxAge))
    ensures Covered(l.price, Kept(b, g, now, maxAge))
  {
    var young := Young(b.orders, now, maxAge);
    var i :| 0 <= i < |young| && Near(young[i].price, l.price);
    LevelIsDesired(g, l);
    assert Matches(young[i], Desired(g));
    FilterMembers(young, IsWanted(Desired(g)));
    assert young[i] in Kept(b, g, now, maxAge);
    var j :| 0 <= j < |Kept(b, g, now, maxAge)| && Kept(b, g, now, maxAge)[j] == young[i];
  }

  lemma OpenOrdersMatch(b: Book, g: Grid, now: real, maxAge: real)
    ensures forall o :: o in Repost(b, g, now, maxAge).orders ==> Matches(o, Desired(g))
  {
    hide Near, Covered, Levels, Wanted;
    var kept, added := Kept(b, g, now, maxAge), Added(b, g, now, maxAge);
    AddedAt(b, g, now, maxAge);
    FilterMembers(Young(b.orders, now, maxAge), IsWanted(Desired(g)));
    forall o | o in kept + added ensures Matches(o, Desired(g)) {
      if o in added {
        var l :| l in Levels(g) && o.price == l.price;
        LevelIsDesired(g, l);
        NearItself(l.price);
      }
    }
  }

  lemma LevelIsCovered(b: Book, g: Grid, now: real, maxAge: real, l: Level)
    requires l in Levels(g) && Placeable(l)
    ensures Covered(l.price, Repost(b, g, now, maxAge).orders)
  {
    hide Near, Levels, Wanted, Placeable;
    var kept, added := Kept(b, g, now, maxAge), Added(b, g, now, maxAge);
    if Covered(l.price, Young(b.orders, now, maxAge)) {
      CoveringOrderIsKept(b, g, now, maxAge, l);
      var i :| 0 <= i < |kept| && Near(kept[i].price, l.price);
      assert (kept + added)[i] == kept[i];
    } else {
      AddedAt(b, g, now, maxAge);
      var i :| 0 <= i < |added| && added[i].price == l.price;
      NearItself(l.price);
      assert (kept + added)[|kept| + i] == added[i];
    }
  }

  /**
   * After any call every open order is within tolerance of a desired price, and every
   * level that can be placed has an open order within tolerance.
   */
  lemma RepostCoversTheGrid(b: Book, g: Grid, now: real, maxAge: real)
    ensures var after := Repost(b, g, now, maxAge).orders;
            && (forall o :: o in after ==> Matches(o, Desired(g)))
            && (forall l :: l in Levels(g) && Placeable(l) ==> Covered(l.price, after))
  {
    hide Repost, Matches, Covered, Levels, Placeable;
    OpenOrdersMatch(b, g, now, maxAge);
    forall l | l in Levels(g) && Placeable(l) ensures Covered(l.price, Repost(b, g, now, maxAge).orders) {
      LevelIsCovered(b, g, now, maxAge, l);
    }
  }

  predicate NearSome(price: real, prices: seq<real>) {
    exists i :: 0 <= i < |prices| && Near(price, prices[i])
  }

  lemma MatchesASide(o: Order, g: Grid)
    ensures Matches(o, Desired(g)) <==> NearSome(o.price, g.buyPrices) || NearSome(o.price, g.sellPrices)
  {
    hide Near;
    var n := |g.buyPrices|;
    if Matches(o, Desired(g)) {
      var i :| 0 <= i < |Desired(g)| && Near(o.price, Desired(g)[i]);
      assert if i < n then Near(o.price, g.buyPrices[i]) else Near(o.price, g.sellPrices[i - n]);
    }
    if i :| 0 <= i < n && Near(o.price, g.buyPrices[i]) {
      assert Desired(g)[i] == g.buyPrices[i];
    }
    if i :| 0 <= i < |g.sellPrices| && Near(o.price, g.sellPrices[i]) {
      assert Desired(g)[n + i] == g.sellPrices[i];
    }
  }

  /**
   * The orders that survive a call are exactly those not open for longer than the maximum age,
   * if there is one, that are near a price of the grid; they are unchanged. All others are
   * new ones, stamped now.
   */
  lemma WhatSurvives(b: Book, g: Grid, now: real, maxAge: real, o: Order)
    requires forall x :: x in b.orders ==> x.id < b.nextId
    ensures var after := Repost(b, g, now, maxAge).orders;
            && (o.id < b.nextId ==>
                  (o in after <==>
                     && o in b.orders
                     && (maxAge <= 0.0 || now - o.timestamp <= maxAge)
                     && (NearSome(o.price, g.buyPrices) || NearSome(o.price, g.sellPrices))))
            && (o in after && o.id >= b.nextId ==> o.timestamp == now)
  {
    hide Near, Matches, Levels, Desired, Covered, NearSome;
    var kept, added := Kept(b, g, now, maxAge), Added(b, g, now, maxAge);
    var young := Young(b.orders, now, maxAge);
    FilterMembers(b.orders, IsYoung(now, maxAge));
    FilterMembers(young, IsWanted(Desired(g)));
    MatchesASide(o, g);
    if o in added {
      var i :| 0 <= i < |added| && added[i] == o;
    }
  }

  /** One side of the grid asks for this much at this price. */
  predicate Asks(prices: seq<real>, amounts: seq<real>, price: real, amount: real) {
    exists i :: 0 <= i < |prices| && i < |amounts| && prices[i] == price && amounts[i] == amount
  }

  /** The side of the grid that orders of that side come from. */
  predicate GridAsks(g: Grid, side: Side, price: real, amount: real) {
    match side
    case Buy => Asks(g.buyPrices, g.buyAmounts, price, amount)
    case Sell => Asks(g.sellPrices, g.sellAmounts, price, amount)
  }

  lemma ZipAsks(side: Side, prices: seq<real>, amounts: seq<real>, l: Level)
    ensures l in Zip(side, prices, amounts) <==> l.side == side && Asks(prices, amounts, l.price, l.amount)
  {
    var z := Zip(side, prices, amounts);
    if l.side == side && Asks(prices, amounts, l.price, l.amount) {
      var i :| 0 <= i < |prices| && i < |amounts| && prices[i] == l.price && amounts[i] == l.amount;
      assert z[i] == l;
    }
  }

  lemma LevelsAsk(g: Grid, l: Level)
    ensures l in Levels(g) <==> GridAsks(g, l.side, l.price, l.amount)
  {
    hide Zip, Asks;
    ZipAsks(Buy, g.buyPrices, g.buyAmounts, l);
    ZipAsks(Sell, g.sellPrices, g.sellAmounts, l);
  }

  /** Some order open at the time and not too old is within tolerance of the price. */
  predicate HeldNear(b: Book, now: real, maxAge: real, price: real) {
    exists o :: o in b.orders && (maxAge <= 0.0 || now - o.timestamp <= maxAge) && Near(o.price, price)
  }

  lemma HeldIsCovered(b: Book, now: real, maxAge: real, price: real)
    ensures HeldNear(b, now, maxAge, price) <==> Covered(price, Young(b.orders, now, maxAge))
  {
    hide Near, Filter;
    var young := Young(b.orders, now, maxAge);
    FilterMembers(b.orders, IsYoung(now, maxAge));
    if i :| 0 <= i < |young| && Near(young[i].price, price) {
      assert young[i] in young;
    }
    if o :| o in b.orders && (maxAge <= 0.0 || now - o.timestamp <= maxAge) && Near(o.price, price) {
      assert o in young;
      var i :| 0 <= i < |young| && young[i] == o;
    }
  }

  /** An order placed by a call: on its side, price and amount of one pair of the grid that nothing held is near. */
  predicate IsNew(b: Book, g: Grid, now: real, maxAge: real, side: Side, price: real, amount: real) {
    price > 0.0 && amount > 0.0 && GridAsks(g, side, price, amount) && !HeldNear(b, now, maxAge, price)
  }

  predicate HasOrder(orders: seq<Order>, nextId: nat, side: Side, price: real, amount: real) {
    exists o :: o in orders && o.id >= nextId && o.side == side && o.price == price && o.amount == amount
  }

  lemma PlacedHas(levels: seq<Level>, nextId: nat, now: real, l: Level)
    ensures HasOrder(Placed(levels, nextId, now), nextId, l.side, l.price, l.amount) <==> l in levels
  {
    var placed := Placed(levels, nextId, now);
    if o :| o in placed && o.id >= nextId && o.side == l.side && o.price == l.price && o.amount == l.amount {
      var i :| 0 <= i < |placed| && placed[i] == o;
      assert levels[i] == l;
    }
    if l in levels {
      var i :| 0 <= i < |levels| && levels[i] == l;
      assert placed[i] in placed;
    }
  }

  /**
   * The orders a call places are exactly the pairs of the grid, buys from the buy lists and
   * sells from the sell lists, with positive price and amount, that no order held is near.
   */
  lemma NewOrdersAreThePairs(b: Book, g: Grid, now: real, maxAge: real, side: Side, price: real, amount: real)
    requires forall x :: x in b.orders ==> x.id < b.nextId
    ensures HasOrder(Repost(b, g, now, maxAge).orders, b.nextId, side, price, amount)
       <==> IsNew(b, g, now, maxAge, side, price, amount)
    ensures HasOrder(Added(b, g, now, maxAge), b.nextId, side, price, amount)
       <==> IsNew(b, g, now, maxAge, side, price, amount)
  {
    hide Near, Levels, Filter, Covered, HeldNear, Desired, Matches, GridAsks;
    var young := Young(b.orders, now, maxAge);
    var l := Level(side, price, amount);
    FilterMembers(b.orders, IsYoung(now, maxAge));
    FilterMembers(young, IsWanted(Desired(g)));
    FilterMembers(Levels(g), IsMissing(young));
    FilterMembers(Filter(Levels(g), IsMissing(young)), Placeable);
    LevelsAsk(g, l);
    HeldIsCovered(b, now, maxAge, price);
    PlacedHas(Wanted(b, g, now, maxAge), b.nextId, now, l);
    var kept, added := Kept(b, g, now, maxAge), Added(b, g, now, maxAge);
    assert forall o :: o in kept ==> o.id < b.nextId;
    assert forall o :: o in kept + added <==> o in kept || o in added;
  }

  /** No id is ever used twice: what a call leaves open was open before, or has one of the ids the call took. */
  lemma IdsAreNew(b: Book, a: Action, maxAge: real)
    ensures var after := Step(b, a, maxAge);
            && after.nextId >= b.nextId
            && forall o :: o in after.orders ==> o in b.orders || b.nextId <= o.id < after.nextId
  {
    hide Near, Levels, Covered, Matches;
    if a.DiffAndRepost? {
      var young := Young(b.orders, a.now, maxAge);
      FilterMembers(b.orders, IsYoung(a.now, maxAge));
      FilterMembers(young, IsWanted(Desired(a.grid)));
    }
  }

  /** Repeating the same grid while nothing ages out changes nothing at all. */
  lemma RepeatIsIdle(b: Book, g: Grid, now: real, later: real, maxAge: real)
    requires var after := Repost(b, g, now, maxAge);
             forall o :: o in after.orders ==> !Aged(o, later, maxAge)
    ensures var after := Repost(b, g, now, maxAge);
            && Repost(after, g, later, maxAge) == after
            && Added(after, g, later, maxAge) == []
  {
    var after := Repost(b, g, now, maxAge);
    RepostCoversTheGrid(b, g, now, maxAge);
    FilterAll(after.orders, IsYoung(later, maxAge));
    FilterAll(after.orders, IsWanted(Desired(g)));
    FilterMembers(Levels(g), IsMissing(after.orders));
    FilterNone(Filter(Levels(g), IsMissing(after.orders)), Placeable);
    assert after.orders + [] == after.orders;
  }

  // ----- what every run keeps ----------------------------------------------------

  /** More than the tolerance apart, measured from the lower price. */
  predicate Apart(x: real, y: real) {
    Abs(x - y) > 0.0003 * Min(x, y)
  }

  predicate OrdersApart(a: Order, b: Order) {
    Apart(a.price, b.price)
  }

  predicate LevelsApart(a: Level, b: Level) {
    Apart(a.price, b.price)
  }

  predicate PricesOk(prices: seq<real>) {
    (forall i :: 0 <= i < |prices| ==> prices[i] >= SMALLEST) && Pairwise(prices, Apart)
  }

  predicate BookOk(b: Book) {
    && (forall o :: o in b.orders ==> o.price >= SMALLEST && o.id < b.nextId)
    && Pairwise(b.orders, OrdersApart)
    && Pairwise(b.orders, DifferentIds)
  }

  predicate DifferentIds(a: Order, b: Order) {
    a.id != b.id
  }

  predicate GridsOk(actions: seq<Action>) {
    forall i :: 0 <= i < |actions| && actions[i].DiffAndRepost? ==> PricesOk(Desired(actions[i].grid))
  }

  lemma LevelsAreApart(g: Grid)
    requires PricesOk(Desired(g))
    ensures Pairwise(Levels(g), LevelsApart)
  {
    var levels, desired := Levels(g), Desired(g);
    var n := |Zip(Buy, g.buyPrices, g.buyAmounts)|;
    forall i, j | 0 <= i < j < |levels| ensures LevelsApart(levels[i], levels[j]) {
      var p := if i < n then i else |g.buyPrices| + (i - n);
      var q := if j < n then j else |g.buyPrices| + (j - n);
      assert levels[i].price == desired[p] && levels[j].price == desired[q] && p < q;
    }
  }

  /** A level with no order near it is apart from every order. */
  lemma UncoveredIsApart(price: real, level: real)
    requires price >= SMALLEST && level >= SMALLEST && !Near(price, level)
    ensures Apart(price, level)
  {
    NearIsLinear(price, level);
  }

  lemma AddedAreApart(b: Book, g: Grid, now: real, maxAge: real)
    requires PricesOk(Desired(g))
    ensures Pairwise(Added(b, g, now, maxAge), OrdersApart)
  {
    var added, wanted := Added(b, g, now, maxAge), Wanted(b, g, now, maxAge);
    var young := Young(b.orders, now, maxAge);
    LevelsAreApart(g);
    hide PricesOk, Filter, Apart;
    FilterPairwise(Levels(g), IsMissing(young), LevelsApart);
    FilterPairwise(Filter(Levels(g), IsMissing(young)), Placeable, LevelsApart);
    forall i, j | 0 <= i < j < |added| ensures OrdersApart(added[i], added[j]) {
      assert LevelsApart(wanted[i], wanted[j]);
    }
  }

  lemma AddedAreUncovered(b: Book, g: Grid, now: real, maxAge: real)
    requires PricesOk(Desired(g))
    ensures forall o :: o in Added(b, g, now, maxAge) ==>
              o.price >= SMALLEST && !Covered(o.price, Young(b.orders, now, maxAge))
  {
    hide Covered, Young, Added;
    AddedAt(b, g, now, maxAge);
    forall o | o in Added(b, g, now, maxAge)
      ensures o.price >= SMALLEST && !Covered(o.price, Young(b.orders, now, maxAge))
    {
      var l :| l in Levels(g) && o.price == l.price && !Covered(l.price, Young(b.orders, now, maxAge));
      LevelIsDesired(g, l);
    }
  }

  lemma AddedAreApartFromKept(b: Book, g: Grid, now: real, maxAge: real, o: Order, x: Order)
    requires BookOk(b) && PricesOk(Desired(g))
    requires o in Kept(b, g, now, maxAge) && x in Added(b, g, now, maxAge)
    ensures OrdersApart(o, x)
  {
    hide Near, Added, PricesOk, Pairwise;
    var young := Young(b.orders, now, maxAge);
    AddedAreUncovered(b, g, now, maxAge);
    FilterMembers(b.orders, IsYoung(now, maxAge));
    FilterMembers(young, IsWanted(Desired(g)));
    var k :| 0 <= k < |young| && young[k] == o;
    UncoveredIsApart(o.price, x.price);
  }

  lemma RepostKeepsOk(b: Book, g: Grid, now: real, maxAge: real)
    requires BookOk(b) && PricesOk(Desired(g))
    ensures BookOk(Repost(b, g, now, maxAge))
  {
    hide Near, Apart, PricesOk, Wanted, Matches;
    var kept, added := Kept(b, g, now, maxAge), Added(b, g, now, maxAge);
    var young := Young(b.orders, now, maxAge);
    FilterPairwise(b.orders, IsYoung(now, maxAge), OrdersApart);
    FilterPairwise(young, IsWanted(Desired(g)), OrdersApart);
    FilterPairwise(b.orders, IsYoung(now, maxAge), DifferentIds);
    FilterPairwise(young, IsWanted(Desired(g)), DifferentIds);
    FilterMembers(b.orders, IsYoung(now, maxAge));
    FilterMembers(young, IsWanted(Desired(g)));
    AddedAreApart(b, g, now, maxAge);
    AddedAreUncovered(b, g, now, maxAge);
    forall i, j | 0 <= i < |kept| && 0 <= j < |added|
      ensures OrdersApart(kept[i], added[j]) && DifferentIds(kept[i], added[j])
    {
      assert kept[i] in kept && added[j] in added;
      AddedAreApartFromKept(b, g, now, maxAge, kept[i], added[j]);
    }
    PairwiseJoin(kept, added, OrdersApart);
    PairwiseJoin(kept, added, DifferentIds);
  }

  /** Over any run from empty, open orders stay pairwise more than the tolerance apart. */
  lemma {:induction false} RunKeepsOk(actions: seq<Action>, maxAge: real)
    requires GridsOk(actions)
    ensures BookOk(Run(actions, maxAge))
  {
    if actions != [] {
      var before := actions[..|actions| - 1];
      var a := actions[|actions| - 1];
      RunKeepsOk(before, maxAge);
      if a.DiffAndRepost? {
        RepostKeepsOk(Run(before, maxAge), a.grid, a.now, maxAge);
      }
    }
  }

  // ----- counting ------------------------------------------------------------------

  function IsNear(d: real): Order -> bool {
    (o: Order) => Near(o.price, d)
  }

  lemma NoFourNear(p: real, q: real, r: real, s: real, d: real)
    requires p >= SMALLEST && q >= SMALLEST && r >= SMALLEST && s >= SMALLEST
    requires Apart(p, q) && Apart(p, r) && Apart(p, s) && Apart(q, r) && Apart(q, s) && Apart(r, s)
    ensures !(Near(p, d) && Near(q, d) && Near(r, d) && Near(s, d))
  {
    NearIsLinear(p, d);
    NearIsLinear(q, d);
    NearIsLinear(r, d);
    NearIsLinear(s, d);
  }

  /** At most three such orders sit within tolerance of any one price. */
  lemma AtMostThree(orders: seq<Order>, d: real)
    requires forall o :: o in orders ==> o.price >= SMALLEST
    requires Pairwise(orders, OrdersApart)
    ensures |Filter(orders, IsNear(d))| <= 3
  {
    var near := Filter(orders, IsNear(d));
    FilterMembers(orders, IsNear(d));
    FilterPairwise(orders, IsNear(d), OrdersApart);
    if |near| >= 4 {
      assert near[0] in near && near[1] in near && near[2] in near && near[3] in near;
      assert OrdersApart(near[0], near[1]) && OrdersApart(near[0], near[2]) && OrdersApart(near[0], near[3]);
      assert OrdersApart(near[1], near[2]) && OrdersApart(near[1], near[3]) && OrdersApart(near[2], near[3]);
      NoFourNear(near[0].price, near[1].price, near[2].price, near[3].price, d);
    }
  }

  lemma {:induction false} CountByLevel(orders: seq<Order>, desired: seq<real>)
    requires forall o :: o in orders ==> o.price >= SMALLEST && Matches(o, desired)
    requires Pairwise(orders, OrdersApart)
    ensures |orders| <= 3 * |desired|
    decreases |desired|
  {
    hide Filter, Pairwise, Near, Apart, Matches;
    if desired == [] {
      if orders != [] {
        MatchNeedsDesire(orders[0], desired);
      }
    } else {
      var d := desired[0];
      var far := Filter(orders, Complement(IsNear(d)));
      AtMostThree(orders, d);
      FilterSplit(orders, IsNear(d));
      FilterPairwise(orders, Complement(IsNear(d)), OrdersApart);
      FarMatchesTheRest(orders, desired);
      CountByLevel(far, desired[1..]);
    }
  }

  lemma MatchNeedsDesire(o: Order, desired: seq<real>)
    requires Matches(o, desired)
    ensures desired != []
  {
  }

  lemma FarMatchesTheRest(orders: seq<Order>, desired: seq<real>)
    requires desired != [] && forall o :: o in orders ==> o.price >= SMALLEST && Matches(o, desired)
    ensures forall o :: o in Filter(orders, Complement(IsNear(desired[0]))) ==>
              o.price >= SMALLEST && Matches(o, desired[1..])
  {
    hide Near;
    FilterMembers(orders, Complement(IsNear(desired[0])));
    forall o | o in Filter(orders, Complement(IsNear(desired[0])))
      ensures o.price >= SMALLEST && Matches(o, desired[1..])
    {
      var i :| 0 <= i < |desired| && Near(o.price, desired[i]);
      assert desired[1..][i - 1] == desired[i];
    }
  }

  /**
   * Over any run of calls from empty, at most three open orders sit within tolerance of
   * any one price, and after each call there are at most three for every level of its grid.
   */
  lemma RunBoundsTheBook(actions: seq<Action>, maxAge: real, d: real)
    requires GridsOk(actions)
    ensures |Filter(Run(actions, maxAge).orders, IsNear(d))| <= 3
    ensures actions != [] && actions[|actions| - 1].DiffAndRepost? ==>
              |Run(actions, maxAge).orders| <= 3 * |Desired(actions[|actions| - 1].grid)|
  {
    var b := Run(actions, maxAge);
    RunKeepsOk(actions, maxAge);
    AtMostThree(b.orders, d);
    if actions != [] && actions[|actions| - 1].DiffAndRepost? {
      var a := actions[|actions| - 1];
      var before := Run(actions[..|actions| - 1], maxAge);
      RepostCoversTheGrid(before, a.grid, a.now, maxAge);
      CountByLevel(b.orders, Desired(a.grid));
    }
  }
}
