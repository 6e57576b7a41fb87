/** Greedy matching of orders against one side of a book, on values. */
module Matching {
  import LinearAlgebra
  import opened Filters
  import opened Orders
  import opened Reals

  /** One price level of the book. */
  datatype Quote = Quote(price: real, qty: real)

  function Positive(x: real): real {
    Max(x, 0.0)
  }

  /** Asks are walked upwards and bids downwards; in this key both are walked upwards. */
  function Key(side: Side, price: real): real {
    if side.Buy? then price else -price
  }

  /** The level is worse than the order's limit. */
  predicate Beyond(side: Side, level: real, limit: real) {
    Key(side, level) > Key(side, limit)
  }

  /** Best level first. */
  predicate SortedBook(side: Side, levels: seq<Quote>) {
    forall i, j :: 0 <= i < j < |levels| ==> Key(side, levels[i].price) <= Key(side, levels[j].price)
  }

  /** Best order first. */
  predicate SortedOrders(side: Side, orders: seq<Order>) {
    forall i, j :: 0 <= i < j < |orders| ==> Key(side, orders[i].price) >= Key(side, orders[j].price)
  }

  // ----- one order ----------------------------------------------------------------

  datatype Matched = Matched(filled: real, left: seq<Quote>)

  /** Walk the levels, take what is there, drop levels left with no more than the dust. */
  function Match(side: Side, levels: seq<Quote>, limit: real, want: real, dust: real): Matched {
    if levels == [] || want <= 0.0 || Beyond(side, levels[0].price, limit) then Matched(0.0, levels)
    else
      var take := Taken(levels[0], want);
      var r := Match(side, levels[1..], limit, want - take, dust);
      Matched(take + r.filled, Remainder(levels[0], take, dust) + r.left)
  }

  /** A level without quantity is skipped and stays. */
  function Taken(q: Quote, want: real): real {
    if q.qty <= 0.0 then 0.0 else Min(want, q.qty)
  }

  function Remainder(q: Quote, take: real, dust: real): (r: seq<Quote>)
    ensures |r| <= 1 && (r != [] ==> r[0].price == q.price)
  {
    if q.qty <= 0.0 then [q]
    else if q.qty - take > dust then [Quote(q.price, q.qty - take)] else []
  }

  /** The order is still unfilled and the first level is good enough for it. */
  predicate Walks(side: Side, levels: seq<Quote>, limit: real, want: real) {
    levels != [] && want > 0.0 && !Beyond(side, levels[0].price, limit)
  }

  lemma MatchStep(side: Side, levels: seq<Quote>, limit: real, want: real, dust: real)
    ensures Match(side, levels, limit, want, dust)
         == if !Walks(side, levels, limit, want) then Matched(0.0, levels)
            else
              var take := Taken(levels[0], want);
              var r := Match(side, levels[1..], limit, want - take, dust);
              Matched(take + r.filled, Remainder(levels[0], take, dust) + r.left)
  {
  }

  /** The quantity on offer at the limit or better. */
  function Depth(side: Side, levels: seq<Quote>, limit: real): (d: real)
    ensures d >= 0.0
  {
    if levels == [] then 0.0
    else (if Beyond(side, levels[0].price, limit) then 0.0 else Positive(levels[0].qty))
         + Depth(side, levels[1..], limit)
  }

  function Total(levels: seq<Quote>): (t: real)
    ensures t >= 0.0
  {
    if levels == [] then 0.0 else Positive(levels[0].qty) + Total(levels[1..])
  }

  lemma {:induction false} DepthBeyond(side: Side, levels: seq<Quote>, limit: real)
    requires forall i :: 0 <= i < |levels| ==> Beyond(side, levels[i].price, limit)
    ensures Depth(side, levels, limit) == 0.0
  {
    if levels != [] {
      DepthBeyond(side, levels[1..], limit);
    }
  }

  /** An order takes its amount or all that is on offer, whichever is less. */
  lemma {:induction false} TakesWhatIsThere(side: Side, levels: seq<Quote>, limit: real, want: real, dust: real)
    requires SortedBook(side, levels) && dust >= 0.0
    ensures Match(side, levels, limit, want, dust).filled == Min(Positive(want), Depth(side, levels, limit))
  {
    if levels == [] || want <= 0.0 {
    } else if Beyond(side, levels[0].price, limit) {
      DepthBeyond(side, levels, limit);
    } else {
      var take := Taken(levels[0], want);
      TakesWhatIsThere(side, levels[1..], limit, want - take, dust);
    }
  }

  /** What crosses a limit: asks at it or below for a buy, bids at it or above for a sell. */
  function Crossing(side: Side, levels: seq<Quote>, limit: real): real {
    if levels == [] then 0.0
    else
      var q := levels[0];
      var crosses := match side case Buy => q.price <= limit case Sell => q.price >= limit;
      (if crosses && q.qty > 0.0 then q.qty else 0.0) + Crossing(side, levels[1..], limit)
  }

  lemma {:induction false} DepthIsCrossing(side: Side, levels: seq<Quote>, limit: real)
    ensures Depth(side, levels, limit) == Crossing(side, levels, limit)
  {
    if levels != [] {
      DepthIsCrossing(side, levels[1..], limit);
    }
  }

  /** What one level offers at a limit. */
  function Offer(side: Side, q: Quote, l: real): (d: real)
    ensures d >= 0.0
  {
    if Beyond(side, q.price, l) then 0.0 else Positive(q.qty)
  }

  function OfferOf(side: Side, front: seq<Quote>, l: real): (d: real)
    ensures d >= 0.0
  {
    if front == [] then 0.0 else Offer(side, front[0], l)
  }

  lemma DepthOfFront(side: Side, front: seq<Quote>, rest: seq<Quote>, l: real)
    requires |front| <= 1
    ensures Depth(side, front + rest, l) == OfferOf(side, front, l) + Depth(side, rest, l)
  {
    if front == [] {
      assert front + rest == rest;
    } else {
      assert (front + rest)[1..] == rest;
    }
  }

  lemma DepthStep(side: Side, levels: seq<Quote>, l: real)
    requires levels != []
    ensures Depth(side, levels, l) == Offer(side, levels[0], l) + Depth(side, levels[1..], l)
  {
  }

  /** Matching never adds to the depth, at any limit. */
  lemma {:induction false} DepthShrinks(side: Side, levels: seq<Quote>, limit: real, want: real, dust: real, l: real)
    requires dust >= 0.0
    ensures Depth(side, Match(side, levels, limit, want, dust).left, l) <= Depth(side, levels, l)
  {
    hide Match, Depth;
    MatchStep(side, levels, limit, want, dust);
    if Walks(side, levels, limit, want) {
      var take := Taken(levels[0], want);
      DepthShrinks(side, levels[1..], limit, want - take, dust, l);
      var r := Match(side, levels[1..], limit, want - take, dust);
      DepthOfFront(side, Remainder(levels[0], take, dust), r.left, l);
      DepthStep(side, levels, l);
    }
  }

  lemma NoTrade(side: Side, levels: seq<Quote>, limit: real, want: real, dust: real)
    requires want <= 0.0
    ensures Match(side, levels, limit, want, dust) == Matched(0.0, levels)
  {
  }

  /**
   * At every limit no better than the order's own, the depth goes down by the quantity
   * filled, up to one dust remainder.
   */
  lemma {:induction false} DepthAfter(side: Side, levels: seq<Quote>, limit: real, want: real, dust: real, l: real)
    requires SortedBook(side, levels) && dust >= 0.0 && Key(side, l) <= Key(side, limit)
    ensures var m := Match(side, levels, limit, want, dust);
            var exact := Positive(Depth(side, levels, l) - m.filled);
            exact - dust <= Depth(side, m.left, l) <= exact
  {
    hide Match, Depth;
    MatchStep(side, levels, limit, want, dust);
    if !Walks(side, levels, limit, want) {
    } else if Beyond(side, levels[0].price, l) {
      DepthBeyond(side, levels, l);
      DepthShrinks(side, levels, limit, want, dust, l);
      TakesWhatIsThere(side, levels, limit, want, dust);
    } else {
      var take := Taken(levels[0], want);
      var r := Match(side, levels[1..], limit, want - take, dust);
      DepthAfter(side, levels[1..], limit, want - take, dust, l);
      DepthOfFront(side, Remainder(levels[0], take, dust), r.left, l);
      DepthStep(side, levels, l);
      if take == want {
        NoTrade(side, levels[1..], limit, want - take, dust);
      }
    }
  }

  /** Every level left was there before, at the same price. */
  predicate PricesFrom(left: seq<Quote>, levels: seq<Quote>) {
    forall q :: q in left ==> exists p :: p in levels && p.price == q.price
  }

  /** The first level is no worse than any level of the rest. */
  predicate Heads(side: Side, q: Quote, rest: seq<Quote>) {
    forall p :: p in rest ==> Key(side, q.price) <= Key(side, p.price)
  }

  lemma SortedTail(side: Side, levels: seq<Quote>)
    requires SortedBook(side, levels) && levels != []
    ensures SortedBook(side, levels[1..]) && Heads(side, levels[0], levels[1..])
  {
    forall p | p in levels[1..] ensures Key(side, levels[0].price) <= Key(side, p.price) {
      var tail := levels[1..];
      var k :| 0 <= k < |tail| && tail[k] == p;
      assert levels[k + 1] == p;
    }
  }

  lemma SortedFront(side: Side, front: seq<Quote>, rest: seq<Quote>)
    requires |front| <= 1 && SortedBook(side, rest) && (front != [] ==> Heads(side, front[0], rest))
    ensures SortedBook(side, front + rest)
  {
    forall j | 0 <= j < |rest| && front != [] ensures Key(side, front[0].price) <= Key(side, rest[j].price) {
      assert rest[j] in rest;
    }
  }

  lemma {:induction false} LeftIsSorted(side: Side, levels: seq<Quote>, limit: real, want: real, dust: real)
    requires SortedBook(side, levels)
    ensures SortedBook(side, Match(side, levels, limit, want, dust).left)
    ensures PricesFrom(Match(side, levels, limit, want, dust).left, levels)
  {
    hide Match, SortedBook, Key;
    MatchStep(side, levels, limit, want, dust);
    if Walks(side, levels, limit, want) {
      var take := Taken(levels[0], want);
      SortedTail(side, levels);
      LeftIsSorted(side, levels[1..], limit, want - take, dust);
      var r := Match(side, levels[1..], limit, want - take, dust);
      SortedFront(side, Remainder(levels[0], take, dust), r.left);
    }
  }

  lemma TotalOfFront(front: seq<Quote>, rest: seq<Quote>)
    requires |front| <= 1
    ensures Total(front + rest) == (if front == [] then 0.0 else Positive(front[0].qty)) + Total(rest)
  {
    if front == [] {
      assert front + rest == rest;
    } else {
      assert (front + rest)[1..] == rest;
    }
  }

  lemma TotalStep(levels: seq<Quote>)
    requires levels != []
    ensures Total(levels) == Positive(levels[0].qty) + Total(levels[1..])
  {
  }

  /** Quantity filled plus quantity left falls short by at most the dust of one dropped level. */
  lemma {:induction false} Conserved(side: Side, levels: seq<Quote>, limit: real, want: real, dust: real)
    requires dust >= 0.0
    ensures var m := Match(side, levels, limit, want, dust);
            && |m.left| <= |levels|
            && m.filled + Total(m.left) <= Total(levels)
            && Total(levels) <= m.filled + Total(m.left) + (if |m.left| < |levels| then dust else 0.0)
  {
    hide Match, Total, Beyond;
    MatchStep(side, levels, limit, want, dust);
    if Walks(side, levels, limit, want) {
      var take := Taken(levels[0], want);
      Conserved(side, levels[1..], limit, want - take, dust);
      var r := Match(side, levels[1..], limit, want - take, dust);
      TotalOfFront(Remainder(levels[0], take, dust), r.left);
      TotalStep(levels);
      if take == want {
        NoTrade(side, levels[1..], limit, want - take, dust);
      }
    }
  }

  /** A level left is untouched, or holds more than the dust; levels without quantity all stay. */
  lemma {:induction false} LeftExceedsDust(side: Side, levels: seq<Quote>, limit: real, want: real, dust: real)
    ensures var left := Match(side, levels, limit, want, dust).left;
            && (forall q :: q in left ==> q in levels || q.qty > dust)
            && (forall q :: q in levels && q.qty <= 0.0 ==> q in left)
  {
    hide Match, Beyond;
    MatchStep(side, levels, limit, want, dust);
    if Walks(side, levels, limit, want) {
      LeftExceedsDust(side, levels[1..], limit, want - Taken(levels[0], want), dust);
      assert forall q :: q in levels <==> q == levels[0] || q in levels[1..];
    }
  }

  // ----- a list of orders ----------------------------------------------------------

  datatype AllMatched = AllMatched(fills: seq<real>, left: seq<Quote>)

  function MatchAll(side: Side, orders: seq<Order>, levels: seq<Quote>, dust: real): (r: AllMatched)
    ensures |r.fills| == |orders|
  {
    if orders == [] then AllMatched([], levels)
    else
      var m := Match(side, levels, orders[0].price, orders[0].amount, dust);
      var r := MatchAll(side, orders[1..], m.left, dust);
      AllMatched([m.filled] + r.fills, r.left)
  }

  lemma {:induction false} SumCons(x: real, s: seq<real>)
    ensures LinearAlgebra.Sum([x] + s) == x + LinearAlgebra.Sum(s)
  {
    if s == [] {
      assert [x] + s == [x] && LinearAlgebra.Init([x]) == [];
    } else {
      SumCons(x, LinearAlgebra.Init(s));
      assert LinearAlgebra.Init([x] + s) == [x] + LinearAlgebra.Init(s);
    }
  }

  lemma SumOfNone()
    ensures LinearAlgebra.Sum([]) == 0.0
  {
  }

  /** n times a real. */
  function Multiple(n: nat, x: real): real {
    if n == 0 then 0.0 else x + Multiple(n - 1, x)
  }

  lemma {:induction false} MultipleOrder(n: nat, m: nat, x: real)
    requires n <= m && x >= 0.0
    ensures 0.0 <= Multiple(n, x) <= Multiple(m, x)
    decreases m
  {
    if n == m {
      if m > 0 {
        MultipleOrder(n - 1, m - 1, x);
      }
    } else {
      MultipleOrder(n, m - 1, x);
    }
  }

  lemma FirstFill(side: Side, orders: seq<Order>, levels: seq<Quote>, dust: real, k: nat)
    requires 0 < k <= |orders|
    ensures var m := Match(side, levels, orders[0].price, orders[0].amount, dust);
            var r := MatchAll(side, orders[1..], m.left, dust);
            var all := MatchAll(side, orders, levels, dust);
            && (k < |orders| ==> all.fills[k] == r.fills[k - 1])
            && LinearAlgebra.Sum(all.fills[..k]) == m.filled + LinearAlgebra.Sum(r.fills[..k - 1])
  {
    var all := MatchAll(side, orders, levels, dust);
    var m := Match(side, levels, orders[0].price, orders[0].amount, dust);
    var r := MatchAll(side, orders[1..], m.left, dust);
    assert all.fills[..k] == [m.filled] + r.fills[..k - 1];
    SumCons(m.filled, r.fills[..k - 1]);
  }

  lemma {:induction false} FillsAreNonNegative(side: Side, orders: seq<Order>, levels: seq<Quote>, dust: real, k: nat)
    requires SortedBook(side, levels) && dust >= 0.0 && k <= |orders|
    ensures LinearAlgebra.Sum(MatchAll(side, orders, levels, dust).fills[..k]) >= 0.0
  {
    if k > 0 {
      var m := Match(side, levels, orders[0].price, orders[0].amount, dust);
      LeftIsSorted(side, levels, orders[0].price, orders[0].amount, dust);
      TakesWhatIsThere(side, levels, orders[0].price, orders[0].amount, dust);
      FillsAreNonNegative(side, orders[1..], m.left, dust, k - 1);
      FirstFill(side, orders, levels, dust, k);
    }
  }

  /** The order's share of the depth at its limit, once the orders before it have been served. */
  function Share(amount: real, depth: real, taken: real): real {
    Min(Positive(amount), Positive(depth - taken))
  }

  /**
   * The k-th order gets its amount, or what the depth at its price leaves after the fills
   * before it, whichever is less; dust can cost it at most one remainder per earlier order.
   */
  lemma {:induction false} KthFill(side: Side, orders: seq<Order>, levels: seq<Quote>, dust: real, k: nat)
    requires SortedBook(side, levels) && SortedOrders(side, orders) && dust >= 0.0 && k < |orders|
    ensures var fills := MatchAll(side, orders, levels, dust).fills;
            var depth := Depth(side, levels, orders[k].price);
            && Share(orders[k].amount, depth, LinearAlgebra.Sum(fills[..k]) + Multiple(k, dust)) <= fills[k]
            && fills[k] <= Share(orders[k].amount, depth, LinearAlgebra.Sum(fills[..k]))
  {
    hide Match, Depth, MatchAll, LinearAlgebra.Sum;
    var m := Match(side, levels, orders[0].price, orders[0].amount, dust);
    UnfoldMatchAll(side, orders, levels, dust);
    if k == 0 {
      TakesWhatIsThere(side, levels, orders[0].price, orders[0].amount, dust);
    } else {
      FirstFill(side, orders, levels, dust, k);
      LeftIsSorted(side, levels, orders[0].price, orders[0].amount, dust);
      KthFill(side, orders[1..], m.left, dust, k - 1);
      DepthAfter(side, levels, orders[0].price, orders[0].amount, dust, orders[k].price);
      FillsAreNonNegative(side, orders[1..], m.left, dust, k - 1);
      MultipleOrder(0, k - 1, dust);
    }
  }

  lemma UnfoldMatchAll(side: Side, orders: seq<Order>, levels: seq<Quote>, dust: real)
    requires orders != []
    ensures var m := Match(side, levels, orders[0].price, orders[0].amount, dust);
            MatchAll(side, orders, levels, dust).fills[0] == m.filled
    ensures LinearAlgebra.Sum(MatchAll(side, orders, levels, dust).fills[..0]) == 0.0
  {
  }

  /** Without dust the closed form is exact. */
  lemma KthFillExactly(side: Side, orders: seq<Order>, levels: seq<Quote>, k: nat)
    requires SortedBook(side, levels) && SortedOrders(side, orders) && k < |orders|
    ensures var fills := MatchAll(side, orders, levels, 0.0).fills;
            fills[k] == Share(orders[k].amount, Depth(side, levels, orders[k].price), LinearAlgebra.Sum(fills[..k]))
  {
    KthFill(side, orders, levels, 0.0, k);
    MultipleZero(k);
  }

  lemma {:induction false} MultipleZero(k: nat)
    ensures Multiple(k, 0.0) == 0.0
  {
    if k > 0 {
      MultipleZero(k - 1);
    }
  }

  /** Once the depth at a limit is gone, no later order at that limit or worse fills. */
  lemma {:induction false} NothingLeft(side: Side, orders: seq<Order>, levels: seq<Quote>, dust: real, l: real, k: nat)
    requires SortedBook(side, levels) && dust >= 0.0 && k < |orders| && Depth(side, levels, l) == 0.0
    requires Key(side, orders[k].price) <= Key(side, l)
    ensures MatchAll(side, orders, levels, dust).fills[k] == 0.0
  {
    hide Match, Depth, MatchAll, SortedBook;
    var m := Match(side, levels, orders[0].price, orders[0].amount, dust);
    if k == 0 {
      UnfoldMatchAll(side, orders, levels, dust);
      TakesWhatIsThere(side, levels, orders[0].price, orders[0].amount, dust);
      DepthGrowsWithLimit(side, levels, orders[0].price, l);
    } else {
      FirstFill(side, orders, levels, dust, k);
      LeftIsSorted(side, levels, orders[0].price, orders[0].amount, dust);
      DepthShrinks(side, levels, orders[0].price, orders[0].amount, dust, l);
      NothingLeft(side, orders[1..], m.left, dust, l, k - 1);
    }
  }

  lemma {:induction false} DepthGrowsWithLimit(side: Side, levels: seq<Quote>, worse: real, better: real)
    requires Key(side, worse) <= Key(side, better)
    ensures Depth(side, levels, worse) <= Depth(side, levels, better)
  {
    if levels != [] {
      DepthGrowsWithLimit(side, levels[1..], worse, better);
    }
  }

  /** If any order fills, every order before it, so every one at a better price, filled completely. */
  lemma {:induction false} PriorityIsKept(side: Side, orders: seq<Order>, levels: seq<Quote>, dust: real, i: nat, j: nat)
    requires SortedBook(side, levels) && SortedOrders(side, orders) && dust >= 0.0
    requires i < j < |orders| && MatchAll(side, orders, levels, dust).fills[j] > 0.0
    ensures MatchAll(side, orders, levels, dust).fills[i] == Positive(orders[i].amount)
    decreases i
  {
    hide Match, Depth, MatchAll, SortedBook;
    FirstFill(side, orders, levels, dust, j);
    UnfoldMatchAll(side, orders, levels, dust);
    var m := Match(side, levels, orders[0].price, orders[0].amount, dust);
    LeftIsSorted(side, levels, orders[0].price, orders[0].amount, dust);
    if i > 0 {
      FirstFill(side, orders, levels, dust, i);
      PriorityIsKept(side, orders[1..], m.left, dust, i - 1, j - 1);
    } else {
      TakesWhatIsThere(side, levels, orders[0].price, orders[0].amount, dust);
      DepthAfter(side, levels, orders[0].price, orders[0].amount, dust, orders[0].price);
      if m.filled < Positive(orders[0].amount) {
        NothingLeft(side, orders[1..], m.left, dust, orders[0].price, j - 1);
      }
    }
  }

  /** If any order fills, every order of strictly better price filled completely. */
  lemma BetterPricesFillFirst(side: Side, orders: seq<Order>, levels: seq<Quote>, dust: real, i: nat, j: nat)
    requires SortedBook(side, levels) && SortedOrders(side, orders) && dust >= 0.0
    requires i < |orders| && j < |orders| && MatchAll(side, orders, levels, dust).fills[j] > 0.0
    requires Key(side, orders[i].price) > Key(side, orders[j].price)
    ensures MatchAll(side, orders, levels, dust).fills[i] == Positive(orders[i].amount)
  {
    hide MatchAll;
    assert i < j;
    PriorityIsKept(side, orders, levels, dust, i, j);
  }

  /** Over the whole list: filled plus left falls short by at most the dust per dropped level. */
  lemma {:induction false} AllConserved(side: Side, orders: seq<Order>, levels: seq<Quote>, dust: real)
    requires dust >= 0.0
    ensures var r := MatchAll(side, orders, levels, dust);
            && |r.left| <= |levels|
            && LinearAlgebra.Sum(r.fills) + Total(r.left) <= Total(levels)
            && Total(levels) <= LinearAlgebra.Sum(r.fills) + Total(r.left) + Multiple(|levels| - |r.left|, dust)
  {
    hide Match, Total, LinearAlgebra.Sum;
    if orders == [] {
      SumOfNone();
    } else {
      var m := Match(side, levels, orders[0].price, orders[0].amount, dust);
      Conserved(side, levels, orders[0].price, orders[0].amount, dust);
      AllConserved(side, orders[1..], m.left, dust);
      var r := MatchAll(side, orders[1..], m.left, dust);
      SumCons(m.filled, r.fills);
      MultipleOrder(0, |m.left| - |r.left|, dust);
      if |m.left| < |levels| {
        MultipleOrder(|m.left| - |r.left| + 1, |levels| - |r.left|, dust);
      }
    }
  }

  // ----- the order in which orders are served ----------------------------------------

  function IsOn(side: Side): Order -> bool {
    (o: Order) => o.side == side
  }

  function AtPrice(price: real): Order -> bool {
    (o: Order) => o.price == price
  }

  /** A stable sort, best price first. */
  function Sorted(side: Side, orders: seq<Order>): seq<Order> {
    if orders == [] then [] else Insert(side, orders[0], Sorted(side, orders[1..]))
  }

  function Insert(side: Side, o: Order, orders: seq<Order>): seq<Order> {
    if orders == [] || Key(side, o.price) >= Key(side, orders[0].price) then [o] + orders
    else [orders[0]] + Insert(side, o, orders[1..])
  }

  function Queue(side: Side, open: seq<Order>): seq<Order> {
    Sorted(side, Filter(open, IsOn(side)))
  }

  lemma {:induction false} InsertSorted(side: Side, o: Order, orders: seq<Order>)
    requires SortedOrders(side, orders)
    ensures SortedOrders(side, Insert(side, o, orders))
    ensures forall x :: x in Insert(side, o, orders) ==> x == o || x in orders
  {
    if orders == [] || Key(side, o.price) >= Key(side, orders[0].price) {
    } else {
      var rest := Insert(side, o, orders[1..]);
      InsertSorted(side, o, orders[1..]);
      forall j | 0 <= j < |rest| ensures Key(side, orders[0].price) >= Key(side, rest[j].price) {
        assert rest[j] in rest;
      }
    }
  }

  lemma {:induction false} InsertKeeps(side: Side, o: Order, orders: seq<Order>)
    ensures multiset(Insert(side, o, orders)) == multiset(orders) + multiset{o}
  {
    if orders == [] || Key(side, o.price) >= Key(side, orders[0].price) {
    } else {
      InsertKeeps(side, o, orders[1..]);
      assert orders == [orders[0]] + orders[1..];
    }
  }

  lemma {:induction false} InsertStable(side: Side, o: Order, orders: seq<Order>, price: real)
    ensures Filter(Insert(side, o, orders), AtPrice(price)) == Filter([o] + orders, AtPrice(price))
  {
    if orders == [] || Key(side, o.price) >= Key(side, orders[0].price) {
    } else {
      InsertStable(side, o, orders[1..], price);
      var tail := orders[1..];
      assert ([o] + orders)[1..] == orders && ([o] + tail)[1..] == tail;
      assert ([orders[0]] + Insert(side, o, tail))[1..] == Insert(side, o, tail);
    }
  }

  /** The queue holds the open orders of the side, best price first, ties in their old order. */
  lemma {:induction false} SortedIsStableSort(side: Side, orders: seq<Order>, price: real)
    ensures SortedOrders(side, Sorted(side, orders))
    ensures multiset(Sorted(side, orders)) == multiset(orders)
    ensures Filter(Sorted(side, orders), AtPrice(price)) == Filter(orders, AtPrice(price))
  {
    if orders != [] {
      var rest := Sorted(side, orders[1..]);
      SortedIsStableSort(side, orders[1..], price);
      InsertSorted(side, orders[0], rest);
      InsertKeeps(side, orders[0], rest);
      InsertStable(side, orders[0], rest, price);
      assert orders == [orders[0]] + orders[1..];
      assert ([orders[0]] + rest)[1..] == rest;
    }
  }
}
