/** The fill simulator: loops that consume a list of levels in place, proved against Matching. */
module FillSimulator {
  import LinearAlgebra
  import opened Filters
  import opened Matching
  import opened Orders
  import opened Reals

  const DUST: real := 0.000000000001

  datatype Fill = Fill(orderId: nat, side: Side, price: real, amount: real, fee: real, pnl: real)

  /** A mutable copy of one side of the book, best level first. */
  class LevelList {
    var levels: seq<Quote>

    constructor (book: seq<Quote>)
      ensures levels == book
    {
      levels := book;
    }
  }

  /** The maker fee on the notional filled. */
  function Fee(filled: real, price: real, feeRate: real): real {
    filled * price * feeRate
  }

  /** Spread captured against the mid price, less the fee. */
  function SellPnl(filled: real, price: real, mid: real, fee: real): real {
    (price - mid) * filled - fee
  }

  /** Buys realise nothing; sells realise the spread less the fee. */
  function FillOf(o: Order, filled: real, feeRate: real, mid: real): seq<Fill> {
    if filled <= 0.0 then []
    else
      var fee := Fee(filled, o.price, feeRate);
      [Fill(o.id, o.side, o.price, filled, fee, if o.side.Buy? then 0.0 else SellPnl(filled, o.price, mid, fee))]
  }

  /** The fills of a whole queue. */
  function FillsOf(orders: seq<Order>, amounts: seq<real>, feeRate: real, mid: real): seq<Fill>
    requires |amounts| == |orders|
  {
    if orders == [] then []
    else FillOf(orders[0], amounts[0], feeRate, mid) + FillsOf(orders[1..], amounts[1..], feeRate, mid)
  }

  /** The state inside the consuming loop: what is behind i is settled, the rest is still to be matched. */
  predicate Consuming(side: Side, start: seq<Quote>, limit: real, want: real,
                      levels: seq<Quote>, i: nat, filled: real, remaining: real)
  {
    && i <= |levels|
    && var m := Match(side, levels[i..], limit, remaining, DUST);
       Match(side, start, limit, want, DUST) == Matched(filled + m.filled, levels[..i] + m.left)
  }

  lemma StartConsuming(side: Side, start: seq<Quote>, limit: real, want: real)
    ensures Consuming(side, start, limit, want, start, 0, 0.0, want)
  {
    hide Match;
    var m := Match(side, start, limit, want, DUST);
    assert start[0..] == start && start[..0] + m.left == m.left;
  }

  lemma SkipLevel(side: Side, start: seq<Quote>, limit: real, want: real,
                  levels: seq<Quote>, i: nat, filled: real, remaining: real)
    requires i < |levels| && Consuming(side, start, limit, want, levels, i, filled, remaining)
    requires remaining > 0.0 && !Beyond(side, levels[i].price, limit) && levels[i].qty <= 0.0
    ensures Consuming(side, start, limit, want, levels, i + 1, filled, remaining)
  {
    hide Match, Beyond;
    MatchStep(side, levels[i..], limit, remaining, DUST);
    assert levels[i..][1..] == levels[i + 1..];
    var r := Match(side, levels[i + 1..], limit, remaining - 0.0, DUST);
    assert levels[..i + 1] == levels[..i] + [levels[i]];
    assert levels[..i] + ([levels[i]] + r.left) == levels[..i + 1] + r.left;
  }

  /** The level is reduced in place and the index moves on. */
  lemma ReduceLevel(side: Side, start: seq<Quote>, limit: real, want: real,
                    levels: seq<Quote>, i: nat, filled: real, remaining: real)
    requires i < |levels| && Consuming(side, start, limit, want, levels, i, filled, remaining)
    requires remaining > 0.0 && !Beyond(side, levels[i].price, limit) && levels[i].qty > 0.0
    requires levels[i].qty - Min(remaining, levels[i].qty) > DUST
    ensures var take := Min(remaining, levels[i].qty);
            Consuming(side, start, limit, want, levels[i := Quote(levels[i].price, levels[i].qty - take)], i + 1,
                      filled + take, remaining - take)
  {
    hide Match, Beyond;
    MatchStep(side, levels[i..], limit, remaining, DUST);
    assert levels[i..][1..] == levels[i + 1..];
    var take := Min(remaining, levels[i].qty);
    var q := Quote(levels[i].price, levels[i].qty - take);
    var levels' := levels[i := q];
    assert levels'[i + 1..] == levels[i + 1..] && levels'[..i + 1] == levels[..i] + [q];
    var r := Match(side, levels[i + 1..], limit, remaining - take, DUST);
    assert levels[..i] + ([q] + r.left) == levels'[..i + 1] + r.left;
  }

  /** The level is removed, and the next one shifts down to the same index. */
  lemma PopLevel(side: Side, start: seq<Quote>, limit: real, want: real,
                 levels: seq<Quote>, i: nat, filled: real, remaining: real)
    requires i < |levels| && Consuming(side, start, limit, want, levels, i, filled, remaining)
    requires remaining > 0.0 && !Beyond(side, levels[i].price, limit) && levels[i].qty > 0.0
    requires levels[i].qty - Min(remaining, levels[i].qty) <= DUST
    ensures var take := Min(remaining, levels[i].qty);
            Consuming(side, start, limit, want, levels[..i] + levels[i + 1..], i, filled + take, remaining - take)
  {
    hide Match, Beyond;
    MatchStep(side, levels[i..], limit, remaining, DUST);
    assert levels[i..][1..] == levels[i + 1..];
    var take := Min(remaining, levels[i].qty);
    var levels' := levels[..i] + levels[i + 1..];
    assert levels'[i..] == levels[i + 1..] && levels'[..i] == levels[..i];
    var r := Match(side, levels[i + 1..], limit, remaining - take, DUST);
    assert [] + r.left == r.left;
  }

  lemma DoneConsuming(side: Side, start: seq<Quote>, limit: real, want: real,
                      levels: seq<Quote>, i: nat, filled: real, remaining: real)
    requires Consuming(side, start, limit, want, levels, i, filled, remaining)
    requires i == |levels| || remaining <= 0.0 || Beyond(side, levels[i].price, limit)
    ensures Match(side, start, limit, want, DUST) == Matched(filled, levels)
  {
    hide Match, Beyond;
    MatchStep(side, levels[i..], limit, remaining, DUST);
    assert levels[..i] + levels[i..] == levels;
  }

  /** A best level beyond the limit turns the order away; the loop would do the same. */
  lemma TurnedAway(side: Side, levels: seq<Quote>, limit: real, want: real)
    requires levels == [] || Beyond(side, levels[0].price, limit)
    ensures Match(side, levels, limit, want, DUST) == Matched(0.0, levels)
  {
  }

  method TryFillBuy(order: Order, asks: LevelList, feeRate: real, mid: real) returns (fill: seq<Fill>)
    requires order.side == Buy
    modifies asks
    ensures var m := Match(Buy, old(asks.levels), order.price, order.amount, DUST);
            asks.levels == m.left && fill == FillOf(order, m.filled, feeRate, mid)
  {
    hide Match, Consuming, Fee, SellPnl;
    ghost var start := asks.levels;
    if asks.levels == [] {
      TurnedAway(Buy, start, order.price, order.amount);
      return [];
    }
    if order.price < asks.levels[0].price {
      TurnedAway(Buy, start, order.price, order.amount);
      return [];
    }
    var remaining, filled, i := order.amount, 0.0, 0;
    StartConsuming(Buy, start, order.price, order.amount);
    while i < |asks.levels| && remaining > 0.0
      invariant i <= |asks.levels|
      invariant Consuming(Buy, start, order.price, order.amount, asks.levels, i, filled, remaining)
      decreases |asks.levels| - i
    {
      var ask := asks.levels[i];
      if ask.price > order.price {
        break;
      }
      if ask.qty <= 0.0 {
        SkipLevel(Buy, start, order.price, order.amount, asks.levels, i, filled, remaining);
        i := i + 1;
        continue;
      }
      var take := Min(remaining, ask.qty);
      ghost var before, filled', remaining' := asks.levels, filled, remaining;
      filled := filled + take;
      remaining := remaining - take;
      var newQty := ask.qty - take;
      if newQty > DUST {
        ReduceLevel(Buy, start, order.price, order.amount, before, i, filled', remaining');
        asks.levels := asks.levels[i := Quote(ask.price, newQty)];
      } else {
        PopLevel(Buy, start, order.price, order.amount, before, i, filled', remaining');
        asks.levels := asks.levels[..i] + asks.levels[i + 1..];
        continue;
      }
      i := i + 1;
    }
    DoneConsuming(Buy, start, order.price, order.amount, asks.levels, i, filled, remaining);
    if filled <= 0.0 {
      return [];
    }
    var fee := Fee(filled, order.price, feeRate);
    fill := [Fill(order.id, Buy, order.price, filled, fee, 0.0)];
  }

  method TryFillSell(order: Order, bids: LevelList, feeRate: real, mid: real) returns (fill: seq<Fill>)
    requires order.side == Sell
    modifies bids
    ensures var m := Match(Sell, old(bids.levels), order.price, order.amount, DUST);
            bids.levels == m.left && fill == FillOf(order, m.filled, feeRate, mid)
  {
    hide Match, Consuming, Fee, SellPnl;
    ghost var start := bids.levels;
    if bids.levels == [] {
      TurnedAway(Sell, start, order.price, order.amount);
      return [];
    }
    if order.price > bids.levels[0].price {
      TurnedAway(Sell, start, order.price, order.amount);
      return [];
    }
    var remaining, filled, i := order.amount, 0.0, 0;
    StartConsuming(Sell, start, order.price, order.amount);
    while i < |bids.levels| && remaining > 0.0
      invariant i <= |bids.levels|
      invariant Consuming(Sell, start, order.price, order.amount, bids.levels, i, filled, remaining)
      decreases |bids.levels| - i
    {
      var bid := bids.levels[i];
      if bid.price < order.price {
        break;
      }
      if bid.qty <= 0.0 {
        SkipLevel(Sell, start, order.price, order.amount, bids.levels, i, filled, remaining);
        i := i + 1;
        continue;
      }
      var take := Min(remaining, bid.qty);
      ghost var before, filled', remaining' := bids.levels, filled, remaining;
      filled := filled + take;
      remaining := remaining - take;
      var newQty := bid.qty - take;
      if newQty > DUST {
        ReduceLevel(Sell, start, order.price, order.amount, before, i, filled', remaining');
        bids.levels := bids.levels[i := Quote(bid.price, newQty)];
      } else {
        PopLevel(Sell, start, order.price, order.amount, before, i, filled', remaining');
        bids.levels := bids.levels[..i] + bids.levels[i + 1..];
        continue;
      }
      i := i + 1;
    }
    DoneConsuming(Sell, start, order.price, order.amount, bids.levels, i, filled, remaining);
    if filled <= 0.0 {
      return [];
    }
    var fee := Fee(filled, order.price, feeRate);
    fill := [Fill(order.id, Sell, order.price, filled, fee, SellPnl(filled, order.price, mid, fee))];
  }

  /** All the fills of one side, from the amounts of MatchAll. */
  function SideFills(side: Side, open: seq<Order>, book: seq<Quote>, feeRate: real, mid: real): seq<Fill> {
    var queue := Queue(side, open);
    FillsOf(queue, MatchAll(side, queue, book, DUST).fills, feeRate, mid)
  }

  /** The quantities of the queue's orders. */
  function Quantities(side: Side, open: seq<Order>, book: seq<Quote>): (r: seq<real>)
    ensures |r| == |Queue(side, open)|
  {
    MatchAll(side, Queue(side, open), book, DUST).fills
  }

  /** A queue's fills are those of its orders that got something, in order. */
  lemma {:induction false} FillsAreOfOrders(orders: seq<Order>, amounts: seq<real>, feeRate: real, mid: real, k: nat)
    requires k < |orders| == |amounts|
    ensures amounts[k] > 0.0 ==> FillOf(orders[k], amounts[k], feeRate, mid)[0] in FillsOf(orders, amounts, feeRate, mid)
    ensures forall f :: f in FillsOf(orders, amounts, feeRate, mid) ==>
      exists i :: 0 <= i < |orders| && FillOf(orders[i], amounts[i], feeRate, mid) == [f]
    decreases |orders|
  {
    hide Fee, SellPnl;
    var rest := FillsOf(orders[1..], amounts[1..], feeRate, mid);
    if |orders| > 1 {
      FillsAreOfOrders(orders[1..], amounts[1..], feeRate, mid, if k > 0 then k - 1 else 0);
    }
    forall f | f in FillsOf(orders, amounts, feeRate, mid)
      ensures exists i :: 0 <= i < |orders| && FillOf(orders[i], amounts[i], feeRate, mid) == [f]
    {
      if f in FillOf(orders[0], amounts[0], feeRate, mid) {
        assert FillOf(orders[0], amounts[0], feeRate, mid) == [f];
      } else {
        var i :| 0 <= i < |orders[1..]| && FillOf(orders[1..][i], amounts[1..][i], feeRate, mid) == [f];
        assert FillOf(orders[i + 1], amounts[i + 1], feeRate, mid) == [f];
      }
    }
  }

  /**
   * What Simulate returns for one side of a price-sorted book, order by order: a fill with
   * the order's share of the depth, best prices first, and no fill without a share; if an
   * order fills, every order before it in the queue has filled completely.
   */
  lemma SimulatedFills(side: Side, open: seq<Order>, book: seq<Quote>, feeRate: real, mid: real, k: nat)
    requires SortedBook(side, book) && k < |Queue(side, open)|
    ensures var q, amounts := Queue(side, open), Quantities(side, open, book);
            var depth := Depth(side, book, q[k].price);
            && Share(q[k].amount, depth, LinearAlgebra.Sum(amounts[..k]) + Multiple(k, DUST)) <= amounts[k]
            && amounts[k] <= Share(q[k].amount, depth, LinearAlgebra.Sum(amounts[..k]))
            && (amounts[k] > 0.0 ==>
                  && FillOf(q[k], amounts[k], feeRate, mid)[0] in SideFills(side, open, book, feeRate, mid)
                  && forall i :: 0 <= i < k ==> amounts[i] == Positive(q[i].amount))
  {
    hide MatchAll, Depth, FillOf, FillsOf, Sorted, SortedBook;
    var q := Queue(side, open);
    SortedIsStableSort(side, Filter(open, IsOn(side)), 0.0);
    KthFill(side, q, book, DUST, k);
    var amounts := Quantities(side, open, book);
    FillsAreOfOrders(q, amounts, feeRate, mid, k);
    if amounts[k] > 0.0 {
      forall i | 0 <= i < k ensures amounts[i] == Positive(q[i].amount) {
        PriorityIsKept(side, q, book, DUST, i, k);
      }
    }
  }

  // ----- what the fills say ------------------------------------------------------------

  /** A fill of one of the orders: on its side, at its own price, for no more than its amount, with the maker fee on it. */
  predicate FillsOrder(f: Fill, o: Order, side: Side, feeRate: real) {
    && f.orderId == o.id && f.side == o.side == side && f.price == o.price
    && 0.0 < f.amount <= o.amount
    && f.fee == LinearAlgebra.Times(feeRate, LinearAlgebra.Times(f.amount, o.price))
  }

  lemma FeeOnNotional(filled: real, price: real, feeRate: real)
    ensures Fee(filled, price, feeRate) == LinearAlgebra.Times(feeRate, LinearAlgebra.Times(filled, price))
  {
  }

  lemma {:induction false} TakesNoMore(side: Side, levels: seq<Quote>, limit: real, want: real, dust: real)
    ensures 0.0 <= Match(side, levels, limit, want, dust).filled <= Positive(want)
  {
    hide Match, Beyond;
    MatchStep(side, levels, limit, want, dust);
    if Walks(side, levels, limit, want) {
      TakesNoMore(side, levels[1..], limit, want - Taken(levels[0], want), dust);
    }
  }

  lemma {:induction false} AllTakeNoMore(side: Side, orders: seq<Order>, levels: seq<Quote>, dust: real)
    ensures var fills := MatchAll(side, orders, levels, dust).fills;
            forall k :: 0 <= k < |orders| ==> 0.0 <= fills[k] <= Positive(orders[k].amount)
  {
    hide Match;
    if orders != [] {
      var m := Match(side, levels, orders[0].price, orders[0].amount, dust);
      TakesNoMore(side, levels, orders[0].price, orders[0].amount, dust);
      AllTakeNoMore(side, orders[1..], m.left, dust);
      var fills := MatchAll(side, orders, levels, dust).fills;
      forall k | 0 <= k < |orders| ensures 0.0 <= fills[k] <= Positive(orders[k].amount) {
        if k > 0 {
          assert orders[1..][k - 1] == orders[k];
        }
      }
    }
  }

  /** Every fill of a side is of one of its open orders. */
  lemma FillsAreOfOpenOrders(side: Side, open: seq<Order>, book: seq<Quote>, feeRate: real, mid: real, f: Fill)
    requires f in SideFills(side, open, book, feeRate, mid)
    ensures exists o :: o in open && FillsOrder(f, o, side, feeRate)
  {
    hide MatchAll, Fee, SellPnl, Sorted, FillsOf;
    var q := Queue(side, open);
    var amounts := MatchAll(side, q, book, DUST).fills;
    NoFillsWithoutOrders(q, amounts, feeRate, mid);
    FillsAreOfOrders(q, amounts, feeRate, mid, 0);
    var i :| 0 <= i < |q| && FillOf(q[i], amounts[i], feeRate, mid) == [f];
    AllTakeNoMore(side, q, book, DUST);
    QueueIsOn(side, open);
    QueueIsOpen(side, open, i);
    FeeOnNotional(amounts[i], q[i].price, feeRate);
    assert FillsOrder(f, q[i], side, feeRate);
  }

  lemma NoFillsWithoutOrders(orders: seq<Order>, amounts: seq<real>, feeRate: real, mid: real)
    requires |amounts| == |orders|
    ensures orders == [] ==> FillsOf(orders, amounts, feeRate, mid) == []
  {
  }

  lemma QueueIsOpen(side: Side, open: seq<Order>, i: nat)
    requires i < |Queue(side, open)|
    ensures Queue(side, open)[i] in open
  {
    var on := Filter(open, IsOn(side));
    FilterMembers(open, IsOn(side));
    SortedIsStableSort(side, on, 0.0);
    assert Queue(side, open)[i] in multiset(Queue(side, open));
    assert Queue(side, open)[i] in on;
  }

  /** Totals over a list of fills: quantity, money moved, fees, and profit. */
  datatype Account = Account(quantity: real, cash: real, fees: real, profit: real)

  function Accounts(fills: seq<Fill>): Account {
    if fills == [] then Account(0.0, 0.0, 0.0, 0.0)
    else
      var rest, f := Accounts(fills[1..]), fills[0];
      Account(f.amount + rest.quantity, LinearAlgebra.Times(f.amount, f.price) + rest.cash,
              f.fee + rest.fees, f.pnl + rest.profit)
  }

  /** Fees are their rate of the money moved, and profit is what sales brought in over the mid price, less the fees. */
  predicate Balances(a: Account, side: Side, feeRate: real, mid: real) {
    && a.fees == LinearAlgebra.Times(feeRate, a.cash)
    && a.profit == if side.Buy? then 0.0 else a.cash - LinearAlgebra.Times(mid, a.quantity) - a.fees
  }

  lemma ProfitOfOne(filled: real, price: real, mid: real, fee: real)
    ensures SellPnl(filled, price, mid, fee)
         == LinearAlgebra.Times(filled, price) - LinearAlgebra.Times(mid, filled) - fee
  {
  }

  lemma {:induction false} FillsBalance(side: Side, orders: seq<Order>, amounts: seq<real>, feeRate: real, mid: real)
    requires |amounts| == |orders| && forall i :: 0 <= i < |orders| ==> orders[i].side == side
    ensures Balances(Accounts(FillsOf(orders, amounts, feeRate, mid)), side, feeRate, mid)
  {
    hide Fee, SellPnl, LinearAlgebra.Times;
    if orders == [] {
      LinearAlgebra.TimesUnits(feeRate);
      LinearAlgebra.TimesUnits(mid);
    } else {
      var rest := FillsOf(orders[1..], amounts[1..], feeRate, mid);
      FillsBalance(side, orders[1..], amounts[1..], feeRate, mid);
      var o, x := orders[0], amounts[0];
      var fee := Fee(x, o.price, feeRate);
      FeeOnNotional(x, o.price, feeRate);
      ProfitOfOne(x, o.price, mid, fee);
      LinearAlgebra.TimesDist(feeRate, LinearAlgebra.Times(x, o.price), Accounts(rest).cash);
      LinearAlgebra.TimesDist(mid, x, Accounts(rest).quantity);
      var first := FillOf(o, x, feeRate, mid);
      if first != [] {
        assert (first + rest)[0] == first[0] && (first + rest)[1..] == rest;
      } else {
        assert first + rest == rest;
      }
    }
  }

  /**
   * What the fills of one side add up to: the fees are the fee rate of the money moved; buys
   * realise nothing, and sells the money they brought in, less the quantity at the mid price,
   * less the fees.
   */
  lemma ProfitIsCashFlow(side: Side, open: seq<Order>, book: seq<Quote>, feeRate: real, mid: real)
    ensures Balances(Accounts(SideFills(side, open, book, feeRate, mid)), side, feeRate, mid)
  {
    hide MatchAll, FillsOf, Balances;
    QueueIsOn(side, open);
    FillsBalance(side, Queue(side, open), MatchAll(side, Queue(side, open), book, DUST).fills, feeRate, mid);
  }

  /** The fills of the two sides, buys against the asks first; the book itself is not changed. */
  method Simulate(open: seq<Order>, asks: seq<Quote>, bids: seq<Quote>, feeRate: real, mid: real)
    returns (fills: seq<Fill>)
    ensures fills == SideFills(Buy, open, asks, feeRate, mid) + SideFills(Sell, open, bids, feeRate, mid)
  {
    hide MatchAll, Match, FillsOf;
    var buys, sells := Queue(Buy, open), Queue(Sell, open);
    if open == [] || (bids == [] && asks == []) {
      NothingToSimulate(Buy, open, asks, feeRate, mid);
      NothingToSimulate(Sell, open, bids, feeRate, mid);
      return [];
    }
    var availableAsks := new LevelList(asks);
    var availableBids := new LevelList(bids);
    QueueIsOn(Buy, open);
    QueueIsOn(Sell, open);
    fills := [];
    StartServing(Buy, buys, asks, feeRate, mid);
    for i := 0 to |buys|
      invariant availableBids.levels == bids
      invariant Serving(Buy, buys, asks, feeRate, mid, i, availableAsks.levels, fills)
    {
      Serve(Buy, buys, asks, feeRate, mid, i, availableAsks.levels, fills);
      var fill := TryFillBuy(buys[i], availableAsks, feeRate, mid);
      fills := fills + fill;
    }
    DoneServing(Buy, buys, asks, feeRate, mid, availableAsks.levels, fills);
    var sold: seq<Fill> := [];
    StartServing(Sell, sells, bids, feeRate, mid);
    for i := 0 to |sells|
      invariant Serving(Sell, sells, bids, feeRate, mid, i, availableBids.levels, sold)
    {
      Serve(Sell, sells, bids, feeRate, mid, i, availableBids.levels, sold);
      var fill := TryFillSell(sells[i], availableBids, feeRate, mid);
      sold := sold + fill;
    }
    DoneServing(Sell, sells, bids, feeRate, mid, availableBids.levels, sold);
    fills := fills + sold;
  }

  /** The first i orders have been served; the rest of the queue meets the levels that are left. */
  predicate Serving(side: Side, queue: seq<Order>, book: seq<Quote>, feeRate: real, mid: real,
                    i: nat, levels: seq<Quote>, fills: seq<Fill>)
  {
    && i <= |queue|
    && FillsOf(queue, MatchAll(side, queue, book, DUST).fills, feeRate, mid)
       == fills + FillsOf(queue[i..], MatchAll(side, queue[i..], levels, DUST).fills, feeRate, mid)
  }

  lemma StartServing(side: Side, queue: seq<Order>, book: seq<Quote>, feeRate: real, mid: real)
    ensures Serving(side, queue, book, feeRate, mid, 0, book, [])
  {
    hide MatchAll, FillsOf;
    assert queue[0..] == queue;
  }

  lemma Serve(side: Side, queue: seq<Order>, book: seq<Quote>, feeRate: real, mid: real,
              i: nat, levels: seq<Quote>, fills: seq<Fill>)
    requires i < |queue| && Serving(side, queue, book, feeRate, mid, i, levels, fills)
    ensures var m := Match(side, levels, queue[i].price, queue[i].amount, DUST);
            Serving(side, queue, book, feeRate, mid, i + 1, m.left, fills + FillOf(queue[i], m.filled, feeRate, mid))
  {
    hide Match, FillOf;
    var m := Match(side, levels, queue[i].price, queue[i].amount, DUST);
    assert queue[i..][1..] == queue[i + 1..];
    var later := MatchAll(side, queue[i + 1..], m.left, DUST).fills;
    assert MatchAll(side, queue[i..], levels, DUST).fills[1..] == later;
    assert fills + (FillOf(queue[i], m.filled, feeRate, mid) + FillsOf(queue[i + 1..], later, feeRate, mid))
        == fills + FillOf(queue[i], m.filled, feeRate, mid) + FillsOf(queue[i + 1..], later, feeRate, mid);
  }

  lemma DoneServing(side: Side, queue: seq<Order>, book: seq<Quote>, feeRate: real, mid: real,
                    levels: seq<Quote>, fills: seq<Fill>)
    requires Serving(side, queue, book, feeRate, mid, |queue|, levels, fills)
    ensures FillsOf(queue, MatchAll(side, queue, book, DUST).fills, feeRate, mid) == fills
  {
    assert queue[|queue|..] == [];
  }

  lemma QueueIsOn(side: Side, open: seq<Order>)
    ensures forall i :: 0 <= i < |Queue(side, open)| ==> Queue(side, open)[i].side == side
  {
    var on := Filter(open, IsOn(side));
    FilterMembers(open, IsOn(side));
    SortedIsStableSort(side, on, 0.0);
    forall i | 0 <= i < |Queue(side, open)| ensures Queue(side, open)[i].side == side {
      assert Queue(side, open)[i] in multiset(Queue(side, open));
      assert Queue(side, open)[i] in on;
    }
  }

  lemma NothingToSimulate(side: Side, open: seq<Order>, book: seq<Quote>, feeRate: real, mid: real)
    requires open == [] || book == []
    ensures SideFills(side, open, book, feeRate, mid) == []
  {
    NoLevelsNoFills(side, Queue(side, open), book, feeRate, mid);
  }

  lemma {:induction false} NoLevelsNoFills(side: Side, queue: seq<Order>, book: seq<Quote>, feeRate: real, mid: real)
    requires queue == [] || book == []
    ensures FillsOf(queue, MatchAll(side, queue, book, DUST).fills, feeRate, mid) == []
  {
    if queue != [] {
      var r := MatchAll(side, queue[1..], book, DUST);
      assert MatchAll(side, queue, book, DUST).fills[1..] == r.fills;
      NoLevelsNoFills(side, queue[1..], book, feeRate, mid);
    }
  }
}
