/** The order book of one asset pair: a continuous double auction with
    price-time priority (matching-engine/src/orderbook.py). */
module Book {
  import opened Wrappers
  import opened Numbers
  import opened Types

  /** Level price a is matched no later than level price b by an incoming
      order of side `taker`: lowest ask first for a Buy, highest bid first
      for a Sell. */
  predicate NoWorse(taker: Side, a: real, b: real) {
    if taker == Buy then a <= b else a >= b
  }

  /** Whether an incoming order with the given limit may trade at a resting
      level: a market order (no limit) always may; a Buy needs limit >= level,
      a Sell needs limit <= level. */
  predicate Crosses(taker: Side, limit: Option<real>, level: real) {
    limit.None? || (if taker == Buy then limit.value >= level else limit.value <= level)
  }

  function Min(a: real, b: real): real {
    if a <= b then a else b
  }

  ghost predicate Distinct(q: seq<string>) {
    forall i, j :: 0 <= i < j < |q| ==> q[i] != q[j]
  }

  /** id is a resident order of side `side` at price p with quantity left. */
  ghost predicate RestsAt(orders: map<string, Order>, id: string, side: Side, p: real) {
    id in orders && orders[id].side == side && orders[id].Limit() == Some(p) && orders[id].Remaining() > 0.0
  }

  /** The price levels of one side: no empty level, each queue free of
      repeats and holding only resident orders of that side priced at the
      level. */
  ghost predicate LevelsValid(levels: map<real, seq<string>>, side: Side, orders: map<string, Order>) {
    forall p :: p in levels ==>
      && |levels[p]| > 0
      && Distinct(levels[p])
      && forall i :: 0 <= i < |levels[p]| ==> RestsAt(orders, levels[p][i], side, p)
  }

  /** The lookup table is keyed by order id and 0 <= filled <= quantity. */
  ghost predicate OrdersValid(orders: map<string, Order>) {
    forall id :: id in orders ==> orders[id].id == id && 0.0 <= orders[id].filled <= orders[id].Qty()
  }

  /** The fields a fill never changes. */
  function Static(o: Order): Order {
    o.(filled := 0.0, status := Pending)
  }

  /** _update_order_status: Filled once filled >= quantity, PartiallyFilled
      while 0 < filled < quantity, otherwise the status is left as it was. */
  function RefreshStatus(o: Order): (r: Order)
    ensures r == o.(status := r.status)
    ensures o.filled >= o.Qty() ==> r.status == Filled
    ensures 0.0 < o.filled < o.Qty() ==> r.status == PartiallyFilled
    ensures o.filled <= 0.0 && o.filled < o.Qty() ==> r.status == o.status
  {
    if o.filled >= o.Qty() then o.(status := Filled)
    else if o.filled > 0.0 then o.(status := PartiallyFilled)
    else o
  }

  /** A resting order after a fill of q. */
  function AfterFill(o: Order, q: real): Order {
    RefreshStatus(o.(filled := o.filled + q))
  }

  /** The trade between an incoming order and a resting one, at the resting
      level's price; buy and sell roles follow the incoming order's side. */
  function TradeOf(taker: Order, maker: Order, price: real, q: real, id: string, ts: int, pair: AssetPair): Trade {
    var (buy, sell) := if taker.side == Buy then (taker, maker) else (maker, taker);
    Trade(id, buy.id, sell.id, price, q, buy.user, sell.user, pair, ts)
  }

  /** The resting order of a trade, seen from an incoming order of side `taker`. */
  function MakerOf(t: Trade, taker: Side): string {
    if taker == Buy then t.sellOrderId else t.buyOrderId
  }

  function MakerIds(ts: seq<Trade>, taker: Side): (r: seq<string>)
    ensures |r| == |ts| && forall i :: 0 <= i < |ts| ==> r[i] == MakerOf(ts[i], taker)
  {
    seq(|ts|, i requires 0 <= i < |ts| => MakerOf(ts[i], taker))
  }

  /** The total traded quantity. */
  function SumQty(ts: seq<Trade>): real {
    if |ts| == 0 then 0.0 else SumQty(ts[..|ts| - 1]) + ts[|ts| - 1].quantity
  }

  lemma {:induction false} SumQtyAppend(a: seq<Trade>, b: seq<Trade>)
    ensures SumQty(a + b) == SumQty(a) + SumQty(b)
    decreases |b|
  {
    if |b| == 0 {
      assert a + b == a;
    } else {
      assert (a + b)[..|a + b| - 1] == a + b[..|b| - 1];
      SumQtyAppend(a, b[..|b| - 1]);
    }
  }

  /** The quantity resting at one level: the sum of what is left of each
      queued order. */
  function LevelQuantity(queue: seq<string>, orders: map<string, Order>): real {
    if |queue| == 0 then 0.0
    else LevelQuantity(queue[..|queue| - 1], orders)
         + (if queue[|queue| - 1] in orders then orders[queue[|queue| - 1]].Remaining() else 0.0)
  }

  /** levels with id appended to the tail of the queue at p, the level being
      created when absent. */
  function Enqueue(levels: map<real, seq<string>>, p: real, id: string): map<real, seq<string>> {
    levels[p := (if p in levels then levels[p] else []) + [id]]
  }

  /** The queue without the given id. */
  function Without(q: seq<string>, id: string): (r: seq<string>)
    ensures forall x :: x in r <==> x in q && x != id
    ensures |r| <= |q|
  {
    if |q| == 0 then []
    else (if q[0] == id then [] else [q[0]]) + Without(q[1..], id)
  }

  lemma {:induction false} WithoutKeepsDistinct(q: seq<string>, id: string)
    requires Distinct(q)
    ensures Distinct(Without(q, id))
  {
    if |q| > 0 {
      WithoutKeepsDistinct(q[1..], id);
      var w := Without(q[1..], id);
      assert q[0] !in w by {
        assert forall j :: 1 <= j < |q| ==> q[j] != q[0];
        assert q[0] !in q[1..];
      }
    }
  }

  /** Filtering keeps the queue order: an absent id leaves the queue as it
      is, and the single occurrence of a present one is cut out with the
      orders before and after it kept in place. */
  lemma {:induction false} WithoutKeepsOrder(q: seq<string>, id: string)
    ensures id !in q ==> Without(q, id) == q
    ensures Distinct(q) ==> forall k :: 0 <= k < |q| && q[k] == id ==> Without(q, id) == q[..k] + q[k + 1..]
  {
    if id !in q {
      WithoutAbsent(q, id);
    }
    if Distinct(q) {
      forall k | 0 <= k < |q| && q[k] == id ensures Without(q, id) == q[..k] + q[k + 1..] {
        WithoutAt(q, id, k);
      }
    }
  }

  lemma {:induction false} WithoutAbsent(q: seq<string>, id: string)
    requires id !in q
    ensures Without(q, id) == q
  {
    if |q| > 0 {
      assert id !in q[1..];
      WithoutAbsent(q[1..], id);
      assert [q[0]] + q[1..] == q;
    }
  }

  lemma {:induction false} WithoutAt(q: seq<string>, id: string, k: nat)
    requires Distinct(q) && k < |q| && q[k] == id
    ensures Without(q, id) == q[..k] + q[k + 1..]
    decreases k
  {
    var tl := q[1..];
    if k == 0 {
      assert id !in tl by {
        forall j | 0 <= j < |tl| ensures tl[j] != id {
          assert tl[j] == q[j + 1];
        }
      }
      WithoutAbsent(tl, id);
      assert q[..0] + q[1..] == tl;
    } else {
      assert q[0] != q[k];
      assert Distinct(tl) by {
        forall i, j | 0 <= i < j < |tl| ensures tl[i] != tl[j] {
          assert tl[i] == q[i + 1] && tl[j] == q[j + 1];
        }
      }
      assert tl[k - 1] == id;
      WithoutAt(tl, id, k - 1);
      assert Without(q, id) == [q[0]] + (tl[..k - 1] + tl[k..]);
      assert [q[0]] + (tl[..k - 1] + tl[k..]) == q[..k] + q[k + 1..];
    }
  }

  /** The level at p after removing id, the level being deleted once empty. */
  function RemoveFromLevel(levels: map<real, seq<string>>, p: real, id: string): map<real, seq<string>> {
    if p !in levels then levels
    else if Without(levels[p], id) == [] then levels - {p}
    else levels[p := Without(levels[p], id)]
  }

  /** A non-empty set has a member. */
  lemma {:induction false} HasMember(s: set<real>)
    requires s != {}
    ensures exists x :: x in s
  {
    if forall x :: x !in s { }
  }

  /** The best of a non-empty set of level prices (SortedDict.peekitem). */
  method BestPrice(keys: set<real>, taker: Side) returns (best: real)
    requires keys != {}
    ensures best in keys
    ensures forall k :: k in keys ==> NoWorse(taker, best, k)
  {
    HasMember(keys);
    best :| best in keys;
    var rest := keys - {best};
    while rest != {}
      invariant rest <= keys && best in keys
      invariant forall k :: k in keys && k !in rest ==> NoWorse(taker, best, k)
      decreases |rest|
    {
      HasMember(rest);
      var k :| k in rest;
      if !NoWorse(taker, best, k) {
        best := k;
      }
      rest := rest - {k};
    }
  }

  function Prices(r: seq<PriceLevel>): (ps: seq<real>)
    ensures |ps| == |r| && forall i :: 0 <= i < |r| ==> ps[i] == r[i].price
  {
    seq(|r|, i requires 0 <= i < |r| => r[i].price)
  }

  /** r lists up to 20 levels of `levels`, best first for an incoming order of
      side `taker` (highest bid first for a Sell, lowest ask first for a Buy),
      each with the total quantity left at it; every level not listed is no
      better than all listed ones. */
  ghost predicate TopOf(r: seq<PriceLevel>, levels: map<real, seq<string>>, taker: Side, orders: map<string, Order>) {
    && |r| == (if |levels| < 20 then |levels| else 20)
    && (forall i :: 0 <= i < |r| ==>
          r[i].price in levels && r[i].quantity == LevelQuantity(levels[r[i].price], orders))
    && (forall i, j :: 0 <= i < j < |r| ==> NoWorse(taker, r[i].price, r[j].price) && r[i].price != r[j].price)
    && (forall k :: k in levels && k !in Prices(r) ==>
          forall i :: 0 <= i < |r| ==> NoWorse(taker, r[i].price, k))
  }

  /** The invariant of the snapshot loop: r lists, best first, the levels
      taken so far with their totals, and `rest` holds the others, none of
      them better than a listed one. */
  ghost predicate TopInv(r: seq<PriceLevel>, rest: set<real>, levels: map<real, seq<string>>, taker: Side,
                         orders: map<string, Order>) {
    && rest <= levels.Keys
    && |r| + |rest| == |levels| && |r| <= 20
    && (forall i :: 0 <= i < |r| ==>
          r[i].price in levels && r[i].price !in rest && r[i].quantity == LevelQuantity(levels[r[i].price], orders))
    && (forall k :: k in levels ==> k in rest || k in Prices(r))
    && (forall i, j :: 0 <= i < j < |r| ==> NoWorse(taker, r[i].price, r[j].price) && r[i].price != r[j].price)
    && (forall i, k :: 0 <= i < |r| && k in rest ==> NoWorse(taker, r[i].price, k))
  }

  /** Listing the best level left keeps the snapshot invariant. */
  lemma {:induction false} TopStep(r: seq<PriceLevel>, rest: set<real>, levels: map<real, seq<string>>, taker: Side,
                                   orders: map<string, Order>, p: real)
    requires TopInv(r, rest, levels, taker, orders) && |r| < 20
    requires p in rest && forall k :: k in rest ==> NoWorse(taker, p, k)
    ensures TopInv(r + [PriceLevel(p, LevelQuantity(levels[p], orders))], rest - {p}, levels, taker, orders)
  {
    var r' := r + [PriceLevel(p, LevelQuantity(levels[p], orders))];
    assert Prices(r') == Prices(r) + [p];
  }

  /** The snapshot loop ends with the top of the side listed. */
  lemma {:induction false} TopExit(r: seq<PriceLevel>, rest: set<real>, levels: map<real, seq<string>>, taker: Side,
                                   orders: map<string, Order>)
    requires TopInv(r, rest, levels, taker, orders) && (rest == {} || |r| == 20)
    ensures TopOf(r, levels, taker, orders)
  {
    forall k | k in levels && k !in Prices(r) ensures forall i :: 0 <= i < |r| ==> NoWorse(taker, r[i].price, k) {
      assert k in rest;
    }
  }

  /** The aggregated top of one side, built by repeatedly taking the best
      level not yet listed. */
  method TopLevels(levels: map<real, seq<string>>, taker: Side, orders: map<string, Order>)
    returns (r: seq<PriceLevel>)
    ensures TopOf(r, levels, taker, orders)
  {
    r := [];
    var rest := levels.Keys;
    assert |levels| == |levels.Keys|;
    while rest != {} && |r| < 20
      invariant TopInv(r, rest, levels, taker, orders)
      decreases |rest|
    {
      var p := BestPrice(rest, taker);
      TopStep(r, rest, levels, taker, orders, p);
      r := r + [PriceLevel(p, LevelQuantity(levels[p], orders))];
      rest := rest - {p};
    }
    TopExit(r, rest, levels, taker, orders);
  }

  /** The i-th trade at a level: against the resting order `maker0` (as it
      was), for the smaller of what each side had left, leaving the resting
      order as `maker`. */
  ghost predicate FillRecorded(fills: seq<Trade>, i: nat, taker0: Order, maker0: Order, maker: Order, best: real,
                               pair: AssetPair)
    requires i < |fills|
  {
    && fills[i] == TradeOf(taker0, maker0, best, fills[i].quantity, fills[i].tradeId, fills[i].timestamp, pair)
    && fills[i].quantity == Min(taker0.Remaining() - SumQty(fills[..i]), maker0.Remaining())
    && fills[i].quantity > 0.0
    && maker == AfterFill(maker0, fills[i].quantity)
  }

  /** What the matching loop at one level works with: the incoming order as
      it arrived at the level, the level's queue and price, the pair and the
      orders. */
  datatype LevelCtx = LevelCtx(taker0: Order, queue: seq<string>, best: real, pair: AssetPair,
                               orders0: map<string, Order>)

  ghost predicate CtxOk(c: LevelCtx) {
    && OrdersValid(c.orders0) && c.taker0.id !in c.orders0
    && 0.0 <= c.taker0.filled < c.taker0.Qty()
    && |c.queue| > 0 && Distinct(c.queue)
    && forall i :: 0 <= i < |c.queue| ==> RestsAt(c.orders0, c.queue[i], c.taker0.side.Opposite(), c.best)
  }

  /** The loop invariant of the matching loop at one level, after k resting
      orders were dequeued and `fills` were made: the counts and the incoming
      order, the orders table, and the trades. */
  ghost predicate FillInv(c: LevelCtx, k: nat, fills: seq<Trade>, taker: Order, book: map<string, Order>) {
    FillCounts(c, k, fills, taker) && FillBook(c, k, |fills|, book) && FillTrades(c, fills, book)
  }

  ghost predicate FillCounts(c: LevelCtx, k: nat, fills: seq<Trade>, taker: Order) {
    && k <= |fills| <= |c.queue|
    && (|fills| == k || (|fills| == k + 1 && taker.Remaining() == 0.0))
    && (|fills| == 0 ==> taker.Remaining() > 0.0)
    && taker == c.taker0.(filled := c.taker0.filled + SumQty(fills))
    && taker.Remaining() >= 0.0
  }

  /** The first m queued orders have been touched, the others are as they
      were; those from k on are still resting at the level. */
  ghost predicate FillBook(c: LevelCtx, k: nat, m: nat, book: map<string, Order>)
    requires m <= |c.queue|
  {
    && OrdersValid(book) && book.Keys == c.orders0.Keys
    && (forall id :: id in book ==> Static(book[id]) == Static(c.orders0[id]))
    && (forall i :: k <= i < |c.queue| ==> RestsAt(book, c.queue[i], c.taker0.side.Opposite(), c.best))
    && (forall id :: id in book && id !in c.queue[..m] ==> book[id] == c.orders0[id])
  }

  ghost predicate FillTrades(c: LevelCtx, fills: seq<Trade>, book: map<string, Order>)
    requires |fills| <= |c.queue|
  {
    && MakerIds(fills, c.taker0.side) == c.queue[..|fills|]
    && (forall i :: 0 <= i < |fills| ==>
          c.queue[i] in c.orders0 && c.queue[i] in book &&
          FillRecorded(fills, i, c.taker0, c.orders0[c.queue[i]], book[c.queue[i]], c.best, c.pair))
  }

  /** A resting order is done once its filled quantity reaches its quantity. */
  predicate Full(o: Order) {
    o.filled >= o.Qty()
  }

  /** The k orders dequeued from the head of the level are the full ones. */
  ghost predicate FillDequeued(c: LevelCtx, k: nat, book: map<string, Order>) {
    && k <= |c.queue|
    && forall i :: 0 <= i < k ==> c.queue[i] in book && Full(book[c.queue[i]])
  }

  /** Dequeuing the head only once the fill has made it full keeps FillDequeued. */
  lemma {:induction false} FillDequeuedStep(c: LevelCtx, k: nat, book: map<string, Order>, maker: Order)
    requires Distinct(c.queue) && k < |c.queue| && FillDequeued(c, k, book)
    ensures FillDequeued(c, if Full(maker) then k + 1 else k, book[c.queue[k] := maker])
  {
    forall i | 0 <= i < k ensures c.queue[i] != c.queue[k] { }
  }

  /** The trades carry the identifiers and times drawn, in order, from the
      sources, starting at draw n. */
  ghost predicate Stamped(ts: seq<Trade>, n: nat, tradeId: nat -> string, clock: nat -> int) {
    forall i :: 0 <= i < |ts| ==> ts[i].tradeId == tradeId(n + i) && ts[i].timestamp == clock(n + i)
  }

  lemma {:induction false} StampedSnoc(ts: seq<Trade>, t: Trade, n: nat, tradeId: nat -> string, clock: nat -> int)
    requires Stamped(ts, n, tradeId, clock)
    requires t.tradeId == tradeId(n + |ts|) && t.timestamp == clock(n + |ts|)
    ensures Stamped(ts + [t], n, tradeId, clock)
  {
    forall i | 0 <= i < |ts| + 1
      ensures (ts + [t])[i].tradeId == tradeId(n + i) && (ts + [t])[i].timestamp == clock(n + i)
    {
      if i < |ts| {
        assert (ts + [t])[i] == ts[i];
      }
    }
  }

  /** The queue position the loop is at has not been touched before. */
  lemma {:induction false} HeadUntouched(c: LevelCtx, k: nat, m: nat, book: map<string, Order>)
    requires CtxOk(c) && k < |c.queue| && m == k && FillBook(c, k, m, book)
    ensures c.queue[k] !in c.queue[..k] && c.queue[k] in book && book[c.queue[k]] == c.orders0[c.queue[k]]
    ensures c.queue[k] in c.orders0 && c.orders0[c.queue[k]].id == c.queue[k]
  {
    assert RestsAt(c.orders0, c.queue[k], c.taker0.side.Opposite(), c.best);
    assert c.queue[k] !in c.queue[..k] by {
      forall j | 0 <= j < k ensures c.queue[j] != c.queue[k] {
      }
    }
  }

  /** One pass of the matching loop at a level keeps its invariant. */
  lemma {:induction false} FillStepKeeps(c: LevelCtx, k: nat, fills: seq<Trade>, taker: Order,
                                         book: map<string, Order>, q: real, id: string, ts: int, t: Trade, maker: Order)
    requires CtxOk(c) && FillInv(c, k, fills, taker, book)
    requires k < |c.queue| && taker.Remaining() > 0.0
    requires q == Min(taker.Remaining(), book[c.queue[k]].Remaining())
    requires t == TradeOf(taker, book[c.queue[k]], c.best, q, id, ts, c.pair)
    requires maker == AfterFill(book[c.queue[k]], q)
    ensures FillInv(c, if maker.filled >= maker.Qty() then k + 1 else k, fills + [t],
                    taker.(filled := taker.filled + q), book[c.queue[k] := maker])
  {
    var k' := if maker.filled >= maker.Qty() then k + 1 else k;
    HeadUntouched(c, k, |fills|, book);
    FillCountsStep(c, k, fills, taker, q, t, maker);
    FillBookStep(c, k, book, q, maker);
    FillTradesStep(c, k, fills, taker, book, q, id, ts, t, maker);
  }

  lemma {:induction false} FillCountsStep(c: LevelCtx, k: nat, fills: seq<Trade>, taker: Order, q: real, t: Trade, maker: Order)
    requires FillCounts(c, k, fills, taker) && k < |c.queue| && taker.Remaining() > 0.0
    requires t.quantity == q && 0.0 < q <= taker.Remaining()
    requires maker.filled < maker.Qty() ==> q == taker.Remaining()
    ensures FillCounts(c, if maker.filled >= maker.Qty() then k + 1 else k, fills + [t], taker.(filled := taker.filled + q))
  {
    assert |fills| == k;
    assert (fills + [t])[..k] == fills;
    assert SumQty(fills + [t]) == SumQty(fills) + q;
  }

  lemma {:induction false} FillBookStep(c: LevelCtx, k: nat, book: map<string, Order>, q: real, maker: Order)
    requires CtxOk(c) && k < |c.queue| && FillBook(c, k, k, book)
    requires c.queue[k] in book && 0.0 < q <= book[c.queue[k]].Remaining()
    requires maker == AfterFill(book[c.queue[k]], q)
    ensures FillBook(c, if maker.filled >= maker.Qty() then k + 1 else k, k + 1, book[c.queue[k] := maker])
  {
    FillBookOrders(c.orders0, book, c.queue[k], q, maker);
    FillBookRests(c, k, book, maker);
    FillBookUntouched(c, k, book, maker);
  }

  lemma {:induction false} FillBookOrders(orders0: map<string, Order>, book: map<string, Order>, id: string, q: real,
                                          maker: Order)
    requires OrdersValid(book) && book.Keys == orders0.Keys
    requires forall x :: x in book ==> Static(book[x]) == Static(orders0[x])
    requires id in book && 0.0 < q <= book[id].Remaining() && maker == AfterFill(book[id], q)
    ensures OrdersValid(book[id := maker]) && book[id := maker].Keys == orders0.Keys
    ensures forall x :: x in book[id := maker] ==> Static(book[id := maker][x]) == Static(orders0[x])
  {
    assert Static(maker) == Static(book[id]);
  }

  lemma {:induction false} FillBookRests(c: LevelCtx, k: nat, book: map<string, Order>, maker: Order)
    requires k < |c.queue| && Distinct(c.queue)
    requires forall i :: k <= i < |c.queue| ==> RestsAt(book, c.queue[i], c.taker0.side.Opposite(), c.best)
    requires c.queue[k] in book && maker == book[c.queue[k]].(filled := maker.filled, status := maker.status)
    ensures forall i :: (if maker.filled >= maker.Qty() then k + 1 else k) <= i < |c.queue| ==>
      RestsAt(book[c.queue[k] := maker], c.queue[i], c.taker0.side.Opposite(), c.best)
  {
    forall i | k < i < |c.queue| ensures c.queue[i] != c.queue[k] { }
  }

  lemma {:induction false} FillBookUntouched(c: LevelCtx, k: nat, book: map<string, Order>, maker: Order)
    requires k < |c.queue| && c.queue[k] in book && book.Keys == c.orders0.Keys
    requires forall id :: id in book && id !in c.queue[..k] ==> book[id] == c.orders0[id]
    ensures forall id :: id in book && id !in c.queue[..k + 1] ==> book[c.queue[k] := maker][id] == c.orders0[id]
  {
    assert c.queue[..k + 1] == c.queue[..k] + [c.queue[k]];
  }

  lemma {:induction false} FillTradesStep(c: LevelCtx, k: nat, fills: seq<Trade>, taker: Order,
                                          book: map<string, Order>, q: real, id: string, ts: int, t: Trade, maker: Order)
    requires k < |c.queue| && |fills| == k && FillTrades(c, fills, book)
    requires taker == c.taker0.(filled := c.taker0.filled + SumQty(fills))
    requires c.queue[k] in c.orders0 && c.orders0[c.queue[k]].id == c.queue[k]
    requires c.queue[k] !in c.queue[..k] && c.queue[k] in book && book[c.queue[k]] == c.orders0[c.queue[k]]
    requires q == Min(taker.Remaining(), book[c.queue[k]].Remaining()) && q > 0.0
    requires t == TradeOf(taker, book[c.queue[k]], c.best, q, id, ts, c.pair)
    requires maker == AfterFill(book[c.queue[k]], q)
    ensures FillTrades(c, fills + [t], book[c.queue[k] := maker])
  {
    MakerIdsStep(c, k, fills, t);
    FillRecordedKept(c, k, fills, book, t, maker);
    FillRecordedNew(c, k, fills, taker, book, q, id, ts, t, maker);
  }

  lemma {:induction false} MakerIdsStep(c: LevelCtx, k: nat, fills: seq<Trade>, t: Trade)
    requires k < |c.queue| && |fills| == k
    requires MakerIds(fills, c.taker0.side) == c.queue[..k]
    requires MakerOf(t, c.taker0.side) == c.queue[k]
    ensures MakerIds(fills + [t], c.taker0.side) == c.queue[..k + 1]
  {
    assert MakerIds(fills + [t], c.taker0.side) == MakerIds(fills, c.taker0.side) + [c.queue[k]];
    assert c.queue[..k + 1] == c.queue[..k] + [c.queue[k]];
  }

  lemma {:induction false} FillRecordedKept(c: LevelCtx, k: nat, fills: seq<Trade>, book: map<string, Order>, t: Trade, maker: Order)
    requires k < |c.queue| && |fills| == k && c.queue[k] !in c.queue[..k]
    requires forall i :: 0 <= i < |fills| ==>
      c.queue[i] in c.orders0 && c.queue[i] in book &&
      FillRecorded(fills, i, c.taker0, c.orders0[c.queue[i]], book[c.queue[i]], c.best, c.pair)
    ensures forall i :: 0 <= i < |fills| ==>
      c.queue[i] in c.orders0 && c.queue[i] in book[c.queue[k] := maker] &&
      FillRecorded(fills + [t], i, c.taker0, c.orders0[c.queue[i]], book[c.queue[k] := maker][c.queue[i]], c.best, c.pair)
  {
    var fills' := fills + [t];
    forall i | 0 <= i < |fills|
      ensures FillRecorded(fills', i, c.taker0, c.orders0[c.queue[i]], book[c.queue[k] := maker][c.queue[i]], c.best, c.pair)
    {
      assert fills'[..i] == fills[..i];
      assert c.queue[i] in c.queue[..k];
    }
  }

  lemma {:induction false} FillRecordedNew(c: LevelCtx, k: nat, fills: seq<Trade>, taker: Order,
                                           book: map<string, Order>, q: real, id: string, ts: int, t: Trade, maker: Order)
    requires k < |c.queue| && |fills| == k
    requires taker == c.taker0.(filled := c.taker0.filled + SumQty(fills))
    requires c.queue[k] in book && c.queue[k] in c.orders0 && book[c.queue[k]] == c.orders0[c.queue[k]]
    requires c.orders0[c.queue[k]].id == c.queue[k]
    requires q == Min(taker.Remaining(), book[c.queue[k]].Remaining()) && q > 0.0
    requires t == TradeOf(taker, book[c.queue[k]], c.best, q, id, ts, c.pair)
    requires maker == AfterFill(book[c.queue[k]], q)
    ensures MakerOf(t, c.taker0.side) == c.queue[k]
    ensures FillRecorded(fills + [t], k, c.taker0, c.orders0[c.queue[k]], maker, c.best, c.pair)
  {
    assert (fills + [t])[..k] == fills;
  }

  /** The position of x in a queue holding it. */
  function IndexOf(q: seq<string>, x: string): (r: nat)
    requires x in q
    ensures r < |q| && q[r] == x
    ensures forall j :: 0 <= j < r ==> q[j] != x
  {
    if q[0] == x then 0 else 1 + IndexOf(q[1..], x)
  }

  /** a is what is left of queue b after some orders left its head. */
  ghost predicate Suffix(a: seq<string>, b: seq<string>) {
    |a| <= |b| && a == b[|b| - |a|..]
  }

  /** What matching one incoming order works with: the order as it arrived,
      the opposing side's levels and the orders table before matching. */
  datatype MatchCtx = MatchCtx(order: Order, levels0: map<real, seq<string>>, orders0: map<string, Order>, pair: AssetPair)

  ghost predicate MatchOk(m: MatchCtx) {
    && OrdersValid(m.orders0) && m.order.id !in m.orders0
    && 0.0 <= m.order.filled <= m.order.Qty()
    && LevelsValid(m.levels0, m.order.side.Opposite(), m.orders0)
  }

  /** Where the resting order of a trade stood in its level's queue before
      matching (-1 when it stood in none). */
  ghost function Position(m: MatchCtx, t: Trade): int {
    var id := MakerOf(t, m.order.side);
    if t.price in m.levels0 && id in m.levels0[t.price] then IndexOf(m.levels0[t.price], id) else -1
  }

  /** Trade i was made against an order resting at a level the incoming order's
      limit reaches, at that level's price, in queue order (the first trade at
      a level takes the head of its queue, each further one the next order),
      for the smaller of what the two orders had left. */
  ghost predicate TradeFromBook(m: MatchCtx, trades: seq<Trade>, i: nat)
    requires i < |trades|
  {
    var t := trades[i];
    var id := MakerOf(t, m.order.side);
    && t.price in m.levels0 && id in m.levels0[t.price] && id in m.orders0
    && Crosses(m.order.side, m.order.Limit(), t.price)
    && Position(m, t) == (if i == 0 || trades[i - 1].price != t.price then 0 else Position(m, trades[i - 1]) + 1)
    && t == TradeOf(m.order, m.orders0[id], t.price, t.quantity, t.tradeId, t.timestamp, m.pair)
    && t.quantity == Min(m.order.Remaining() - SumQty(trades[..i]), m.orders0[id].Remaining())
    && t.quantity > 0.0
  }

  /** An incoming order once it has been filled by the trades. */
  function Taken(o: Order, trades: seq<Trade>): Order {
    o.(filled := o.filled + SumQty(trades))
  }

  ghost predicate MatchTaker(m: MatchCtx, trades: seq<Trade>, taker: Order) {
    taker == Taken(m.order, trades) && 0.0 <= m.order.filled + SumQty(trades) <= m.order.Qty()
  }

  /** The opposing levels during matching: each is what is left of a level that
      was there before; only the best one may have lost orders without being
      removed, and only once the incoming order is exhausted; the removed
      levels were better than all remaining ones. */
  ghost predicate MatchLevels(m: MatchCtx, levels: map<real, seq<string>>, taker: Order) {
    var s := m.order.side;
    && (forall p :: p in levels ==> p in m.levels0 && Suffix(levels[p], m.levels0[p]))
    && (taker.Remaining() > 0.0 ==> forall p :: p in levels ==> levels[p] == m.levels0[p])
    && (forall p, p' :: p in levels && p' in levels && levels[p] != m.levels0[p] ==> NoWorse(s, p, p'))
    && (forall p, p' :: p in m.levels0 && p !in levels && p' in levels ==> NoWorse(s, p, p'))
  }

  ghost predicate MatchTrades(m: MatchCtx, levels: map<real, seq<string>>, trades: seq<Trade>, taker: Order) {
    var s := m.order.side;
    && (forall i :: 0 <= i < |trades| ==> TradeFromBook(m, trades, i))
    && (forall i, j :: 0 <= i < j < |trades| ==>
          NoWorse(s, trades[i].price, trades[j].price) && MakerOf(trades[i], s) != MakerOf(trades[j], s))
    && (forall i, p :: 0 <= i < |trades| && p in levels ==> NoWorse(s, trades[i].price, p))
    && (taker.Remaining() > 0.0 ==> forall i :: 0 <= i < |trades| ==> trades[i].price !in levels)
  }

  /** The orders table during matching: each resting order that traded was
      filled by exactly its trade's quantity; every other order is as it was. */
  ghost predicate MatchBook(m: MatchCtx, levels: map<real, seq<string>>, trades: seq<Trade>, book: map<string, Order>) {
    var s := m.order.side;
    && OrdersValid(book) && book.Keys == m.orders0.Keys
    && (forall id :: id in book ==> Static(book[id]) == Static(m.orders0[id]))
    && LevelsValid(levels, s.Opposite(), book)
    && (forall i :: 0 <= i < |trades| ==>
          MakerOf(trades[i], s) in book && book[MakerOf(trades[i], s)] == AfterFill(m.orders0[MakerOf(trades[i], s)], trades[i].quantity))
    && (forall id :: id in book && id !in MakerIds(trades, s) ==> book[id] == m.orders0[id])
  }

  ghost predicate MatchInv(m: MatchCtx, levels: map<real, seq<string>>, trades: seq<Trade>, taker: Order, book: map<string, Order>) {
    MatchTaker(m, trades, taker) && MatchLevels(m, levels, taker) && MatchTrades(m, levels, trades, taker) && MatchBook(m, levels, trades, book)
  }

  lemma {:induction false} MatchInvInit(m: MatchCtx)
    requires MatchOk(m)
    ensures MatchInv(m, m.levels0, [], m.order, m.orders0)
  {
    assert m.order == m.order.(filled := m.order.filled + SumQty([]));
  }

  /** The level about to be visited is untouched and its context is sound. */
  lemma {:induction false} VisitOk(m: MatchCtx, levels: map<real, seq<string>>, trades: seq<Trade>, taker: Order,
                                   book: map<string, Order>, best: real)
    requires MatchOk(m) && MatchInv(m, levels, trades, taker, book)
    requires taker.Remaining() > 0.0 && best in levels
    ensures levels[best] == m.levels0[best]
    ensures CtxOk(LevelCtx(taker, levels[best], best, m.pair, book))
    ensures forall j :: 0 <= j < |levels[best]| ==> levels[best][j] !in MakerIds(trades, m.order.side)
    ensures forall j :: 0 <= j < |levels[best]| ==>
      levels[best][j] in book && levels[best][j] in m.orders0 && book[levels[best][j]] == m.orders0[levels[best][j]]
  {
    var s := m.order.side;
    var q := levels[best];
    assert q == m.levels0[best];
    forall j, i | 0 <= j < |q| && 0 <= i < |trades|
      ensures MakerOf(trades[i], s) != q[j]
    {
      assert TradeFromBook(m, trades, i);
      assert trades[i].price != best;
      OnePrice(m.levels0, s.Opposite(), m.orders0, trades[i].price, best, q[j]);
    }
  }

  /** An order is queued at one price only: the price it is limited at. */
  lemma {:induction false} OnePrice(levels: map<real, seq<string>>, side: Side, orders: map<string, Order>,
                                    p: real, p': real, id: string)
    requires LevelsValid(levels, side, orders) && p in levels && p' in levels
    ensures id in levels[p] && id in levels[p'] ==> p == p'
  {
    if id in levels[p] && id in levels[p'] {
      var i :| 0 <= i < |levels[p]| && levels[p][i] == id;
      var i' :| 0 <= i' < |levels[p']| && levels[p'][i'] == id;
      assert RestsAt(orders, id, side, p) && RestsAt(orders, id, side, p');
    }
  }

  /** The opposing levels after visiting the level at `best` and dequeuing
      its first k orders: the level is deleted once empty. */
  function NextLevels(levels: map<real, seq<string>>, best: real, k: nat): map<real, seq<string>>
    requires best in levels && k <= |levels[best]|
  {
    if k == |levels[best]| then levels - {best} else levels[best := levels[best][k..]]
  }

  /** One pass of the outer matching loop: the best level, reached by the
      incoming order's limit, was matched against, leaving k orders dequeued,
      `fills` made, the incoming order as taker' and the orders as book'. */
  ghost predicate Visited(m: MatchCtx, levels: map<real, seq<string>>, trades: seq<Trade>, taker: Order,
                          book: map<string, Order>, best: real, k: nat, fills: seq<Trade>, taker': Order,
                          book': map<string, Order>)
  {
    && MatchOk(m) && MatchInv(m, levels, trades, taker, book)
    && taker.Remaining() > 0.0 && best in levels
    && (forall p :: p in levels ==> NoWorse(m.order.side, best, p))
    && Crosses(m.order.side, m.order.Limit(), best)
    && FillInv(LevelCtx(taker, levels[best], best, m.pair, book), k, fills, taker', book')
    && (k < |levels[best]| ==> taker'.Remaining() == 0.0)
  }

  lemma {:induction false} SumQtyNonNegative(ts: seq<Trade>)
    requires forall i :: 0 <= i < |ts| ==> ts[i].quantity > 0.0
    ensures SumQty(ts) >= 0.0
    decreases |ts|
  {
    if |ts| > 0 {
      SumQtyNonNegative(ts[..|ts| - 1]);
    }
  }

  /** The trades made at one level, restated against the context of the
      whole match: the x-th is with the x-th order of the level's queue. */
  ghost predicate LevelFills(m: MatchCtx, taker: Order, q: seq<string>, best: real, fills: seq<Trade>) {
    |fills| <= |q| && forall x :: 0 <= x < |fills| ==> LevelFill(m, taker, q, best, fills, x)
  }

  ghost predicate LevelFill(m: MatchCtx, taker: Order, q: seq<string>, best: real, fills: seq<Trade>, x: nat)
    requires x < |fills| <= |q|
  {
    && fills[x].price == best && MakerOf(fills[x], m.order.side) == q[x] && q[x] in m.orders0
    && fills[x] == TradeOf(m.order, m.orders0[q[x]], best, fills[x].quantity, fills[x].tradeId, fills[x].timestamp, m.pair)
    && fills[x].quantity == Min(taker.Remaining() - SumQty(fills[..x]), m.orders0[q[x]].Remaining())
    && fills[x].quantity > 0.0
  }

  /** The outer matching loop keeps its invariant. */
  lemma {:induction false} MatchStep(m: MatchCtx, levels: map<real, seq<string>>, trades: seq<Trade>, taker: Order,
                                     book: map<string, Order>, best: real, k: nat, fills: seq<Trade>, taker': Order,
                                     book': map<string, Order>)
    requires Visited(m, levels, trades, taker, book, best, k, fills, taker', book')
    ensures k <= |levels[best]|
    ensures MatchInv(m, NextLevels(levels, best, k), trades + fills, taker', book')
  {
    VisitOk(m, levels, trades, taker, book, best);
    var q := levels[best];
    var s := m.order.side;
    var levels' := NextLevels(levels, best, k);
    var c := LevelCtx(taker, q, best, m.pair, book);
    assert FillCounts(c, k, fills, taker');
    LevelFillsFromVisit(m, trades, taker, book, q, best, fills, book');
    StepLevels(m, levels, taker, best, k, taker');
    assert taker'.Remaining() > 0.0 ==> best !in levels';
    StepTakerTrades(m, levels, levels', trades, taker, book, q, best, k, fills, taker');
    StepBook(m, levels, trades, taker, book, best, k, fills, taker', book');
  }

  lemma {:induction false} LevelFillsFromVisit(m: MatchCtx, trades: seq<Trade>, taker: Order, book: map<string, Order>,
                                               q: seq<string>, best: real, fills: seq<Trade>, book': map<string, Order>)
    requires MatchTaker(m, trades, taker) && |fills| <= |q|
    requires FillTrades(LevelCtx(taker, q, best, m.pair, book), fills, book')
    requires forall x :: 0 <= x < |q| ==> q[x] in book && q[x] in m.orders0 && book[q[x]] == m.orders0[q[x]]
    ensures LevelFills(m, taker, q, best, fills)
    ensures forall x :: 0 <= x < |fills| ==>
      fills[x].price == best && MakerOf(fills[x], m.order.side) == q[x] && fills[x].quantity > 0.0
    ensures forall x :: 0 <= x < |fills| ==>
      q[x] in book' && book'[q[x]] == AfterFill(m.orders0[q[x]], fills[x].quantity)
  {
    var s := m.order.side;
    var c := LevelCtx(taker, q, best, m.pair, book);
    forall x | 0 <= x < |fills|
      ensures LevelFill(m, taker, q, best, fills, x)
      ensures q[x] in book' && book'[q[x]] == AfterFill(m.orders0[q[x]], fills[x].quantity)
    {
      assert FillRecorded(fills, x, c.taker0, c.orders0[q[x]], book'[q[x]], c.best, c.pair);
      assert MakerIds(fills, s)[x] == q[x];
    }
  }

  /** The taker and the trades after one pass of the outer loop. */
  lemma {:induction false} StepTakerTrades(m: MatchCtx, levels: map<real, seq<string>>, levels': map<real, seq<string>>,
                                           trades: seq<Trade>, taker: Order, book: map<string, Order>, q: seq<string>,
                                           best: real, k: nat, fills: seq<Trade>, taker': Order)
    requires MatchTaker(m, trades, taker) && MatchTrades(m, levels, trades, taker) && taker.Remaining() > 0.0
    requires LevelFills(m, taker, q, best, fills)
    requires forall x :: 0 <= x < |fills| ==>
      fills[x].price == best && MakerOf(fills[x], m.order.side) == q[x] && fills[x].quantity > 0.0
    requires best in levels && best in m.levels0 && m.levels0[best] == q && Distinct(q)
    requires forall j :: 0 <= j < |q| ==> q[j] !in MakerIds(trades, m.order.side)
    requires Crosses(m.order.side, m.order.Limit(), best)
    requires forall p :: p in levels ==> NoWorse(m.order.side, best, p)
    requires FillCounts(LevelCtx(taker, q, best, m.pair, book), k, fills, taker')
    requires levels'.Keys <= levels.Keys && (taker'.Remaining() > 0.0 ==> best !in levels')
    ensures MatchTaker(m, trades + fills, taker') && MatchTrades(m, levels', trades + fills, taker')
  {
    var s := m.order.side;
    StepTaker(m, trades, taker, fills, taker', q, best);
    assert |trades| > 0 ==> trades[|trades| - 1].price != best;
    StepTradesAll(m, trades, fills, taker, q, best);
    forall i, x | 0 <= i < |trades| && 0 <= x < |q| ensures MakerOf(trades[i], s) != q[x] {
      assert MakerIds(trades, s)[i] == MakerOf(trades[i], s);
    }
    StepOrderAll(m, trades, fills, taker, q, best);
    StepBounds(m, levels, levels', trades, fills, taker', best);
  }

  lemma {:induction false} StepTaker(m: MatchCtx, trades: seq<Trade>, taker: Order, fills: seq<Trade>, taker': Order,
                                     q: seq<string>, best: real)
    requires MatchTaker(m, trades, taker) && |fills| <= |q|
    requires forall x :: 0 <= x < |fills| ==>
      fills[x].price == best && MakerOf(fills[x], m.order.side) == q[x] && fills[x].quantity > 0.0
    requires taker' == taker.(filled := taker.filled + SumQty(fills)) && taker'.Remaining() >= 0.0
    ensures MatchTaker(m, trades + fills, taker')
  {
    forall i | 0 <= i < |fills| ensures fills[i].quantity > 0.0 { }
    SumQtyNonNegative(fills);
    SumQtyAppend(trades, fills);
  }

  lemma {:induction false} StepLevels(m: MatchCtx, levels: map<real, seq<string>>, taker: Order, best: real, k: nat,
                                      taker': Order)
    requires MatchLevels(m, levels, taker)
    requires best in levels && levels[best] == m.levels0[best] && k <= |levels[best]|
    requires forall p :: p in levels ==> NoWorse(m.order.side, best, p)
    requires k < |levels[best]| ==> taker'.Remaining() == 0.0
    ensures MatchLevels(m, NextLevels(levels, best, k), taker')
  {
    var levels' := NextLevels(levels, best, k);
    var s := m.order.side;
    forall p | p in levels' ensures p in m.levels0 && Suffix(levels'[p], m.levels0[p]) {
      if p == best {
        assert levels'[p] == m.levels0[p][k..];
      }
    }
    forall p, p' | p in levels' && p' in levels' && levels'[p] != m.levels0[p] ensures NoWorse(s, p, p') {
      assert p == best;
    }
  }

  lemma {:induction false} StepTradesOld(m: MatchCtx, trades: seq<Trade>, fills: seq<Trade>, i: nat)
    requires i < |trades| && TradeFromBook(m, trades, i)
    ensures TradeFromBook(m, trades + fills, i)
  {
    assert (trades + fills)[..i] == trades[..i];
    assert (trades + fills)[i] == trades[i];
    if i > 0 {
      assert (trades + fills)[i - 1] == trades[i - 1];
    }
  }

  lemma {:induction false} SumQtyPrefix(trades: seq<Trade>, fills: seq<Trade>, j: nat)
    requires j <= |fills|
    ensures SumQty((trades + fills)[..|trades| + j]) == SumQty(trades) + SumQty(fills[..j])
  {
    assert (trades + fills)[..|trades| + j] == trades + fills[..j];
    SumQtyAppend(trades, fills[..j]);
  }

  lemma {:induction false} StepTradesNew(m: MatchCtx, trades: seq<Trade>, fills: seq<Trade>, taker: Order,
                                         q: seq<string>, best: real, j: nat)
    requires LevelFills(m, taker, q, best, fills) && j < |fills|
    requires best in m.levels0 && m.levels0[best] == q && Distinct(q)
    requires Crosses(m.order.side, m.order.Limit(), best)
    requires taker == m.order.(filled := m.order.filled + SumQty(trades))
    requires |trades| > 0 ==> trades[|trades| - 1].price != best
    ensures TradeFromBook(m, trades + fills, |trades| + j)
  {
    var s := m.order.side;
    var all := trades + fills;
    var i := |trades| + j;
    assert LevelFill(m, taker, q, best, fills, j);
    assert all[i] == fills[j];
    assert Position(m, all[i]) == j by {
      assert IndexOf(q, q[j]) == j;
    }
    if j == 0 {
      if i > 0 {
        assert all[i - 1] == trades[|trades| - 1];
      }
    } else {
      assert LevelFill(m, taker, q, best, fills, j - 1);
      assert all[i - 1] == fills[j - 1];
      assert Position(m, all[i - 1]) == j - 1 by {
        assert IndexOf(q, q[j - 1]) == j - 1;
      }
    }
    SumQtyPrefix(trades, fills, j);
  }

  lemma {:induction false} StepTradesAll(m: MatchCtx, trades: seq<Trade>, fills: seq<Trade>, taker: Order,
                                         q: seq<string>, best: real)
    requires forall i :: 0 <= i < |trades| ==> TradeFromBook(m, trades, i)
    requires LevelFills(m, taker, q, best, fills)
    requires best in m.levels0 && m.levels0[best] == q && Distinct(q)
    requires Crosses(m.order.side, m.order.Limit(), best)
    requires taker == m.order.(filled := m.order.filled + SumQty(trades))
    requires |trades| > 0 ==> trades[|trades| - 1].price != best
    ensures forall i :: 0 <= i < |trades + fills| ==> TradeFromBook(m, trades + fills, i)
  {
    forall i | 0 <= i < |trades + fills| ensures TradeFromBook(m, trades + fills, i) {
      if i < |trades| {
        StepTradesOld(m, trades, fills, i);
      } else {
        StepTradesNew(m, trades, fills, taker, q, best, i - |trades|);
      }
    }
  }

  lemma {:induction false} StepOrderAll(m: MatchCtx, trades: seq<Trade>, fills: seq<Trade>, taker: Order,
                                        q: seq<string>, best: real)
    requires forall i, j :: 0 <= i < j < |trades| ==>
      NoWorse(m.order.side, trades[i].price, trades[j].price) && MakerOf(trades[i], m.order.side) != MakerOf(trades[j], m.order.side)
    requires forall i :: 0 <= i < |trades| ==> NoWorse(m.order.side, trades[i].price, best)
    requires forall i, x :: 0 <= i < |trades| && 0 <= x < |q| ==> MakerOf(trades[i], m.order.side) != q[x]
    requires |fills| <= |q| && Distinct(q)
    requires forall x :: 0 <= x < |fills| ==>
      fills[x].price == best && MakerOf(fills[x], m.order.side) == q[x] && fills[x].quantity > 0.0
    ensures forall i, j :: 0 <= i < j < |trades + fills| ==>
      NoWorse(m.order.side, (trades + fills)[i].price, (trades + fills)[j].price)
      && MakerOf((trades + fills)[i], m.order.side) != MakerOf((trades + fills)[j], m.order.side)
  {
    var all := trades + fills;
    var s := m.order.side;
    forall i, j | 0 <= i < j < |all|
      ensures NoWorse(s, all[i].price, all[j].price) && MakerOf(all[i], s) != MakerOf(all[j], s)
    {
      if j < |trades| {
        assert all[i] == trades[i] && all[j] == trades[j];
      } else if i < |trades| {
        assert all[i] == trades[i] && all[j] == fills[j - |trades|];
      } else {
        assert all[i] == fills[i - |trades|] && all[j] == fills[j - |trades|];
      }
    }
  }

  lemma {:induction false} StepBounds(m: MatchCtx, levels: map<real, seq<string>>, levels': map<real, seq<string>>,
                                      trades: seq<Trade>, fills: seq<Trade>, taker': Order, best: real)
    requires forall i, p :: 0 <= i < |trades| && p in levels ==> NoWorse(m.order.side, trades[i].price, p)
    requires forall i :: 0 <= i < |trades| ==> trades[i].price !in levels
    requires forall i :: 0 <= i < |fills| ==> fills[i].price == best
    requires best in levels && forall p :: p in levels ==> NoWorse(m.order.side, best, p)
    requires levels'.Keys <= levels.Keys
    requires taker'.Remaining() > 0.0 ==> best !in levels'
    ensures forall i, p :: 0 <= i < |trades + fills| && p in levels' ==> NoWorse(m.order.side, (trades + fills)[i].price, p)
    ensures taker'.Remaining() > 0.0 ==> forall i :: 0 <= i < |trades + fills| ==> (trades + fills)[i].price !in levels'
  {
    var all := trades + fills;
    forall i | 0 <= i < |all| ensures all[i] == if i < |trades| then trades[i] else fills[i - |trades|] { }
  }

  lemma {:induction false} StepBook(m: MatchCtx, levels: map<real, seq<string>>, trades: seq<Trade>, taker: Order,
                                    book: map<string, Order>, best: real, k: nat, fills: seq<Trade>, taker': Order,
                                    book': map<string, Order>)
    requires Visited(m, levels, trades, taker, book, best, k, fills, taker', book')
    requires levels[best] == m.levels0[best]
    requires forall x :: 0 <= x < |levels[best]| ==> levels[best][x] !in MakerIds(trades, m.order.side)
    requires forall x :: 0 <= x < |fills| ==>
      levels[best][x] in book' && book'[levels[best][x]] == AfterFill(m.orders0[levels[best][x]], fills[x].quantity)
    requires forall x :: 0 <= x < |fills| ==> MakerOf(fills[x], m.order.side) == levels[best][x]
    ensures k <= |levels[best]|
    ensures MatchBook(m, NextLevels(levels, best, k), trades + fills, book')
  {
    var c := LevelCtx(taker, levels[best], best, m.pair, book);
    var s := m.order.side;
    var q := levels[best];
    var levels' := NextLevels(levels, best, k);
    assert FillBook(c, k, |fills|, book') && FillTrades(c, fills, book');
    StepLevelsValid(m, levels, book, best, k, |fills|, book');
    StepAccounting(m, trades, fills, book, book', q);
  }

  lemma {:induction false} StepLevelsValid(m: MatchCtx, levels: map<real, seq<string>>, book: map<string, Order>,
                                           best: real, k: nat, n: nat, book': map<string, Order>)
    requires best in levels && k <= n <= |levels[best]|
    requires LevelsValid(levels, m.order.side.Opposite(), book)
    requires FillBook(LevelCtx(m.order, levels[best], best, m.pair, book), k, n, book')
    ensures LevelsValid(NextLevels(levels, best, k), m.order.side.Opposite(), book')
  {
    var s := m.order.side;
    var q := levels[best];
    var levels' := NextLevels(levels, best, k);
    forall p, x | p in levels && p != best && 0 <= x < |levels[p]|
      ensures book'[levels[p][x]] == book[levels[p][x]]
    {
      var id := levels[p][x];
      assert RestsAt(book, id, s.Opposite(), p);
      forall y | 0 <= y < |q| ensures q[y] != id {
        assert RestsAt(book, q[y], s.Opposite(), best);
      }
      assert id !in q[..n];
    }
    forall p | p in levels' && p == best
      ensures forall x :: 0 <= x < |levels'[p]| ==> RestsAt(book', levels'[p][x], s.Opposite(), p)
      ensures Distinct(levels'[p])
    {
      assert levels'[p] == q[k..];
      forall x | 0 <= x < |levels'[p]| ensures RestsAt(book', levels'[p][x], s.Opposite(), p) {
        assert levels'[p][x] == q[k + x];
      }
    }
  }

  lemma {:induction false} StepAccounting(m: MatchCtx, trades: seq<Trade>, fills: seq<Trade>,
                                          book: map<string, Order>, book': map<string, Order>, q: seq<string>)
    requires book.Keys == m.orders0.Keys && book'.Keys == book.Keys && |fills| <= |q|
    requires forall i :: 0 <= i < |trades| ==>
      MakerOf(trades[i], m.order.side) in book && book[MakerOf(trades[i], m.order.side)] == AfterFill(m.orders0[MakerOf(trades[i], m.order.side)], trades[i].quantity)
    requires forall id :: id in book && id !in MakerIds(trades, m.order.side) ==> book[id] == m.orders0[id]
    requires forall x :: 0 <= x < |q| ==> q[x] !in MakerIds(trades, m.order.side)
    requires forall x :: 0 <= x < |fills| ==> q[x] in book' && book'[q[x]] == AfterFill(m.orders0[q[x]], fills[x].quantity)
    requires forall x :: 0 <= x < |fills| ==> MakerOf(fills[x], m.order.side) == q[x]
    requires forall id :: id in book' && id !in q[..|fills|] ==> book'[id] == book[id]
    ensures forall i :: 0 <= i < |trades + fills| ==>
      MakerOf((trades + fills)[i], m.order.side) in book' &&
      book'[MakerOf((trades + fills)[i], m.order.side)] == AfterFill(m.orders0[MakerOf((trades + fills)[i], m.order.side)], (trades + fills)[i].quantity)
    ensures forall id :: id in book' && id !in MakerIds(trades + fills, m.order.side) ==> book'[id] == m.orders0[id]
  {
    StepAccountingFilled(m, trades, fills, book, book', q);
    StepAccountingUntouched(m, trades, fills, book, book', q);
  }

  /** Every maker of the trades so far, and of this level's fills, holds its fill. */
  lemma {:induction false} StepAccountingFilled(m: MatchCtx, trades: seq<Trade>, fills: seq<Trade>,
                                                book: map<string, Order>, book': map<string, Order>, q: seq<string>)
    requires book.Keys == m.orders0.Keys && book'.Keys == book.Keys && |fills| <= |q|
    requires forall i :: 0 <= i < |trades| ==>
      MakerOf(trades[i], m.order.side) in book && book[MakerOf(trades[i], m.order.side)] == AfterFill(m.orders0[MakerOf(trades[i], m.order.side)], trades[i].quantity)
    requires forall x :: 0 <= x < |q| ==> q[x] !in MakerIds(trades, m.order.side)
    requires forall x :: 0 <= x < |fills| ==> q[x] in book' && book'[q[x]] == AfterFill(m.orders0[q[x]], fills[x].quantity)
    requires forall x :: 0 <= x < |fills| ==> MakerOf(fills[x], m.order.side) == q[x]
    requires forall id :: id in book' && id !in q[..|fills|] ==> book'[id] == book[id]
    ensures forall i :: 0 <= i < |trades + fills| ==>
      MakerOf((trades + fills)[i], m.order.side) in book' &&
      book'[MakerOf((trades + fills)[i], m.order.side)] == AfterFill(m.orders0[MakerOf((trades + fills)[i], m.order.side)], (trades + fills)[i].quantity)
  {
    var s := m.order.side;
    var all := trades + fills;
    forall i | 0 <= i < |all|
      ensures MakerOf(all[i], s) in book' && book'[MakerOf(all[i], s)] == AfterFill(m.orders0[MakerOf(all[i], s)], all[i].quantity)
    {
      if i < |trades| {
        assert all[i] == trades[i];
        var id := MakerOf(trades[i], s);
        assert MakerIds(trades, s)[i] == id;
        assert id !in q[..|fills|];
      } else {
        assert all[i] == fills[i - |trades|];
      }
    }
  }

  /** An order no trade so far or fill of this level touched is as it was. */
  lemma {:induction false} StepAccountingUntouched(m: MatchCtx, trades: seq<Trade>, fills: seq<Trade>,
                                                   book: map<string, Order>, book': map<string, Order>, q: seq<string>)
    requires book.Keys == m.orders0.Keys && book'.Keys == book.Keys && |fills| <= |q|
    requires forall id :: id in book && id !in MakerIds(trades, m.order.side) ==> book[id] == m.orders0[id]
    requires forall x :: 0 <= x < |fills| ==> MakerOf(fills[x], m.order.side) == q[x]
    requires forall id :: id in book' && id !in q[..|fills|] ==> book'[id] == book[id]
    ensures forall id :: id in book' && id !in MakerIds(trades + fills, m.order.side) ==> book'[id] == m.orders0[id]
  {
    var s := m.order.side;
    var all := trades + fills;
    assert MakerIds(all, s) == MakerIds(trades, s) + MakerIds(fills, s);
    forall id | id in book' && id !in MakerIds(all, s) ensures book'[id] == m.orders0[id] {
      assert id !in MakerIds(trades, s);
      forall x | 0 <= x < |fills| ensures q[x] != id {
        assert MakerIds(fills, s)[x] == q[x];
      }
      assert id !in q[..|fills|];
    }
  }

  /** The count of levels after a visit: one fewer once the level is emptied. */
  lemma {:induction false} NextLevelsSize(levels: map<real, seq<string>>, best: real, k: nat)
    requires best in levels && k <= |levels[best]|
    ensures |NextLevels(levels, best, k)| == if k == |levels[best]| then |levels| - 1 else |levels|
  {
    var next := NextLevels(levels, best, k);
    if k == |levels[best]| {
      assert next.Keys == levels.Keys - {best};
    } else {
      assert next.Keys == levels.Keys;
    }
  }

  lemma {:induction false} StampedAppend(a: seq<Trade>, b: seq<Trade>, tradeId: nat -> string, clock: nat -> int)
    requires Stamped(a, 0, tradeId, clock) && Stamped(b, |a|, tradeId, clock)
    ensures Stamped(a + b, 0, tradeId, clock)
  {
    forall i | 0 <= i < |a + b|
      ensures (a + b)[i].tradeId == tradeId(i) && (a + b)[i].timestamp == clock(i)
    {
      if i < |a| {
        assert (a + b)[i] == a[i];
      } else {
        assert (a + b)[i] == b[i - |a|];
      }
    }
  }

  /** A trade's resting order was resting on the opposing side. */
  lemma {:induction false} MakerOpposite(m: MatchCtx, trades: seq<Trade>, i: nat)
    requires MatchOk(m) && i < |trades| && TradeFromBook(m, trades, i)
    ensures m.orders0[MakerOf(trades[i], m.order.side)].side == m.order.side.Opposite()
  {
    var id := MakerOf(trades[i], m.order.side);
    var q := m.levels0[trades[i].price];
    var j :| 0 <= j < |q| && q[j] == id;
    assert RestsAt(m.orders0, q[j], m.order.side.Opposite(), trades[i].price);
  }

  /** Storing the incoming order with its refreshed status keeps both sides
      of the book sound: the opposing side as matching left it, the incoming
      order's own side untouched by matching. */
  lemma {:induction false} StoreValid(own: map<real, seq<string>>, levels: map<real, seq<string>>, side: Side,
                                      book0: map<string, Order>, book: map<string, Order>, o: Order)
    requires OrdersValid(book) && LevelsValid(levels, side.Opposite(), book) && LevelsValid(own, side, book0)
    requires book.Keys == book0.Keys && o.id !in book0 && 0.0 <= o.filled <= o.Qty()
    requires forall id :: id in book0 && book0[id].side == side ==> book[id] == book0[id]
    ensures OrdersValid(book[o.id := o])
    ensures LevelsValid(levels, side.Opposite(), book[o.id := o])
    ensures LevelsValid(own, side, book[o.id := o])
    ensures forall p :: p in own ==> o.id !in own[p]
  {
    var book' := book[o.id := o];
    forall p, x | p in levels && 0 <= x < |levels[p]| ensures RestsAt(book', levels[p][x], side.Opposite(), p) {
      assert RestsAt(book, levels[p][x], side.Opposite(), p);
    }
    forall p, x | p in own && 0 <= x < |own[p]| ensures RestsAt(book', own[p][x], side, p) && own[p][x] != o.id {
      assert RestsAt(book0, own[p][x], side, p);
    }
  }

  /** Queuing a resident order at its own limit on its own side keeps the side
      sound, provided it was in no queue. */
  lemma {:induction false} EnqueueValid(levels: map<real, seq<string>>, orders: map<string, Order>, o: Order)
    requires LevelsValid(levels, o.side, orders)
    requires o.id in orders && orders[o.id] == o && o.Limit().Some? && o.Remaining() > 0.0
    requires forall p :: p in levels ==> o.id !in levels[p]
    ensures LevelsValid(Enqueue(levels, o.Limit().value, o.id), o.side, orders)
  {
    var p := o.Limit().value;
    var next := Enqueue(levels, p, o.id);
    var q := if p in levels then levels[p] else [];
    assert next[p] == q + [o.id];
    forall x | 0 <= x < |next[p]| ensures RestsAt(orders, next[p][x], o.side, p) {
      if x < |q| {
        assert next[p][x] == levels[p][x];
      }
    }
  }

  /** Removing an id from a level keeps a side sound. */
  lemma {:induction false} RemoveValid(levels: map<real, seq<string>>, side: Side, orders: map<string, Order>, p: real, id: string)
    requires LevelsValid(levels, side, orders)
    ensures LevelsValid(RemoveFromLevel(levels, p, id), side, orders)
  {
    if p in levels && Without(levels[p], id) != [] {
      var w := Without(levels[p], id);
      WithoutKeepsDistinct(levels[p], id);
      forall x | 0 <= x < |w| ensures RestsAt(orders, w[x], side, p) {
        assert w[x] in levels[p];
      }
    }
  }

  /** A side that was sound stays sound when an order's status changes. */
  lemma {:induction false} StatusKeepsLevels(levels: map<real, seq<string>>, side: Side, orders: map<string, Order>,
                                             id: string, st: OrderStatus)
    requires LevelsValid(levels, side, orders) && id in orders
    ensures LevelsValid(levels, side, orders[id := orders[id].(status := st)])
  {
    var orders' := orders[id := orders[id].(status := st)];
    forall p, x | p in levels && 0 <= x < |levels[p]| ensures RestsAt(orders', levels[p][x], side, p) {
      assert RestsAt(orders, levels[p][x], side, p);
    }
  }

  /** Once its level no longer holds it, an order rests in no level at all:
      a resident order is queued only at its own limit on its own side. */
  lemma {:induction false} CancelledLeavesBook(levels: map<real, seq<string>>, side: Side, orders: map<string, Order>,
                                               id: string)
    requires LevelsValid(levels, side, orders) && id in orders && orders[id].Limit().Some?
    ensures forall p :: p in RemoveFromLevel(levels, orders[id].Limit().value, id) ==>
      id !in RemoveFromLevel(levels, orders[id].Limit().value, id)[p]
  {
    var lim := orders[id].Limit().value;
    var next := RemoveFromLevel(levels, lim, id);
    forall p | p in next && p != lim ensures id !in next[p] {
      forall x | 0 <= x < |levels[p]| ensures levels[p][x] != id {
        assert RestsAt(orders, levels[p][x], side, p);
      }
    }
  }

  /** An order is queued on its own side only. */
  lemma {:induction false} NotOnOtherSide(levels: map<real, seq<string>>, side: Side, orders: map<string, Order>,
                                          id: string)
    requires LevelsValid(levels, side, orders) && id in orders && orders[id].side != side
    ensures forall p :: p in levels ==> id !in levels[p]
  {
    forall p | p in levels ensures id !in levels[p] {
      forall x | 0 <= x < |levels[p]| ensures levels[p][x] != id {
        assert RestsAt(orders, levels[p][x], side, p);
      }
    }
  }

  /** How many orders have left the head of the level that was at p before
      matching (all of them once the level is removed). */
  ghost function Gone(m: MatchCtx, levels: map<real, seq<string>>, p: real): int
    requires p in m.levels0
  {
    |m.levels0[p]| - (if p in levels then |levels[p]| else 0)
  }

  /** The orders that have left the head of each opposing level were filled
      in full. */
  ghost predicate MatchDequeued(m: MatchCtx, levels: map<real, seq<string>>, book: map<string, Order>) {
    forall p, x :: p in m.levels0 && 0 <= x < Gone(m, levels, p) ==>
      m.levels0[p][x] in book && Full(book[m.levels0[p][x]])
  }

  /** Visiting the level at `best` and dequeuing its first k orders, which the
      visit made full, keeps MatchDequeued: the visit touched only the first n
      orders of that level, none of which is queued at another price. */
  lemma {:induction false} StepDequeued(m: MatchCtx, levels: map<real, seq<string>>, book: map<string, Order>,
                                        best: real, k: nat, n: nat, book': map<string, Order>)
    requires MatchOk(m) && MatchDequeued(m, levels, book)
    requires best in levels && best in m.levels0 && levels[best] == m.levels0[best] && k <= n <= |levels[best]|
    requires forall x :: 0 <= x < k ==> levels[best][x] in book' && Full(book'[levels[best][x]])
    requires book'.Keys == book.Keys
    requires forall id :: id in book' && id !in levels[best][..n] ==> book'[id] == book[id]
    ensures MatchDequeued(m, NextLevels(levels, best, k), book')
  {
    var levels' := NextLevels(levels, best, k);
    var s := m.order.side;
    forall p, x | p in m.levels0 && 0 <= x < Gone(m, levels', p)
      ensures m.levels0[p][x] in book' && Full(book'[m.levels0[p][x]])
    {
      if p == best {
        assert Gone(m, levels', p) == k;
      } else {
        assert Gone(m, levels', p) == Gone(m, levels, p);
        var id := m.levels0[p][x];
        OnePrice(m.levels0, s.Opposite(), m.orders0, p, best, id);
        assert id !in levels[best][..n];
      }
    }
  }

  /** What matching the incoming order of m against m.levels0 and m.orders0
      produced: the trades, the opposing levels and the orders table, with the
      incoming order filled by the traded total (Taken). */
  ghost predicate MatchResult(m: MatchCtx, trades: seq<Trade>, levels: map<real, seq<string>>, book: map<string, Order>) {
    var s := m.order.side;
    && MatchInv(m, levels, trades, Taken(m.order, trades), book)
    // orders on the incoming order's own side are untouched
    && (forall id :: id in m.orders0 && m.orders0[id].side == s ==> book[id] == m.orders0[id])
    // an order left with quantity stopped at its limit: nothing it could trade with is left
    && (Taken(m.order, trades).Remaining() > 0.0 ==> forall p :: p in levels ==> !Crosses(s, m.order.Limit(), p))
    // an order has left the opposing side only once it traded and was filled in full
    && (forall p, id :: p in m.levels0 && id in m.levels0[p] && !(p in levels && id in levels[p]) ==>
          id in MakerIds(trades, s) && id in book && Full(book[id]))
  }

  /** One pass of the outer matching loop keeps MatchDequeued. */
  lemma {:induction false} VisitDequeued(m: MatchCtx, levels: map<real, seq<string>>, trades: seq<Trade>, taker: Order,
                                         book: map<string, Order>, best: real, k: nat, fills: seq<Trade>, taker': Order,
                                         book': map<string, Order>)
    requires Visited(m, levels, trades, taker, book, best, k, fills, taker', book') && MatchDequeued(m, levels, book)
    requires FillDequeued(LevelCtx(taker, levels[best], best, m.pair, book), k, book')
    ensures k <= |levels[best]| && MatchDequeued(m, NextLevels(levels, best, k), book')
  {
    VisitOk(m, levels, trades, taker, book, best);
    var c := LevelCtx(taker, levels[best], best, m.pair, book);
    assert FillCounts(c, k, fills, taker') && FillBook(c, k, |fills|, book');
    StepDequeued(m, levels, book, best, k, |fills|, book');
  }

  /** An order no longer at the level it was queued at before matching has
      left that level's head, so it is full. */
  lemma {:induction false} LeftFull(m: MatchCtx, levels: map<real, seq<string>>, book: map<string, Order>,
                                    p: real, id: string)
    requires MatchDequeued(m, levels, book)
    requires forall p' :: p' in levels ==> p' in m.levels0 && Suffix(levels[p'], m.levels0[p'])
    requires p in m.levels0 && id in m.levels0[p] && !(p in levels && id in levels[p])
    ensures id in book && Full(book[id])
  {
    var x := IndexOf(m.levels0[p], id);
    if p in levels {
      var g := Gone(m, levels, p);
      assert forall y :: g <= y < |m.levels0[p]| ==> m.levels0[p][y] == levels[p][y - g];
    }
  }

  /** An order gone from the opposing side is full, so it traded: it rested
      with quantity left, and an order that did not trade is as it was. */
  lemma {:induction false} LeftTraded(m: MatchCtx, levels: map<real, seq<string>>, trades: seq<Trade>,
                                      book: map<string, Order>)
    requires MatchOk(m) && MatchDequeued(m, levels, book)
    requires forall p :: p in levels ==> p in m.levels0 && Suffix(levels[p], m.levels0[p])
    requires book.Keys == m.orders0.Keys
    requires forall id :: id in book && id !in MakerIds(trades, m.order.side) ==> book[id] == m.orders0[id]
    ensures forall p, id :: p in m.levels0 && id in m.levels0[p] && !(p in levels && id in levels[p]) ==>
              id in MakerIds(trades, m.order.side) && id in book && Full(book[id])
  {
    forall p, id | p in m.levels0 && id in m.levels0[p] && !(p in levels && id in levels[p])
      ensures id in MakerIds(trades, m.order.side) && id in book && Full(book[id])
    {
      LeftFull(m, levels, book, p, id);
      assert RestsAt(m.orders0, id, m.order.side.Opposite(), p);
    }
  }

  /** What the matching loop's invariant says once the loop is over. */
  lemma {:induction false} MatchExit(m: MatchCtx, levels: map<real, seq<string>>, trades: seq<Trade>, taker: Order,
                                     book: map<string, Order>)
    requires MatchOk(m) && MatchInv(m, levels, trades, taker, book) && MatchDequeued(m, levels, book)
    requires taker.Remaining() > 0.0 ==> forall p :: p in levels ==> !Crosses(m.order.side, m.order.Limit(), p)
    ensures MatchResult(m, trades, levels, book)
  {
    var s := m.order.side;
    assert taker == Taken(m.order, trades);
    LeftTraded(m, levels, trades, book);
    forall id | id in m.orders0 && m.orders0[id].side == s ensures book[id] == m.orders0[id] {
      forall i | 0 <= i < |trades| ensures MakerIds(trades, s)[i] != id {
        assert TradeFromBook(m, trades, i);
        MakerOpposite(m, trades, i);
      }
    }
  }

  /** An order's own side once it has been matched: it is queued at its
      limit when Good Till Cancelled with quantity left; a market order or
      one that is done leaves the side as it was. */
  function Rested(own: map<real, seq<string>>, o: Order): map<real, seq<string>> {
    if o.Remaining() > 0.0 && o.tif == GTC && o.price.Some? then Enqueue(own, o.Limit().value, o.id) else own
  }

  /** Storing the incoming order after matching, with its refreshed status,
      and resting it on its own side keeps the book sound. */
  lemma {:induction false} StoreIncoming(m: MatchCtx, trades: seq<Trade>, levels: map<real, seq<string>>,
                                         book: map<string, Order>, own: map<real, seq<string>>)
    requires MatchOk(m) && MatchResult(m, trades, levels, book)
    requires LevelsValid(own, m.order.side, m.orders0)
    ensures var final := RefreshStatus(Taken(m.order, trades));
      && final.id !in book
      && OrdersValid(book[final.id := final])
      && LevelsValid(levels, final.side.Opposite(), book[final.id := final])
      && LevelsValid(Rested(own, final), final.side, book[final.id := final])
  {
    var final := RefreshStatus(Taken(m.order, trades));
    var book' := book[final.id := final];
    StoreValid(own, levels, m.order.side, m.orders0, book, final);
    if Rested(own, final) != own {
      EnqueueValid(own, book', final);
    }
  }

  /** Taking out an order just stored gives back the table it was stored in. */
  lemma {:induction false} RemoveStored(book: map<string, Order>, id: string, o: Order)
    requires id !in book
    ensures book[id := o] - {id} == book
  {
    assert (book[id := o] - {id}).Keys == book.Keys;
  }

  class OrderBook {
    const pair: AssetPair
    /** Buy levels by price; each queue in arrival order. */
    var bids: map<real, seq<string>>
    /** Sell levels by price; each queue in arrival order. */
    var asks: map<real, seq<string>>
    /** Every order ever matched, resident or not. */
    var orders: map<string, Order>

    ghost predicate Valid()
      reads this
    {
      && OrdersValid(orders)
      && LevelsValid(bids, Buy, orders)
      && LevelsValid(asks, Sell, orders)
    }

    constructor (pair: AssetPair)
      ensures Valid()
      ensures this.pair == pair && bids == map[] && asks == map[] && orders == map[]
    {
      this.pair := pair;
      bids, asks, orders := map[], map[], map[];
    }

    /** The levels an incoming order of side s trades against. */
    function Opposing(s: Side): map<real, seq<string>>
      reads this
    {
      if s == Buy then asks else bids
    }

    /** The levels an order of side s rests on. */
    function Own(s: Side): map<real, seq<string>>
      reads this
    {
      if s == Buy then bids else asks
    }

    /** get_order: the current state of a known order, None otherwise. */
    function GetOrder(id: string): (r: Option<Order>)
      reads this
      ensures r.Some? <==> id in orders
      ensures r.Some? ==> r.value == orders[id]
    {
      if id in orders then Some(orders[id]) else None
    }

    /** The matching inner loop at one level: resting orders are taken from
        the head of the queue; each trade is for the smaller of what the
        incoming order and the resting order have left; a resting order is
        dequeued once filled. */
    method FillAtLevel(book0: map<string, Order>, taker0: Order, best: real, queue: seq<string>, n: nat,
                       tradeId: nat -> string, clock: nat -> int)
      returns (taker: Order, k: nat, fills: seq<Trade>, book: map<string, Order>)
      requires CtxOk(LevelCtx(taker0, queue, best, pair, book0))
      ensures FillInv(LevelCtx(taker0, queue, best, pair, book0), k, fills, taker, book)
      ensures FillDequeued(LevelCtx(taker0, queue, best, pair, book0), k, book)
      ensures Stamped(fills, n, tradeId, clock)
      ensures k < |queue| ==> taker.Remaining() == 0.0
    {
      taker, fills := taker0, [];
      book := book0;
      ghost var c := LevelCtx(taker0, queue, best, pair, book0);
      k := 0;
      var remaining := taker.Remaining();
      while k < |queue| && remaining > 0.0
        invariant FillInv(c, k, fills, taker, book) && remaining == taker.Remaining()
        invariant FillDequeued(c, k, book)
        invariant Stamped(fills, n, tradeId, clock)
        decreases |queue| - k + (if remaining > 0.0 then 1 else 0)
      {
        var makerId := queue[k];
        var maker := book[makerId];
        var q := Min(remaining, maker.Remaining());
        var id, ts := tradeId(n + |fills|), clock(n + |fills|);
        var t := TradeOf(taker, maker, best, q, id, ts, pair);
        FillStepKeeps(c, k, fills, taker, book, q, id, ts, t, AfterFill(maker, q));
        FillDequeuedStep(c, k, book, AfterFill(maker, q));
        StampedSnoc(fills, t, n, tradeId, clock);
        fills := fills + [t];
        remaining := remaining - q;
        taker := taker.(filled := taker.filled + q);
        maker := AfterFill(maker, q);
        book := book[makerId := maker];
        if Full(maker) {
          k := k + 1;
        }
      }
    }

    /** _add_order_to_book: an order with a limit is queued at the tail of its
        price level on its own side (the level is created when absent); a
        market order is not booked. */
    method AddOrderToBook(o: Order)
      modifies this`bids, this`asks
      ensures o.price.None? ==> bids == old(bids) && asks == old(asks)
      ensures o.price.Some? ==> Own(o.side) == Enqueue(old(Own(o.side)), o.Limit().value, o.id)
      ensures o.price.Some? ==> Opposing(o.side) == old(Opposing(o.side))
    {
      if o.price.None? {
        return;
      }
      var p := o.Limit().value;
      if o.side == Buy {
        bids := Enqueue(bids, p, o.id);
      } else {
        asks := Enqueue(asks, p, o.id);
      }
    }

    /** The matching loop of match_order: the incoming order trades against
        the opposing levels `levels0`, best price first and in arrival order
        within a price, until it is filled, no level is left or the best
        level is beyond its limit. The opposing levels and the orders table
        are passed in and returned; trade identifiers and times are drawn in
        order from `tradeId` and `clock`. */
    method MatchAgainst(order: Order, levels0: map<real, seq<string>>, book0: map<string, Order>,
                        tradeId: nat -> string, clock: nat -> int)
      returns (trades: seq<Trade>, taker: Order, levels: map<real, seq<string>>, book: map<string, Order>)
      requires MatchOk(MatchCtx(order, levels0, book0, pair))
      ensures Stamped(trades, 0, tradeId, clock)
      ensures taker == Taken(order, trades)
      ensures MatchResult(MatchCtx(order, levels0, book0, pair), trades, levels, book)
    {
      var s := order.side;
      levels, book := levels0, book0;
      ghost var m := MatchCtx(order, levels0, book0, pair);
      MatchInvInit(m);
      taker := order;
      trades := [];
      var remaining := taker.Remaining();
      while remaining > 0.0 && levels != map[]
        invariant MatchOk(m) && MatchInv(m, levels, trades, taker, book)
        invariant MatchDequeued(m, levels, book)
        invariant remaining == taker.Remaining()
        invariant Stamped(trades, 0, tradeId, clock)
        decreases |levels|, if remaining > 0.0 then 1 else 0
      {
        var best := BestPrice(levels.Keys, s);
        if !Crosses(s, order.Limit(), best) {
          break;
        }
        VisitOk(m, levels, trades, taker, book, best);
        var taker', k, fills, book' := FillAtLevel(book, taker, best, levels[best], |trades|, tradeId, clock);
        MatchStep(m, levels, trades, taker, book, best, k, fills, taker', book');
        VisitDequeued(m, levels, trades, taker, book, best, k, fills, taker', book');
        NextLevelsSize(levels, best, k);
        StampedAppend(trades, fills, tradeId, clock);
        levels := NextLevels(levels, best, k);
        trades := trades + fills;
        taker, book := taker', book';
        remaining := taker.Remaining();
      }
      assert remaining > 0.0 ==> forall p :: p in levels ==> !Crosses(s, order.Limit(), p);
      MatchExit(m, levels, trades, taker, book);
    }

    /** match_order: the incoming order is matched (MatchAgainst), then stored
        with its refreshed status and, when Good Till Cancelled with quantity
        left and a limit, queued on its own side. */
    method MatchOrder(order: Order, tradeId: nat -> string, clock: nat -> int) returns (trades: seq<Trade>)
      requires Valid() && order.id !in orders && 0.0 <= order.filled <= order.Qty()
      modifies this
      ensures Valid()
      ensures Stamped(trades, 0, tradeId, clock)
      // the incoming order is stored, filled by the traded total, with its refreshed status
      ensures order.id in orders && orders[order.id] == RefreshStatus(Taken(order, trades))
      // the trades, the resting orders and the opposing side are as matching left them
      ensures MatchResult(MatchCtx(order, old(Opposing(order.side)), old(orders), pair), trades,
                          Opposing(order.side), orders - {order.id})
      // only a Good Till Cancelled limit order with quantity left rests
      ensures Own(order.side) == Rested(old(Own(order.side)), orders[order.id])
    {
      var s := order.side;
      var taker, levels, book;
      trades, taker, levels, book := MatchAgainst(order, Opposing(s), orders, tradeId, clock);
      StoreIncoming(MatchCtx(order, Opposing(s), orders, pair), trades, levels, book, Own(s));
      Conclude(RefreshStatus(taker), levels, book);
    }

    /** The end of match_order: the incoming order, as matching left it, is
        stored, the opposing side is written back, and the order rests on
        its own side when Good Till Cancelled with quantity left. */
    method Conclude(final: Order, levels: map<real, seq<string>>, book: map<string, Order>)
      requires final.id !in book && OrdersValid(book[final.id := final])
      requires LevelsValid(levels, final.side.Opposite(), book[final.id := final])
      requires LevelsValid(Rested(Own(final.side), final), final.side, book[final.id := final])
      modifies this
      ensures Valid()
      ensures orders == book[final.id := final] && orders - {final.id} == book
      ensures Opposing(final.side) == levels
      ensures Own(final.side) == Rested(old(Own(final.side)), final)
    {
      RemoveStored(book, final.id, final);
      orders := book[final.id := final];
      SetOpposing(final.side, levels);
      if final.Remaining() > 0.0 && final.tif == GTC {
        AddOrderToBook(final);
      }
    }

    /** Writes back the levels an incoming order of side s traded against. */
    method SetOpposing(s: Side, levels: map<real, seq<string>>)
      modifies this`bids, this`asks
      ensures Opposing(s) == levels && Own(s) == old(Own(s))
    {
      if s == Buy {
        asks := levels;
      } else {
        bids := levels;
      }
    }

    /** cancel_order: an unknown id is ignored; only the owner may cancel
        ("Unauthorized" otherwise); the order is marked Cancelled, whatever its
        state, and taken out of its price level when its price is truthy. */
    method CancelOrder(id: string, user: string) returns (r: Result<(), string>)
      requires Valid()
      modifies this`orders, this`bids, this`asks
      ensures Valid()
      ensures id !in old(orders) ==>
        r.Success? && orders == old(orders) && bids == old(bids) && asks == old(asks)
      ensures id in old(orders) && old(orders)[id].user != user ==>
        r == Failure("Unauthorized") && orders == old(orders) && bids == old(bids) && asks == old(asks)
      ensures id in old(orders) && old(orders)[id].user == user ==>
        var o := old(orders)[id];
        && r.Success?
        && orders == old(orders)[id := o.(status := Cancelled)]
        && Own(o.side) == (if o.PriceTruthy() then RemoveFromLevel(old(Own(o.side)), o.Limit().value, id) else old(Own(o.side)))
        && Opposing(o.side) == old(Opposing(o.side))
      // a cancelled order with a truthy price is left in no level of either side
      ensures id in old(orders) && old(orders)[id].user == user && old(orders)[id].PriceTruthy() ==>
        (forall p :: p in bids ==> id !in bids[p]) && (forall p :: p in asks ==> id !in asks[p])
    {
      if id !in orders {
        return Success(());
      }
      var o := orders[id];
      if o.user != user {
        return Failure("Unauthorized");
      }
      StatusKeepsLevels(bids, Buy, orders, id, Cancelled);
      StatusKeepsLevels(asks, Sell, orders, id, Cancelled);
      orders := orders[id := o.(status := Cancelled)];
      if o.PriceTruthy() {
        var p := o.Limit().value;
        CancelledLeavesBook(Own(o.side), o.side, orders, id);
        NotOnOtherSide(Opposing(o.side), o.side.Opposite(), orders, id);
        if o.side == Buy {
          RemoveValid(bids, Buy, orders, p, id);
          bids := RemoveFromLevel(bids, p, id);
        } else {
          RemoveValid(asks, Sell, orders, p, id);
          asks := RemoveFromLevel(asks, p, id);
        }
      }
      return Success(());
    }

    /** get_snapshot: the top 20 bids, highest first, and the top 20 asks,
        lowest first, each with the total quantity left at its level; `now`
        stands for the clock reading. */
    method GetSnapshot(now: int) returns (r: Snapshot)
      ensures r.pair == pair && r.timestamp == now
      ensures TopOf(r.bids, bids, Sell, orders)
      ensures TopOf(r.asks, asks, Buy, orders)
    {
      var b := TopLevels(bids, Sell, orders);
      var a := TopLevels(asks, Buy, orders);
      r := Snapshot(pair, b, a, now);
    }
  }
}
