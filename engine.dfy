/** The matching engine in front of the order book
    (matching-engine/src/engine.py): lazy initialisation from the settlement
    contract, asset-pair admission, the vault-balance check against a cache
    of balances, and the local balance updates after each trade. */
module Engine {
  import opened Wrappers
  import opened Numbers
  import opened Types
  import opened Book
  import opened Text

  /** A failure raised by a call into the Stellar service; the balance check
      re-raises a ValueError and swallows anything else. */
  datatype Fault = ValueError(msg: string) | OtherError(msg: string)

  /** The Stellar service as the engine sees it: the two supported assets the
      contract reports, the asset-string to contract-address derivation, and
      the vault balance the contract holds for a (user, asset). */
  datatype Oracle = Oracle(
    assetA: Result<string, Fault>,
    assetB: Result<string, Fault>,
    contractAddress: string -> Result<string, string>,
    vaultBalance: (string, string) -> Result<int, Fault>)

  datatype EngineError =
    | AddressError(msg: string)                        // get_contract_address raised
    | UnsupportedPair                                  // "Unsupported asset pair"
    | InsufficientBalance(balance: int, required: int) // "Insufficient vault balance"
    | BalanceFault(msg: string)                        // a ValueError from the balance lookup
    | NotInitialized                                   // the order book is still None
    | Unauthorized                                     // cancel by someone other than the owner

  /** The key of the balance cache: user and asset joined by a colon. */
  function CacheKey(user: string, asset: string): string {
    user + ":" + asset
  }

  /** Users are Stellar addresses, which hold no colon: the key then names
      exactly one (user, asset). */
  lemma {:induction false} CacheKeyInjective(u: string, a: string, u': string, a': string)
    requires ':' !in u && ':' !in u'
    requires CacheKey(u, a) == CacheKey(u', a')
    ensures u == u' && a == a'
  {
    SplitAroundUnique(u, a, u', a', ':');
  }

  /** How an order's contract pair compares with the configured one. */
  datatype PairVerdict = Direct | Reversed | Unsupported

  function CheckPair(bc: string, qc: string, base: Option<string>, quote: Option<string>): (v: PairVerdict)
    ensures v != Unsupported <==> (Some(bc), Some(qc)) in {(base, quote), (quote, base)}
    ensures v == Reversed ==> Some(bc) == quote && Some(qc) == base
  {
    if Some(bc) == base && Some(qc) == quote then Direct
    else if Some(bc) == quote && Some(qc) == base then Reversed
    else Unsupported
  }

  /** The asset whose balance backs an order: the quote asset for a Buy, the
      base asset for a Sell. */
  function RequiredAsset(side: Side, base: string, quote: string): string {
    if side == Buy then quote else base
  }

  /** What an order needs in its required asset, in whole units: quantity
      times price for a Buy with a truthy price, nothing for any other Buy,
      the quantity for a Sell. */
  function RequiredAmount(o: Order): real {
    if o.side == Buy then
      (if o.PriceTruthy() then o.Qty() * o.price.value.Value() else 0.0)
    else o.Qty()
  }

  /** The required amount in minor units (10^7 per unit), cut toward zero. */
  function RequiredMinor(o: Order): (r: int)
    ensures RequiredAmount(o) >= 0.0 ==> 0 <= r && r as real <= RequiredAmount(o) * MinorUnitScale < r as real + 1.0
    ensures o.side == Buy && !o.PriceTruthy() ==> r == 0
  {
    Trunc(RequiredAmount(o) * MinorUnitScale)
  }

  /** _update_local_balance: adds delta to a cached key; an absent key is
      left absent. */
  function Credit(bal: map<string, int>, key: string, delta: int): (r: map<string, int>)
    ensures r.Keys == bal.Keys
    ensures forall k :: k in bal ==> r[k] == bal[k] + (if k == key then delta else 0)
  {
    if key in bal then bal[key := bal[key] + delta] else bal
  }

  /** The amounts a trade moves, in minor units: the base quantity and the
      quote value, each cut toward zero. */
  function BaseMinor(t: Trade): int {
    Trunc(t.quantity * MinorUnitScale)
  }

  function QuoteMinor(t: Trade): int {
    Trunc(t.quantity * t.price * MinorUnitScale)
  }

  /** _process_trade on the cache: the buyer gains base and pays quote, the
      seller gives base and receives quote. */
  function ApplyTrade(bal: map<string, int>, t: Trade, base: string, quote: string): map<string, int> {
    var b1 := Credit(bal, CacheKey(t.buyUser, base), BaseMinor(t));
    var b2 := Credit(b1, CacheKey(t.buyUser, quote), -QuoteMinor(t));
    var b3 := Credit(b2, CacheKey(t.sellUser, base), -BaseMinor(t));
    Credit(b3, CacheKey(t.sellUser, quote), QuoteMinor(t))
  }

  /** The trades applied in order. */
  function ApplyTrades(bal: map<string, int>, ts: seq<Trade>, base: string, quote: string): map<string, int>
    decreases |ts|
  {
    if |ts| == 0 then bal else ApplyTrade(ApplyTrades(bal, ts[..|ts| - 1], base, quote), ts[|ts| - 1], base, quote)
  }

  /** The combined cached balance of two keys (one balance if they coincide). */
  function PairTotal(bal: map<string, int>, k1: string, k2: string): int
    requires k1 in bal && k2 in bal
  {
    if k1 == k2 then bal[k1] else bal[k1] + bal[k2]
  }

  /** Trades never add a key to the cache nor remove one. */
  lemma {:induction false} ApplyTradesKeys(bal: map<string, int>, ts: seq<Trade>, base: string, quote: string)
    ensures ApplyTrades(bal, ts, base, quote).Keys == bal.Keys
    decreases |ts|
  {
    if |ts| > 0 {
      ApplyTradesKeys(bal, ts[..|ts| - 1], base, quote);
    }
  }

  /** A key that is no party's key for either asset keeps its balance. */
  lemma {:induction false} ApplyTradesOthers(bal: map<string, int>, ts: seq<Trade>, base: string, quote: string, k: string)
    requires k in bal
    requires forall i :: 0 <= i < |ts| ==>
      k !in {CacheKey(ts[i].buyUser, base), CacheKey(ts[i].buyUser, quote), CacheKey(ts[i].sellUser, base), CacheKey(ts[i].sellUser, quote)}
    ensures k in ApplyTrades(bal, ts, base, quote) && ApplyTrades(bal, ts, base, quote)[k] == bal[k]
    decreases |ts|
  {
    if |ts| > 0 {
      ApplyTradesOthers(bal, ts[..|ts| - 1], base, quote, k);
      ApplyTradesKeys(bal, ts[..|ts| - 1], base, quote);
    }
  }

  /** When both parties' keys for an asset of the pair are cached, a trade
      moves value between them and leaves their total unchanged. */
  lemma {:induction false} TradeConservesAsset(bal: map<string, int>, t: Trade, base: string, quote: string, asset: string)
    requires asset == base || asset == quote
    requires ':' !in t.buyUser && ':' !in t.sellUser
    requires CacheKey(t.buyUser, asset) in bal && CacheKey(t.sellUser, asset) in bal
    ensures var r := ApplyTrade(bal, t, base, quote);
      PairTotal(r, CacheKey(t.buyUser, asset), CacheKey(t.sellUser, asset))
      == PairTotal(bal, CacheKey(t.buyUser, asset), CacheKey(t.sellUser, asset))
  {
    var other := if asset == base then quote else base;
    var kb, ks := CacheKey(t.buyUser, asset), CacheKey(t.sellUser, asset);
    var kb', ks' := CacheKey(t.buyUser, other), CacheKey(t.sellUser, other);
    if kb == kb' { CacheKeyInjective(t.buyUser, asset, t.buyUser, other); }
    if kb == ks' { CacheKeyInjective(t.buyUser, asset, t.sellUser, other); }
    if ks == kb' { CacheKeyInjective(t.sellUser, asset, t.buyUser, other); }
    if ks == ks' { CacheKeyInjective(t.sellUser, asset, t.sellUser, other); }
  }

  /** The cache after the balance check looked up key: a miss stores what
      was fetched, when the fetch did not fail. */
  function Cached(bal: map<string, int>, key: string, fetched: Result<int, Fault>): (r: map<string, int>)
    ensures r.Keys == bal.Keys + (if key !in bal && fetched.Success? then {key} else {})
    ensures forall k :: k in bal ==> r[k] == bal[k]
  {
    if key in bal || fetched.Failure? then bal else bal[key := fetched.value]
  }

  class MatchingEngine {
    var book: OrderBook?
    var base: Option<string>
    var quote: Option<string>
    /** Cached vault balances in minor units, keyed by CacheKey. */
    var balances: map<string, int>
    var initialized: bool

    /** The quote asset (and the book) exist exactly once initialisation
        completed; the book trades the configured pair. */
    ghost predicate Valid()
      reads this, book
    {
      && (initialized <==> quote.Some?)
      && (initialized <==> book != null)
      && (initialized ==> base.Some? && book.Valid() && book.pair == AssetPair(base.value, quote.value))
    }

    /** The orders of the book, none before there is one. */
    function Orders(): map<string, Order>
      reads this, book
    {
      if book == null then map[] else book.orders
    }

    function Bids(): map<real, seq<string>>
      reads this, book
    {
      if book == null then map[] else book.bids
    }

    function Asks(): map<real, seq<string>>
      reads this, book
    {
      if book == null then map[] else book.asks
    }

    /** The levels an order of side s rests on. */
    function OwnLevels(s: Side): map<real, seq<string>>
      reads this, book
    {
      if s == Buy then Bids() else Asks()
    }

    /** The levels an incoming order of side s trades against. */
    function OpposingLevels(s: Side): map<real, seq<string>>
      reads this, book
    {
      if s == Buy then Asks() else Bids()
    }

    constructor ()
      ensures Valid()
      ensures book == null && base == None && quote == None && balances == map[] && !initialized
    {
      book, base, quote, balances, initialized := null, None, None, map[], false;
    }

    /** initialize: does nothing once initialised; otherwise reads asset A,
        then asset B, and creates the book. A failure is swallowed and keeps
        what was already assigned, to be retried by the next call. */
    method Initialize(o: Oracle)
      requires Valid()
      modifies this
      ensures Valid()
      ensures balances == old(balances)
      ensures old(initialized) ==> initialized && book == old(book) && base == old(base) && quote == old(quote)
      ensures !old(initialized) ==>
        && base == (if o.assetA.Success? then Some(o.assetA.value) else old(base))
        && (initialized <==> o.assetA.Success? && o.assetB.Success?)
      ensures !old(initialized) && initialized ==>
        && quote == Some(o.assetB.value) && fresh(book)
        && book.orders == map[] && book.bids == map[] && book.asks == map[]
    {
      if initialized {
        return;
      }
      if o.assetA.Failure? {
        return;
      }
      base := Some(o.assetA.value);
      if o.assetB.Failure? {
        return;
      }
      quote := Some(o.assetB.value);
      book := new OrderBook(AssetPair(base.value, quote.value));
      initialized := true;
    }

    /** _update_local_balance. */
    method UpdateLocalBalance(user: string, asset: string, delta: int)
      modifies this`balances
      ensures balances == Credit(old(balances), CacheKey(user, asset), delta)
    {
      var key := CacheKey(user, asset);
      if key in balances {
        balances := balances[key := balances[key] + delta];
      }
    }

    /** _process_trade. */
    method ProcessTrade(t: Trade, base: string, quote: string)
      modifies this`balances
      ensures balances == ApplyTrade(old(balances), t, base, quote)
    {
      var baseAmt := BaseMinor(t);
      var quoteAmt := QuoteMinor(t);
      UpdateLocalBalance(t.buyUser, base, baseAmt);
      UpdateLocalBalance(t.buyUser, quote, -quoteAmt);
      UpdateLocalBalance(t.sellUser, base, -baseAmt);
      UpdateLocalBalance(t.sellUser, quote, quoteAmt);
    }

    /** The loop of submit_order over the trades. */
    method ProcessTrades(ts: seq<Trade>, base: string, quote: string)
      modifies this`balances
      ensures balances == ApplyTrades(old(balances), ts, base, quote)
    {
      var i := 0;
      while i < |ts|
        invariant 0 <= i <= |ts|
        invariant balances == ApplyTrades(old(balances), ts[..i], base, quote)
      {
        ProcessTrade(ts[i], base, quote);
        assert ts[..i + 1][..i] == ts[..i];
        i := i + 1;
      }
      assert ts[..i] == ts;
    }

    /** _check_balance for an order needing `asset`: the cached balance when
        the key is cached, otherwise one fetched and cached (even when the
        check then fails). A ValueError from the lookup is re-raised, any
        other failure is logged and the order goes on. */
    method CheckBalance(order: Order, asset: string, o: Oracle) returns (r: Result<(), EngineError>)
      modifies this`balances
      ensures var key := CacheKey(order.user, asset);
        var fetched := o.vaultBalance(order.user, asset);
        && balances == Cached(old(balances), key, fetched)
        && (key in old(balances) || fetched.Success? ==>
              var bal := if key in old(balances) then old(balances)[key] else fetched.value;
              r == if bal < RequiredMinor(order) then Failure(InsufficientBalance(bal, RequiredMinor(order))) else Success(()))
        && (key !in old(balances) && fetched.Failure? ==>
              r == if fetched.error.ValueError? then Failure(BalanceFault(fetched.error.msg)) else Success(()))
    {
      var key := CacheKey(order.user, asset);
      var balance;
      if key in balances {
        balance := balances[key];
      } else {
        var fetched := o.vaultBalance(order.user, asset);
        if fetched.Failure? {
          if fetched.error.ValueError? {
            return Failure(BalanceFault(fetched.error.msg));
          }
          return Success(());
        }
        balance := fetched.value;
        balances := balances[key := balance];
      }
      var required := Trunc(RequiredAmount(order) * MinorUnitScale);
      if balance < required {
        return Failure(InsufficientBalance(balance, required));
      }
      return Success(());
    }

    /** submit_order: initialise when needed, admit the order's pair (in
        either order, a reversed pair being taken as it is), check the vault
        balance, match, then update the cached balances trade by trade. */
    method SubmitOrder(order: Order, o: Oracle, tradeId: nat -> string, clock: nat -> int)
      returns (r: Result<seq<Trade>, EngineError>)
      requires Valid()
      requires 0.0 <= order.filled <= order.Qty()
      requires order.id !in Orders()
      modifies this, book
      ensures Valid()
      ensures initialized <==> old(initialized) || (o.assetA.Success? && o.assetB.Success?)
      ensures old(initialized) ==> book == old(book) && base == old(base) && quote == old(quote)
      ensures var bc := o.contractAddress(order.pair.base);
        var qc := o.contractAddress(order.pair.quote);
        && (bc.Failure? ==> r == Failure(AddressError(bc.error)) && balances == old(balances))
        && (bc.Success? && qc.Failure? ==> r == Failure(AddressError(qc.error)) && balances == old(balances))
        && (bc.Success? && qc.Success? && CheckPair(bc.value, qc.value, base, quote) == Unsupported ==>
              r == Failure(UnsupportedPair) && balances == old(balances))
        && (bc.Success? && qc.Success? && CheckPair(bc.value, qc.value, base, quote) != Unsupported ==>
              var asset := RequiredAsset(order.side, base.value, quote.value);
              var key := CacheKey(order.user, asset);
              var fetched := o.vaultBalance(order.user, asset);
              var cached := Cached(old(balances), key, fetched);
              && (r.Failure? ==> balances == cached)
              && (r.Success? ==> balances == ApplyTrades(cached, r.value, base.value, quote.value))
              && (r.Failure? <==>
                    (key in old(balances) && old(balances)[key] < RequiredMinor(order)) ||
                    (key !in old(balances) && fetched.Success? && fetched.value < RequiredMinor(order)) ||
                    (key !in old(balances) && fetched.Failure? && fetched.error.ValueError?)))
      // a rejected order leaves the book as it was; an accepted one is stored,
      // filled by what it traded
      ensures r.Failure? ==> Orders() == old(Orders()) && Bids() == old(Bids()) && Asks() == old(Asks())
      ensures r.Success? ==> order.id in Orders() && Orders()[order.id] == RefreshStatus(Taken(order, r.value))
      // an accepted order's trades, resting orders and levels are the book's match
      ensures r.Success? ==>
        && initialized
        && Stamped(r.value, 0, tradeId, clock)
        && MatchResult(MatchCtx(order, old(OpposingLevels(order.side)), old(Orders()), AssetPair(base.value, quote.value)),
                       r.value, OpposingLevels(order.side), Orders() - {order.id})
        && OwnLevels(order.side) == Rested(old(OwnLevels(order.side)), Orders()[order.id])
    {
      if !initialized {
        Initialize(o);
      }
      var bc := o.contractAddress(order.pair.base);
      if bc.Failure? {
        return Failure(AddressError(bc.error));
      }
      var qc := o.contractAddress(order.pair.quote);
      if qc.Failure? {
        return Failure(AddressError(qc.error));
      }
      if CheckPair(bc.value, qc.value, base, quote) == Unsupported {
        return Failure(UnsupportedPair);
      }
      var asset := RequiredAsset(order.side, base.value, quote.value);
      var checked := CheckBalance(order, asset, o);
      if checked.Failure? {
        return Failure(checked.error);
      }
      var trades := book.MatchOrder(order, tradeId, clock);
      ProcessTrades(trades, base.value, quote.value);
      return Success(trades);
    }

    /** cancel_order: initialise when needed, then cancel in the book. */
    method CancelOrder(id: string, user: string, o: Oracle) returns (r: Result<(), EngineError>)
      requires Valid()
      modifies this, book
      ensures Valid()
      ensures initialized <==> old(initialized) || (o.assetA.Success? && o.assetB.Success?)
      ensures balances == old(balances)
      ensures !initialized ==> r == Failure(NotInitialized)
      ensures r == Failure(Unauthorized) <==> id in old(Orders()) && old(Orders())[id].user != user
      ensures r.Failure? ==> Orders() == old(Orders()) && Bids() == old(Bids()) && Asks() == old(Asks())
      ensures id !in old(Orders()) ==> Orders() == old(Orders()) && Bids() == old(Bids()) && Asks() == old(Asks())
      ensures r.Success? && id in old(Orders()) ==>
        var c := old(Orders())[id];
        && Orders() == old(Orders())[id := c.(status := Cancelled)]
        && OwnLevels(c.side) == (if c.PriceTruthy() then RemoveFromLevel(old(OwnLevels(c.side)), c.Limit().value, id)
                                 else old(OwnLevels(c.side)))
        && OpposingLevels(c.side) == old(OpposingLevels(c.side))
      // a cancelled order with a truthy price is left in no level of either side
      ensures r.Success? && id in old(Orders()) && old(Orders())[id].PriceTruthy() ==>
        (forall p :: p in Bids() ==> id !in Bids()[p]) && (forall p :: p in Asks() ==> id !in Asks()[p])
    {
      if !initialized {
        Initialize(o);
      }
      if book == null {
        return Failure(NotInitialized);
      }
      var c := book.CancelOrder(id, user);
      if c.Failure? {
        return Failure(Unauthorized);
      }
      return Success(());
    }

    /** get_order: initialise when needed, then look the order up. */
    method GetOrder(id: string, o: Oracle) returns (r: Result<Option<Order>, EngineError>)
      requires Valid()
      modifies this
      ensures Valid()
      ensures initialized <==> old(initialized) || (o.assetA.Success? && o.assetB.Success?)
      ensures Orders() == old(Orders()) && Bids() == old(Bids()) && Asks() == old(Asks()) && balances == old(balances)
      ensures !initialized ==> r == Failure(NotInitialized)
      ensures initialized ==> r.Success? && (r.value.Some? <==> id in Orders())
      ensures initialized && r.value.Some? ==> r.value.value == Orders()[id]
    {
      if !initialized {
        Initialize(o);
      }
      if book == null {
        return Failure(NotInitialized);
      }
      return Success(book.GetOrder(id));
    }

    /** get_orderbook_snapshot: initialise when needed, then aggregate. */
    method GetSnapshot(o: Oracle, now: int) returns (r: Result<Snapshot, EngineError>)
      requires Valid()
      modifies this
      ensures Valid()
      ensures initialized <==> old(initialized) || (o.assetA.Success? && o.assetB.Success?)
      ensures Orders() == old(Orders()) && Bids() == old(Bids()) && Asks() == old(Asks()) && balances == old(balances)
      ensures !initialized ==> r == Failure(NotInitialized)
      ensures initialized ==> r.Success? && r.value.pair == AssetPair(base.value, quote.value) && r.value.timestamp == now
      ensures initialized ==> TopOf(r.value.bids, Bids(), Sell, Orders()) && TopOf(r.value.asks, Asks(), Buy, Orders())
    {
      if !initialized {
        Initialize(o);
      }
      if book == null {
        return Failure(NotInitialized);
      }
      var s := book.GetSnapshot(now);
      return Success(s);
    }
  }
}
