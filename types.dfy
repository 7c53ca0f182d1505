/** The engine's records and enumerations (matching-engine/src/types.py). */
module Types {
  import opened Wrappers
  import opened Numbers

  datatype Side = Buy | Sell {
    /** The enum's string value, the token written into signed messages. */
    function Text(): string {
      match this
      case Buy => "Buy"
      case Sell => "Sell"
    }
    function Opposite(): Side {
      if Buy? then Sell else Buy
    }
  }

  /** Carried and signed, but never read by the matching algorithm: a
      "market" order is simply one whose price is None. */
  datatype OrderType = Limit | Market {
    function Text(): string {
      match this
      case Limit => "Limit"
      case Market => "Market"
    }
  }

  datatype TimeInForce = GTC | IOC | FOK {
    function Text(): string {
      match this
      case GTC => "GTC"
      case IOC => "IOC"
      case FOK => "FOK"
    }
  }

  datatype OrderStatus = Pending | PartiallyFilled | Filled | Cancelled | Expired | Rejected

  /** Frozen model: a value, compared by its two fields. */
  datatype AssetPair = AssetPair(base: string, quote: string)

  datatype Order = Order(
    id: string,
    user: string,
    pair: AssetPair,
    side: Side,
    kind: OrderType,
    price: Option<Decimal>,
    quantity: Decimal,
    filled: real,
    tif: TimeInForce,
    timestamp: int,
    expiration: Option<int>,
    signature: string,
    status: OrderStatus)
  {
    function Qty(): real { quantity.Value() }
    function Remaining(): real { quantity.Value() - filled }
    /** The limit as a number, None for a market order. */
    function Limit(): Option<real> {
      if price.Some? then Some(price.value.Value()) else None
    }
    /** Python truthiness of `order.price`: None and zero are false. */
    predicate PriceTruthy() {
      price.Some? && price.value.Value() != 0.0
    }
  }

  /** Order(...) with only the required fields given: every defaulted field
      takes its declared default. */
  function NewOrder(id: string, user: string, pair: AssetPair, side: Side, kind: OrderType,
                    quantity: Decimal, tif: TimeInForce, timestamp: int): (o: Order)
    ensures o.filled == 0.0 && o.status == Pending
    ensures o.price == None && o.expiration == None && o.signature == ""
    ensures o.id == id && o.user == user && o.pair == pair && o.side == side && o.kind == kind
    ensures o.quantity == quantity && o.tif == tif && o.timestamp == timestamp
    ensures o.Remaining() == o.Qty()
  {
    Order(id, user, pair, side, kind, None, quantity, 0.0, tif, timestamp, None, "", Pending)
  }

  datatype Trade = Trade(
    tradeId: string,
    buyOrderId: string,
    sellOrderId: string,
    price: real,
    quantity: real,
    buyUser: string,
    sellUser: string,
    pair: AssetPair,
    timestamp: int)

  /** What the engine hands to the settlement service; amounts are integers
      in minor units, fees default to 0. */
  datatype SettlementInstruction = SettlementInstruction(
    tradeId: string,
    buyUser: string,
    sellUser: string,
    baseAsset: string,
    quoteAsset: string,
    baseAmount: int,
    quoteAmount: int,
    feeBase: int,
    feeQuote: int,
    timestamp: int)

  datatype PriceLevel = PriceLevel(price: real, quantity: real)

  datatype Snapshot = Snapshot(pair: AssetPair, bids: seq<PriceLevel>, asks: seq<PriceLevel>, timestamp: int)
}
