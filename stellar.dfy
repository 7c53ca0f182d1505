/** The pure parts of the engine's Stellar service
    (matching-engine/src/stellar.py): the canonical order message and its
    SEP-0053 signature check, asset and contract-address normalisation, and
    the trade-id and amount conversions that build the settlement call.
    SHA-256, base64, Ed25519, strkey and contract-id derivation are
    parameters. */
module Stellar {
  import opened Wrappers
  import opened Numbers
  import opened Text
  import opened Types

  // ---------------------------------------------------------------------
  // The canonical order message
  // ---------------------------------------------------------------------

  /** The segments before the quantity: identity, pair, side, type and the
      price when there is one. */
  function HeadFields(o: Order): seq<string> {
    ["order_id:" + o.id,
     "user:" + o.user,
     "pair:" + o.pair.base + "/" + o.pair.quote,
     "side:" + o.side.Text(),
     "type:" + o.kind.Text()]
    + (if o.price.Some? then ["price:" + DecimalText(o.price.value)] else [])
  }

  /** The segments after the quantity: time in force, timestamp and the
      expiration when there is one. */
  function TailFields(o: Order): seq<string> {
    ["tif:" + o.tif.Text(), "timestamp:" + IntText(o.timestamp)]
    + (if o.expiration.Some? then ["expiration:" + IntText(o.expiration.value)] else [])
  }

  /** The `key:value` segments in their fixed order. Price and quantity are
      written as str(Decimal), so their exponent shows. */
  function OrderFields(o: Order): seq<string> {
    HeadFields(o) + ["quantity:" + DecimalText(o.quantity)] + TailFields(o)
  }

  /** The signed message: the segments joined by '|'. */
  function OrderMessage(o: Order): string {
    Join(OrderFields(o), "|")
  }

  /** create_order_message: the segments appended to a list one by one, then
      joined. */
  method CreateOrderMessage(o: Order) returns (msg: string)
    ensures msg == OrderMessage(o)
  {
    var parts: seq<string> := [];
    parts := parts + ["order_id:" + o.id];
    parts := parts + ["user:" + o.user];
    parts := parts + ["pair:" + o.pair.base + "/" + o.pair.quote];
    parts := parts + ["side:" + o.side.Text()];
    parts := parts + ["type:" + o.kind.Text()];
    if o.price.Some? {
      parts := parts + ["price:" + DecimalText(o.price.value)];
    }
    assert parts == HeadFields(o);
    parts := parts + ["quantity:" + DecimalText(o.quantity)];
    parts := parts + ["tif:" + o.tif.Text()];
    parts := parts + ["timestamp:" + IntText(o.timestamp)];
    if o.expiration.Some? {
      parts := parts + ["expiration:" + IntText(o.expiration.value)];
    }
    assert parts == OrderFields(o);
    msg := Join(parts, "|");
  }

  /** A `price:` segment is present exactly when the order has a price, and
      an `expiration:` segment exactly when it has an expiration. */
  lemma OptionalSegments(o: Order)
    ensures (exists i :: 0 <= i < |OrderFields(o)| && "price:" <= OrderFields(o)[i]) <==> o.price.Some?
    ensures (exists i :: 0 <= i < |OrderFields(o)| && "expiration:" <= OrderFields(o)[i]) <==> o.expiration.Some?
  {
    var f := OrderFields(o);
    var h := |HeadFields(o)|;
    if o.price.Some? {
      assert "price:" <= f[5];
    }
    if o.expiration.Some? {
      assert "expiration:" <= f[h + 3];
    }
    forall i | 0 <= i < |f| && "price:" <= f[i] ensures o.price.Some? {
      assert f[i][0] == 'p' && f[i][1] == 'r';
      if i == 2 {
        assert f[i][1] == 'a';
      }
    }
    forall i | 0 <= i < |f| && "expiration:" <= f[i] ensures o.expiration.Some? {
      assert f[i][0] == 'e';
    }
  }

  lemma JoinAround(xs: seq<string>, q: string, ys: seq<string>, sep: string)
    requires |xs| >= 1 && |ys| >= 1
    ensures Join(xs + [q] + ys, sep) == Join(xs, sep) + sep + q + sep + Join(ys, sep)
  {
    JoinAppend(xs + [q], ys, sep);
    JoinAppend(xs, [q], sep);
  }

  /** The message seen as the text around the quantity segment. */
  lemma MessageAroundQuantity(o: Order)
    ensures OrderMessage(o) ==
              Join(HeadFields(o), "|") + "|" + ("quantity:" + DecimalText(o.quantity)) + "|" + Join(TailFields(o), "|")
  {
    JoinAround(HeadFields(o), "quantity:" + DecimalText(o.quantity), TailFields(o), "|");
  }

  /** With every other field fixed, two quantities give the same message
      exactly when they print the same: a signature over one quantity text
      does not cover another. */
  lemma {:induction false} QuantityChangesMessage(o: Order, q: Decimal)
    ensures OrderMessage(o.(quantity := q)) == OrderMessage(o) <==> DecimalText(q) == DecimalText(o.quantity)
  {
    var t := o.(quantity := q);
    MessageAroundQuantity(o);
    MessageAroundQuantity(t);
    assert HeadFields(t) == HeadFields(o) && TailFields(t) == TailFields(o);
    var p := Join(HeadFields(o), "|") + "|";
    var qo, qt := "quantity:" + DecimalText(o.quantity), "quantity:" + DecimalText(q);
    if OrderMessage(t) == OrderMessage(o) {
      assert |qt| == |qo|;
      assert qt == OrderMessage(t)[|p|..|p| + |qt|];
      assert qo == OrderMessage(o)[|p|..|p| + |qo|];
      assert DecimalText(q) == qt[9..] && DecimalText(o.quantity) == qo[9..];
    }
  }

  /** Quantity 1.50 and quantity 1.5 are the same number but are signed as
      different messages. */
  lemma TrailingZeroChangesMessage(o: Order)
    requires o.quantity == Decimal(false, 15, -1)
    ensures o.(quantity := Decimal(false, 150, -2)).Qty() == o.Qty()
    ensures OrderMessage(o.(quantity := Decimal(false, 150, -2))) != OrderMessage(o)
  {
    TrailingZeroKeepsText();
    QuantityChangesMessage(o, Decimal(false, 150, -2));
  }

  /** The order of the message test: a priced GTC buy without expiration. */
  function SampleOrder(): Order {
    Order("test-123", "GAXYZ...", AssetPair("XLM", "USDC"), Buy, Limit,
          Some(Decimal(false, 15, -1)), Decimal(false, 100, 0), 0.0, GTC, 1234567890,
          None, "sig", Pending)
  }

  lemma SampleTimestamp()
    ensures IntText(1234567890) == "1234567890"
  {
    DigitsAppend(1, 2);
    DigitsAppend(12, 3);
    DigitsAppend(123, 4);
    DigitsAppend(1234, 5);
    DigitsAppend(12345, 6);
    DigitsAppend(123456, 7);
    DigitsAppend(1234567, 8);
    DigitsAppend(12345678, 9);
    DigitsAppend(123456789, 0);
  }

  lemma SampleHead()
    ensures HeadFields(SampleOrder()) ==
              ["order_id:test-123", "user:GAXYZ...", "pair:XLM/USDC", "side:Buy", "type:Limit", "price:1.5"]
  {
    assert DecimalText(Decimal(false, 15, -1)) == "1.5" by { TrailingZeroKeepsText(); }
    var h := HeadFields(SampleOrder());
    assert h[0] == "order_id:test-123" && h[1] == "user:GAXYZ..." && h[2] == "pair:XLM/USDC";
    assert h[3] == "side:Buy" && h[4] == "type:Limit" && h[5] == "price:1.5";
  }

  lemma SampleTail()
    ensures TailFields(SampleOrder()) == ["tif:GTC", "timestamp:1234567890"]
  {
    SampleTimestamp();
    var t := TailFields(SampleOrder());
    assert t[0] == "tif:GTC" && t[1] == "timestamp:1234567890";
  }

  lemma SampleQuantity()
    ensures DecimalText(Decimal(false, 100, 0)) == "100"
  {
    assert Digits(100) == "100";
  }

  lemma SampleFields()
    ensures OrderFields(SampleOrder()) ==
              ["order_id:test-123", "user:GAXYZ...", "pair:XLM/USDC", "side:Buy", "type:Limit",
               "price:1.5", "quantity:100", "tif:GTC", "timestamp:1234567890"]
  {
    SampleHead();
    SampleTail();
    SampleQuantity();
    var f := OrderFields(SampleOrder());
    assert |f| == 9;
    assert f[6] == "quantity:100" && f[7] == "tif:GTC" && f[8] == "timestamp:1234567890";
  }

  /** A list of nine segments joined: each segment, then the separator. */
  lemma JoinNine(f: seq<string>, sep: string)
    requires |f| == 9
    ensures Join(f, sep) == f[0] + sep + (f[1] + sep + (f[2] + sep + (f[3] + sep + (f[4] + sep +
                            (f[5] + sep + (f[6] + sep + (f[7] + sep + f[8])))))))
  {
    assert Join(f[8..], sep) == f[8];
    assert f[7..][1..] == f[8..];
    assert Join(f[7..], sep) == f[7] + sep + Join(f[8..], sep);
    assert f[6..][1..] == f[7..];
    assert Join(f[6..], sep) == f[6] + sep + Join(f[7..], sep);
    assert f[5..][1..] == f[6..];
    assert Join(f[5..], sep) == f[5] + sep + Join(f[6..], sep);
    assert f[4..][1..] == f[5..];
    assert Join(f[4..], sep) == f[4] + sep + Join(f[5..], sep);
    assert f[3..][1..] == f[4..];
    assert Join(f[3..], sep) == f[3] + sep + Join(f[4..], sep);
    assert f[2..][1..] == f[3..];
    assert Join(f[2..], sep) == f[2] + sep + Join(f[3..], sep);
    assert f[1..][1..] == f[2..];
    assert Join(f[1..], sep) == f[1] + sep + Join(f[2..], sep);
  }

  /** The message of the signature test vector. */
  lemma SampleMessage()
    ensures OrderMessage(SampleOrder()) ==
              "order_id:test-123" + "|" + ("user:GAXYZ..." + "|" + ("pair:XLM/USDC" + "|" + ("side:Buy" + "|" +
              ("type:Limit" + "|" + ("price:1.5" + "|" + ("quantity:100" + "|" + ("tif:GTC" + "|" +
              "timestamp:1234567890")))))))
  {
    SampleFields();
    JoinNine(OrderFields(SampleOrder()), "|");
  }

  // ---------------------------------------------------------------------
  // SEP-0053 signature check
  // ---------------------------------------------------------------------

  const SignedMessagePrefix := "Stellar Signed Message:\n"

  /** The foreign primitives. `verify` is false when the public key cannot
      be parsed or the signature does not check; `sign` is None when the
      secret cannot be parsed; `b64decode` is None when it raises. */
  datatype Crypto = Crypto(
    sha256: seq<byte> -> seq<byte>,
    b64decode: string -> Option<seq<byte>>,
    b64encode: seq<byte> -> string,
    verify: (string, seq<byte>, seq<byte>) -> bool,
    sign: (string, seq<byte>) -> Option<seq<byte>>)

  /** The bytes that are hashed and signed: the prefixed message in UTF-8. */
  function SignedPayload(msg: string): seq<byte> {
    Utf8(SignedMessagePrefix + msg)
  }

  /** verify_order_signature: never raises; true only when the signature
      decodes and verifies, under the claimed public key, over the SHA-256
      digest of the prefixed message. */
  method VerifyOrderSignature(o: Order, signature: string, publicKey: string, crypto: Crypto)
    returns (ok: bool)
    ensures ok <==> crypto.b64decode(signature).Some? &&
                    crypto.verify(publicKey, crypto.sha256(SignedPayload(OrderMessage(o))),
                                  crypto.b64decode(signature).value)
  {
    var message := CreateOrderMessage(o);
    var fullMessage := Utf8(SignedMessagePrefix + message);
    var digest := crypto.sha256(fullMessage);
    var sig := crypto.b64decode(signature);
    if sig.None? {
      return false;
    }
    ok := crypto.verify(publicKey, digest, sig.value);
  }

  /** The payload is the prefix's bytes followed by the message's bytes. */
  lemma PayloadSplits(msg: string)
    ensures SignedPayload(msg) == Utf8(SignedMessagePrefix) + Utf8(msg)
  {
    Utf8Append(SignedMessagePrefix, msg);
  }

  // ---------------------------------------------------------------------
  // Assets and contract addresses
  // ---------------------------------------------------------------------

  /** A stellar_sdk Asset before validation. */
  datatype AssetSpec = Native | Credit(code: string, issuer: string)

  /** asset_from_string: "XLM" or "native", else exactly one ':' splitting
      CODE and ISSUER. */
  function AssetFromString(s: string): Result<AssetSpec, string> {
    if s == "XLM" || s == "native" then Success(Native)
    else
      var parts := Split(s, ':');
      if |parts| == 2 then Success(Credit(parts[0], parts[1]))
      else Failure("Invalid asset format: " + s + ". Use 'XLM' or 'CODE:ISSUER'")
  }

  /** A credit asset is read from exactly the strings with one ':', whose
      two sides are its code and issuer. */
  lemma {:induction false} CreditAsset(s: string)
    requires s != "XLM" && s != "native"
    ensures AssetFromString(s).Success? <==> Count(s, ':') == 1
    ensures AssetFromString(s).Success? ==>
              var a := AssetFromString(s).value;
              a.Credit? && s == a.code + ":" + a.issuer && ':' !in a.code && ':' !in a.issuer
  {
    SplitPieces(s, ':');
    SplitJoin(s, ':');
    var parts := Split(s, ':');
    if |parts| == 2 {
      assert parts[1..] == [parts[1]];
      assert Join(parts, ":") == parts[0] + ":" + parts[1];
    }
  }

  /** Writing a credit asset as CODE:ISSUER and reading it back gives it
      back. */
  lemma {:induction false} CreditRoundTrip(code: string, issuer: string)
    requires ':' !in code && ':' !in issuer
    ensures AssetFromString(code + ":" + issuer) == Success(Credit(code, issuer))
  {
    var s := code + ":" + issuer;
    assert ':' in s by { assert s[|code|] == ':'; }
    assert s != "XLM" && s != "native" by {
      assert ':' !in "XLM" && ':' !in "native";
    }
    CreditAsset(s);
    CountAround(code, issuer, ':');
    var a := AssetFromString(s).value;
    SplitAroundUnique(code, issuer, a.code, a.issuer, ':');
  }

  lemma {:induction false} CountAround(a: string, b: string, c: char)
    requires c !in a && c !in b
    ensures Count(a + [c] + b, c) == 1
  {
    if |a| == 0 {
      assert a + [c] + b == [c] + b;
      assert ([c] + b)[1..] == b;
      CountAbsent(b, c);
    } else {
      assert (a + [c] + b)[1..] == a[1..] + [c] + b;
      assert c !in a[1..];
      CountAround(a[1..], b, c);
    }
  }

  lemma {:induction false} CountAbsent(s: string, c: char)
    requires c !in s
    ensures Count(s, c) == 0
  {
    if |s| > 0 {
      assert c !in s[1..];
      CountAbsent(s[1..], c);
    }
  }

  /** The network-dependent encoders: strkey's encode_contract (None when it
      raises ValueError) and the asset's contract id under the configured
      passphrase, including the Asset constructor's validation. */
  datatype StellarEnv = StellarEnv(
    encodeContract: seq<byte> -> Option<string>,
    contractId: AssetSpec -> Result<string, string>)

  const CouldNotDerive := "Could not derive contract ID for "

  /** get_contract_address: a 56-character C address is kept; a 64-character
      hex string is encoded as a contract address (a ValueError falls
      through); otherwise the string is read as an asset and its contract id
      derived, any failure there becoming one ValueError. */
  function GetContractAddress(s: string, env: StellarEnv): (r: Result<string, string>)
    ensures |s| == 56 && s[0] == 'C' ==> r == Success(s)
    ensures r.Failure? ==> CouldNotDerive + s <= r.error
    ensures r.Failure? ==> !(|s| == 56 && s[0] == 'C') && (AssetFromString(s).Failure? || env.contractId(AssetFromString(s).value).Failure?)
  {
    if |s| == 56 && s[0] == 'C' then Success(s)
    else if |s| == 64 && FromHex(s).Some? && env.encodeContract(FromHex(s).value).Some? then
      Success(env.encodeContract(FromHex(s).value).value)
    else
      match AssetFromString(s)
      case Failure(e) => Failure(CouldNotDerive + s + ": " + e)
      case Success(asset) =>
        match env.contractId(asset)
        case Success(id) => Success(id)
        case Failure(e) => Failure(CouldNotDerive + s + ": " + e)
  }

  /** 32 raw bytes written as 64 hex digits are encoded directly. */
  lemma HexContractAddress(b: seq<byte>, env: StellarEnv)
    requires |b| == 32 && env.encodeContract(b).Some?
    ensures GetContractAddress(Hex(b), env) == Success(env.encodeContract(b).value)
  {
    FromHexHex(b);
  }

  /** "XLM" and "native" both name the native asset's contract. */
  lemma NativeContractAddress(env: StellarEnv)
    requires env.contractId(Native).Success?
    ensures GetContractAddress("XLM", env) == env.contractId(Native)
    ensures GetContractAddress("native", env) == env.contractId(Native)
  {
  }

  // ---------------------------------------------------------------------
  // Settlement arguments
  // ---------------------------------------------------------------------

  /** `b'\x00' * n`: empty for n <= 0. */
  function ZeroPad(n: int): (r: seq<byte>)
    ensures |r| == if n > 0 then n else 0
    ensures forall i :: 0 <= i < |r| ==> r[i] == 0
  {
    if n > 0 then ZeroBytes(n) else []
  }

  /** The trade id as BytesN<32>: hyphens removed, hex-decoded, and when
      the length is not 32, right-padded with zero bytes (a longer result is
      left as it is). A non-hex id raises ValueError. */
  function TradeIdBytes(id: string): (r: Result<seq<byte>, string>)
    ensures r.Success? <==> FromHex(Remove(id, '-')).Some?
    ensures r.Success? ==>
              var raw := FromHex(Remove(id, '-')).value;
              (|raw| <= 32 ==> |r.value| == 32 && r.value[..|raw|] == raw &&
                               forall i :: |raw| <= i < 32 ==> r.value[i] == 0) &&
              (|raw| > 32 ==> r.value == raw)
  {
    var clean := Remove(id, '-');
    match FromHex(clean)
    case None => Failure("ValueError: non-hexadecimal number found in fromhex() arg")
    case Some(raw) =>
      if |raw| != 32 then Success(raw + ZeroPad(32 - |raw|)) else Success(raw)
  }

  /** The canonical 8-4-4-4-12 text of a 16-byte UUID (str(uuid.UUID)). */
  function UuidText(u: seq<byte>): string
    requires |u| == 16
  {
    Join([Hex(u[..4]), Hex(u[4..6]), Hex(u[6..8]), Hex(u[8..10]), Hex(u[10..])], "-")
  }

  function Concat(parts: seq<string>): string {
    if |parts| == 0 then "" else parts[0] + Concat(parts[1..])
  }

  /** Removing the separator from a join of separator-free parts gives the
      parts run together. */
  lemma {:induction false} RemoveJoin(parts: seq<string>, c: char)
    requires forall k :: 0 <= k < |parts| ==> c !in parts[k]
    ensures Remove(Join(parts, [c]), c) == Concat(parts)
  {
    if |parts| == 1 {
      RemoveAbsent(parts[0], c);
      assert Concat(parts[1..]) == "";
    } else if |parts| > 1 {
      RemoveJoin(parts[1..], c);
      RemoveAppend(parts[0] + [c], Join(parts[1..], [c]), c);
      RemoveAppend(parts[0], [c], c);
      RemoveAbsent(parts[0], c);
      assert Remove([c], c) == "";
    }
  }

  /** The five dashed groups run together are the hex of the whole UUID. */
  lemma {:induction false} UuidHex(u: seq<byte>)
    requires |u| == 16
    ensures Remove(UuidText(u), '-') == Hex(u)
  {
    var a, b, c, d, e := u[..4], u[4..6], u[6..8], u[8..10], u[10..];
    var hs := [Hex(a), Hex(b), Hex(c), Hex(d), Hex(e)];
    forall k | 0 <= k < 5 ensures '-' !in hs[k] {
      assert forall i :: 0 <= i < |hs[k]| ==> IsHexChar(hs[k][i]);
    }
    RemoveJoin(hs, '-');
    ConcatFive(hs);
    HexFive(a, b, c, d, e);
    assert a + (b + (c + (d + e))) == u;
  }

  lemma ConcatFive(hs: seq<string>)
    requires |hs| == 5
    ensures Concat(hs) == hs[0] + (hs[1] + (hs[2] + (hs[3] + hs[4])))
  {
    assert Concat(hs[4..]) == hs[4] by { assert hs[4..][1..] == []; }
    assert hs[3..][1..] == hs[4..];
    assert Concat(hs[3..]) == hs[3] + Concat(hs[4..]);
    assert hs[2..][1..] == hs[3..];
    assert Concat(hs[2..]) == hs[2] + Concat(hs[3..]);
    assert hs[1..][1..] == hs[2..];
    assert Concat(hs[1..]) == hs[1] + Concat(hs[2..]);
  }

  lemma HexFive(a: seq<byte>, b: seq<byte>, c: seq<byte>, d: seq<byte>, e: seq<byte>)
    ensures Hex(a + (b + (c + (d + e)))) == Hex(a) + (Hex(b) + (Hex(c) + (Hex(d) + Hex(e))))
  {
    HexAppend(d, e);
    HexAppend(c, d + e);
    HexAppend(b, c + (d + e));
    HexAppend(a, b + (c + (d + e)));
  }

  /** A UUID trade id becomes its 16 bytes followed by 16 zero bytes. */
  lemma {:induction false} UuidTradeId(u: seq<byte>)
    requires |u| == 16
    ensures TradeIdBytes(UuidText(u)) == Success(u + ZeroBytes(16))
  {
    UuidHex(u);
    FromHexHex(u);
    assert ZeroPad(16) == ZeroBytes(16);
  }

  const U64Max: int := 0xFFFF_FFFF_FFFF_FFFF

  /** A Soroban contract value as built by stellar_sdk's scval helpers. */
  datatype ScVal = I128(i: int) | U64(u: int) | Addr(a: string) | Bytes(b: seq<byte>)

  /** scval.to_int128 / to_uint64: out-of-range values raise ValueError. */
  function ToI128(v: int): (r: Result<ScVal, string>)
    ensures r.Success? <==> I128Min <= v <= I128Max
    ensures r.Success? ==> r.value == I128(v)
  {
    if I128Min <= v <= I128Max then Success(I128(v)) else Failure("ValueError: value out of i128 range")
  }

  function ToU64(v: int): (r: Result<ScVal, string>)
    ensures r.Success? <==> 0 <= v <= U64Max
    ensures r.Success? ==> r.value == U64(v)
  {
    if 0 <= v <= U64Max then Success(U64(v)) else Failure("ValueError: value out of u64 range")
  }

  /** scval.to_address: an account (G...) or contract (C...) strkey; an
      invalid one raises. The validity check is a parameter. */
  function ToAddress(s: string, valid: string -> bool): Result<ScVal, string> {
    if valid(s) then Success(Addr(s)) else Failure("ValueError: invalid address " + s)
  }

  /** The field names of the settlement instruction map, in the order the
      map is written. */
  const ArgKeys: seq<string> := ["base_amount", "base_asset", "buy_user", "fee_base", "fee_quote",
                                 "quote_amount", "quote_asset", "sell_user", "timestamp", "trade_id"]

  /** Each key sorts before the next. */
  lemma ArgKeysAdjacent()
    ensures forall i :: 0 <= i < |ArgKeys| - 1 ==> StrLt(ArgKeys[i], ArgKeys[i + 1])
  {
    forall i | 0 <= i < |ArgKeys| - 1 ensures StrLt(ArgKeys[i], ArgKeys[i + 1]) {
      // where each key first differs from the next
      StrLtAt(ArgKeys[i], ArgKeys[i + 1], [6, 1, 0, 4, 0, 7, 0, 0, 1][i]);
    }
  }

  /** A list whose neighbours are in order is in order. */
  lemma {:induction false} ChainSorted(xs: seq<string>)
    requires forall i :: 0 <= i < |xs| - 1 ==> StrLt(xs[i], xs[i + 1])
    ensures forall i, j :: 0 <= i < j < |xs| ==> StrLt(xs[i], xs[j])
  {
    if |xs| > 1 {
      ChainSorted(xs[1..]);
      forall j | 1 < j < |xs| ensures StrLt(xs[0], xs[j]) {
        assert xs[1..][0] == xs[1] && xs[1..][j - 1] == xs[j];
        StrLtTransitive(xs[0], xs[1], xs[j]);
      }
      forall i, j | 0 < i < j < |xs| ensures StrLt(xs[i], xs[j]) {
        assert xs[1..][i - 1] == xs[i] && xs[1..][j - 1] == xs[j];
      }
    }
  }

  /** The keys are written in ascending order, the order Soroban requires
      of a map's keys. */
  lemma ArgKeysSorted()
    ensures forall i, j :: 0 <= i < j < |ArgKeys| ==> StrLt(ArgKeys[i], ArgKeys[j])
  {
    ArgKeysAdjacent();
    ChainSorted(ArgKeys);
  }

  /** _build_settlement_args: both asset strings normalised to contract
      addresses, the trade id converted, then the map's values built in key
      order; the first conversion that raises ends the build. */
  function BuildSettlementArgs(ins: SettlementInstruction, env: StellarEnv,
                               validAddress: string -> bool): (r: Result<seq<ScVal>, string>)
    ensures r.Success? ==> |r.value| == |ArgKeys|
    // the build fails only when some conversion raises
    ensures r.Success? <==>
              && GetContractAddress(ins.baseAsset, env).Success?
              && GetContractAddress(ins.quoteAsset, env).Success?
              && TradeIdBytes(ins.tradeId).Success?
              && validAddress(GetContractAddress(ins.baseAsset, env).value)
              && validAddress(GetContractAddress(ins.quoteAsset, env).value)
              && validAddress(ins.buyUser) && validAddress(ins.sellUser)
              && I128Min <= ins.baseAmount <= I128Max && I128Min <= ins.quoteAmount <= I128Max
              && I128Min <= ins.feeBase <= I128Max && I128Min <= ins.feeQuote <= I128Max
              && 0 <= ins.timestamp <= U64Max
    ensures r.Success? ==>
              GetContractAddress(ins.baseAsset, env).Success? &&
              GetContractAddress(ins.quoteAsset, env).Success? &&
              TradeIdBytes(ins.tradeId).Success? &&
              r.value == [I128(ins.baseAmount), Addr(GetContractAddress(ins.baseAsset, env).value),
                          Addr(ins.buyUser), I128(ins.feeBase), I128(ins.feeQuote), I128(ins.quoteAmount),
                          Addr(GetContractAddress(ins.quoteAsset, env).value), Addr(ins.sellUser),
                          U64(ins.timestamp), Bytes(TradeIdBytes(ins.tradeId).value)]
    ensures r.Success? ==> I128Min <= ins.baseAmount <= I128Max && I128Min <= ins.quoteAmount <= I128Max &&
                           I128Min <= ins.feeBase <= I128Max && I128Min <= ins.feeQuote <= I128Max &&
                           0 <= ins.timestamp <= U64Max
  {
    var baseAddr :- GetContractAddress(ins.baseAsset, env);
    var quoteAddr :- GetContractAddress(ins.quoteAsset, env);
    var tradeId :- TradeIdBytes(ins.tradeId);
    var baseAmount :- ToI128(ins.baseAmount);
    var baseAsset :- ToAddress(baseAddr, validAddress);
    var buyUser :- ToAddress(ins.buyUser, validAddress);
    var feeBase :- ToI128(ins.feeBase);
    var feeQuote :- ToI128(ins.feeQuote);
    var quoteAmount :- ToI128(ins.quoteAmount);
    var quoteAsset :- ToAddress(quoteAddr, validAddress);
    var sellUser :- ToAddress(ins.sellUser, validAddress);
    var timestamp :- ToU64(ins.timestamp);
    Success([baseAmount, baseAsset, buyUser, feeBase, feeQuote, quoteAmount, quoteAsset, sellUser,
             timestamp, Bytes(tradeId)])
  }
}
