/** The client-side order signer (scripts/sign_order.py): it rebuilds the
    canonical order message from the order's JSON text, prefixes it as
    SEP-0053 requires, hashes and signs it, and returns the signature in
    base64. json.loads, the formatting of floats and containers, SHA-256,
    the keypair and base64 are parameters. */
module Signer {
  import opened Wrappers
  import opened Numbers
  import opened Text
  import opened Json
  import opened Types
  import opened Stellar

  /** `f"{v}"` of a parsed JSON value: a str as it is, an int in decimal,
      True/False, None; floats, lists and dicts go through `repr`. */
  function Str(v: Json, repr: Json -> string): (s: string)
    ensures v.JString? ==> s == v.s
    ensures v.JInt? ==> s == IntText(v.i)
    ensures v.JNull? ==> s == "None"
  {
    match v
    case JString(x) => x
    case JInt(i) => IntText(i)
    case JBool(b) => if b then "True" else "False"
    case JNull => "None"
    case _ => repr(v)
  }

  /** `order.get(key) is not None` on the parsed order. */
  predicate Present(order: Json, key: string) {
    order.JObject? && Get(order.members, key).Some? && Get(order.members, key).value != JNull
  }

  /** One `tag{order[key]}` segment: KeyError or TypeError when the key
      cannot be read. */
  function Segment(order: Json, key: string, tag: string, repr: Json -> string): (r: Result<string, string>)
    ensures r.Success? <==> order.JObject? && Get(order.members, key).Some?
    ensures r.Success? ==> r.value == tag + Str(Get(order.members, key).value, repr)
  {
    var v :- Index(order, key);
    Success(tag + Str(v, repr))
  }

  /** An optional segment: none when the value is missing or null. */
  function OptionalSegment(order: Json, key: string, tag: string, repr: Json -> string): (r: seq<string>)
    ensures |r| == if Present(order, key) then 1 else 0
    ensures Present(order, key) ==> r == [tag + Str(Get(order.members, key).value, repr)]
  {
    if Present(order, key) then [tag + Str(Get(order.members, key).value, repr)] else []
  }

  /** The segments before the price: order id, user, the pair read from the
      nested asset_pair, side and type. */
  function ClientHead(order: Json, repr: Json -> string): (r: Result<seq<string>, string>)
    ensures r.Success? ==> order.JObject? && |r.value| == 5
  {
    var id :- Segment(order, "order_id", "order_id:", repr);
    var user :- Segment(order, "user_address", "user:", repr);
    var pair :- Index(order, "asset_pair");
    var base :- Index(pair, "base");
    var quote :- Index(pair, "quote");
    var side :- Segment(order, "side", "side:", repr);
    var kind :- Segment(order, "order_type", "type:", repr);
    Success([id, user, "pair:" + Str(base, repr) + "/" + Str(quote, repr), side, kind])
  }

  /** The segments sign_order appends, in order; the first field that
      cannot be read ends the build with its error. The price and
      expiration segments appear exactly when those fields are present and
      not null. */
  function ClientFields(order: Json, repr: Json -> string): (r: Result<seq<string>, string>)
    ensures r.Success? ==> order.JObject?
    ensures r.Success? ==>
              |r.value| == 8 + (if Present(order, "price") then 1 else 0) + (if Present(order, "expiration") then 1 else 0)
  {
    var head :- ClientHead(order, repr);
    var price := OptionalSegment(order, "price", "price:", repr);
    var quantity :- Segment(order, "quantity", "quantity:", repr);
    var tif :- Segment(order, "time_in_force", "tif:", repr);
    var timestamp :- Segment(order, "timestamp", "timestamp:", repr);
    var expiration := OptionalSegment(order, "expiration", "expiration:", repr);
    Success(head + price + [quantity] + [tif] + [timestamp] + expiration)
  }

  /** The order message as sign_order builds it. */
  function ClientMessage(order: Json, repr: Json -> string): (r: Result<string, string>)
    ensures r.Success? <==> ClientFields(order, repr).Success?
  {
    var fields :- ClientFields(order, repr);
    Success(Join(fields, "|"))
  }

  /** The foreign calls of the signer: json.loads, `repr` of floats and
      containers, and the hash, keypair and base64 primitives. */
  datatype SignerEnv = SignerEnv(parse: Parser, repr: Json -> string, crypto: Crypto)

  /** What sign_order returns: the base64 signature over the SHA-256 digest
      of the prefixed message, or the exception it raises (a JSON error, a
      missing field, an invalid secret key). */
  function ClientSignature(secret: string, orderJson: string, env: SignerEnv): (r: Result<string, string>)
    ensures r.Success? ==> env.parse(orderJson).Success? && ClientMessage(env.parse(orderJson).value, env.repr).Success?
    ensures r.Success? ==>
              var digest := env.crypto.sha256(SignedPayload(ClientMessage(env.parse(orderJson).value, env.repr).value));
              env.crypto.sign(secret, digest).Some? &&
              r.value == env.crypto.b64encode(env.crypto.sign(secret, digest).value)
  {
    var order :- env.parse(orderJson);
    var message :- ClientMessage(order, env.repr);
    SignMessage(secret, message, env.crypto)
  }

  /** The last steps of sign_order: hash the prefixed message, sign the
      digest and base64-encode the signature. */
  function SignMessage(secret: string, message: string, crypto: Crypto): Result<string, string>
  {
    var digest := crypto.sha256(SignedPayload(message));
    match crypto.sign(secret, digest)
    case None => Failure("ValueError: invalid secret key")
    case Some(sig) => Success(crypto.b64encode(sig))
  }

  /** The fields joined by `|` are the message. */
  lemma JoinedFields(order: Json, repr: Json -> string, parts: seq<string>)
    requires ClientFields(order, repr) == Success(parts)
    ensures ClientMessage(order, repr) == Success(Join(parts, "|"))
  {
  }

  /** The message assembly of sign_order: the segments appended to a list
      one by one, a missing field raising at its own step. */
  method AppendSegments(order: Json, repr: Json -> string) returns (r: Result<seq<string>, string>)
    ensures r == ClientFields(order, repr)
  {
    var head := ClientHead(order, repr);
    if head.Failure? {
      return Failure(head.error);
    }
    var parts := head.value;
    if Present(order, "price") {
      parts := parts + ["price:" + Str(Get(order.members, "price").value, repr)];
    }
    ghost var withPrice := parts;
    assert withPrice == head.value + OptionalSegment(order, "price", "price:", repr);
    var quantity := Segment(order, "quantity", "quantity:", repr);
    if quantity.Failure? {
      return Failure(quantity.error);
    }
    parts := parts + [quantity.value];
    var tif := Segment(order, "time_in_force", "tif:", repr);
    if tif.Failure? {
      return Failure(tif.error);
    }
    parts := parts + [tif.value];
    var timestamp := Segment(order, "timestamp", "timestamp:", repr);
    if timestamp.Failure? {
      return Failure(timestamp.error);
    }
    parts := parts + [timestamp.value];
    if Present(order, "expiration") {
      parts := parts + ["expiration:" + Str(Get(order.members, "expiration").value, repr)];
    }
    assert parts == withPrice + [quantity.value] + [tif.value] + [timestamp.value] +
                    OptionalSegment(order, "expiration", "expiration:", repr);
    return Success(parts);
  }

  /** sign_order: the message assembled and joined, then prefixed, hashed,
      signed and encoded. */
  method SignOrder(secret: string, orderJson: string, env: SignerEnv) returns (r: Result<string, string>)
    ensures r == ClientSignature(secret, orderJson, env)
  {
    var parsed := env.parse(orderJson);
    if parsed.Failure? {
      return Failure(parsed.error);
    }
    var parts := AppendSegments(parsed.value, env.repr);
    if parts.Failure? {
      return Failure(parts.error);
    }
    var message := Join(parts.value, "|");
    JoinedFields(parsed.value, env.repr, parts.value);
    var payload := SignedPayload(message);
    var digest := env.crypto.sha256(payload);
    var sig := env.crypto.sign(secret, digest);
    if sig.None? {
      return Failure("ValueError: invalid secret key");
    }
    return Success(env.crypto.b64encode(sig.value));
  }

  // ---------------------------------------------------------------------
  // Agreement with the server's message
  // ---------------------------------------------------------------------

  /** A Decimal sent as its text. */
  function DecimalJson(d: Decimal): Json {
    JString(DecimalText(d))
  }

  /** An optional field as sent: null, or left out, when there is none. */
  predicate OptionalField<T>(v: Option<Json>, x: Option<T>, enc: T -> Json) {
    if x.Some? then v == Some(enc(x.value)) else v == None || v == Some(JNull)
  }

  /** `j` is a JSON encoding of the order: each field the signer reads holds
      the order's value, with enums by name, decimals as strings and
      integers as numbers; asset_pair is a dict whose base and quote hold
      the pair. Key order and other keys, at either level, are free. */
  predicate Encodes(j: Json, o: Order) {
    j.JObject? &&
    Get(j.members, "order_id") == Some(JString(o.id)) &&
    Get(j.members, "user_address") == Some(JString(o.user)) &&
    Get(j.members, "asset_pair").Some? && Get(j.members, "asset_pair").value.JObject? &&
    Get(Get(j.members, "asset_pair").value.members, "base") == Some(JString(o.pair.base)) &&
    Get(Get(j.members, "asset_pair").value.members, "quote") == Some(JString(o.pair.quote)) &&
    Get(j.members, "side") == Some(JString(o.side.Text())) &&
    Get(j.members, "order_type") == Some(JString(o.kind.Text())) &&
    OptionalField(Get(j.members, "price"), o.price, DecimalJson) &&
    Get(j.members, "quantity") == Some(DecimalJson(o.quantity)) &&
    Get(j.members, "time_in_force") == Some(JString(o.tif.Text())) &&
    Get(j.members, "timestamp") == Some(JInt(o.timestamp)) &&
    OptionalField(Get(j.members, "expiration"), o.expiration, (e: int) => JInt(e))
  }

  /** The order as JSON with the field names the API uses, a missing price
      or expiration as null. */
  function OrderJson(o: Order): (j: Json)
    ensures Encodes(j, o)
  {
    var ms := [
      Member("order_id", JString(o.id)),
      Member("user_address", JString(o.user)),
      Member("asset_pair", JObject([Member("base", JString(o.pair.base)), Member("quote", JString(o.pair.quote))])),
      Member("side", JString(o.side.Text())),
      Member("order_type", JString(o.kind.Text())),
      Member("price", if o.price.Some? then DecimalJson(o.price.value) else JNull),
      Member("quantity", DecimalJson(o.quantity)),
      Member("time_in_force", JString(o.tif.Text())),
      Member("timestamp", JInt(o.timestamp)),
      Member("expiration", if o.expiration.Some? then JInt(o.expiration.value) else JNull)];
    OrderMembersGetHead(ms);
    OrderMembersGetTail(ms);
    PairOf(o.pair.base, o.pair.quote);
    JObject(ms)
  }

  /** The keys of OrderJson, in order. */
  const OrderKeys: seq<string> := ["order_id", "user_address", "asset_pair", "side", "order_type", "price",
                                   "quantity", "time_in_force", "timestamp", "expiration"]

  lemma OrderKeysDistinct()
    ensures forall i, j :: 0 <= i < j < |OrderKeys| ==> OrderKeys[i] != OrderKeys[j]
  {
    forall i, j | 0 <= i < j < |OrderKeys| ensures OrderKeys[i] != OrderKeys[j] {
      assert |OrderKeys[i]| != |OrderKeys[j]| || OrderKeys[i][0] != OrderKeys[j][0];
    }
  }

  /** Members keyed by OrderKeys, in order, are each found under their key. */
  lemma OrderMemberGet(ms: seq<Member>, i: nat)
    requires |ms| == |OrderKeys| && i < |ms|
    requires forall k :: 0 <= k < |ms| ==> ms[k].key == OrderKeys[k]
    ensures Get(ms, OrderKeys[i]) == Some(ms[i].value)
  {
    OrderKeysDistinct();
    forall a, b | 0 <= a < b < |ms| ensures ms[a].key != ms[b].key {
      assert ms[a].key == OrderKeys[a] && ms[b].key == OrderKeys[b];
    }
    GetDistinct(ms, i);
  }

  lemma OrderMembersGetHead(ms: seq<Member>)
    requires |ms| == |OrderKeys|
    requires forall i :: 0 <= i < |ms| ==> ms[i].key == OrderKeys[i]
    ensures Get(ms, "order_id") == Some(ms[0].value) && Get(ms, "user_address") == Some(ms[1].value)
    ensures Get(ms, "asset_pair") == Some(ms[2].value) && Get(ms, "side") == Some(ms[3].value)
    ensures Get(ms, "order_type") == Some(ms[4].value)
  {
    OrderMemberGet(ms, 0);
    OrderMemberGet(ms, 1);
    OrderMemberGet(ms, 2);
    OrderMemberGet(ms, 3);
    OrderMemberGet(ms, 4);
  }

  lemma OrderMembersGetTail(ms: seq<Member>)
    requires |ms| == |OrderKeys|
    requires forall i :: 0 <= i < |ms| ==> ms[i].key == OrderKeys[i]
    ensures Get(ms, "price") == Some(ms[5].value)
    ensures Get(ms, "quantity") == Some(ms[6].value) && Get(ms, "time_in_force") == Some(ms[7].value)
    ensures Get(ms, "timestamp") == Some(ms[8].value) && Get(ms, "expiration") == Some(ms[9].value)
  {
    OrderMemberGet(ms, 5);
    OrderMemberGet(ms, 6);
    OrderMemberGet(ms, 7);
    OrderMemberGet(ms, 8);
    OrderMemberGet(ms, 9);
  }

  /** Reading base and quote from the asset_pair dict OrderJson builds. */
  lemma PairOf(base: string, quote: string)
    ensures Get([Member("base", JString(base)), Member("quote", JString(quote))], "base") == Some(JString(base))
    ensures Get([Member("base", JString(base)), Member("quote", JString(quote))], "quote") == Some(JString(quote))
  {
    var ms := [Member("base", JString(base)), Member("quote", JString(quote))];
    GetAt(ms, 0, "base");
    GetAt(ms, 1, "quote");
  }

  /** The first five segments agree. */
  lemma ClientHeadAgrees(j: Json, o: Order, repr: Json -> string)
    requires Encodes(j, o)
    ensures ClientHead(j, repr) == Success(HeadFields(o)[..5])
  {
  }

  /** The optional segments agree. */
  lemma OptionalAgrees(j: Json, o: Order, repr: Json -> string)
    requires Encodes(j, o)
    ensures HeadFields(o) == HeadFields(o)[..5] + OptionalSegment(j, "price", "price:", repr)
    ensures TailFields(o) == TailFields(o)[..2] + OptionalSegment(j, "expiration", "expiration:", repr)
  {
  }

  lemma Regroup<T>(h: seq<T>, q: T, t: T, s: T, e: seq<T>)
    ensures h + [q] + ([t, s] + e) == h + [q] + [t] + [s] + e
  {
  }

  /** The client builds exactly the segments the server signs over, from
      any JSON encoding of the order. */
  lemma {:induction false} ClientFieldsAgree(j: Json, o: Order, repr: Json -> string)
    requires Encodes(j, o)
    ensures ClientFields(j, repr) == Success(OrderFields(o))
  {
    var h, tl := HeadFields(o), TailFields(o);
    ClientHeadAgrees(j, o, repr);
    OptionalAgrees(j, o, repr);
    var q := "quantity:" + DecimalText(o.quantity);
    var e := OptionalSegment(j, "expiration", "expiration:", repr);
    assert ClientFields(j, repr) == Success(h + [q] + [tl[0]] + [tl[1]] + e);
    assert tl == [tl[0], tl[1]] + e;
    Regroup(h, q, tl[0], tl[1], e);
  }

  /** So the client's message is the server's create_order_message. */
  lemma ClientMessageAgrees(j: Json, o: Order, repr: Json -> string)
    requires Encodes(j, o)
    ensures ClientMessage(j, repr) == Success(OrderMessage(o))
  {
    ClientFieldsAgree(j, o, repr);
  }

  /** A signature the client makes for an order's JSON is one the server
      accepts for that order, given keys that match (what the secret signs,
      the public key verifies) and base64 that round-trips. */
  lemma {:induction false} SignedOrderVerifies(o: Order, secret: string, orderJson: string, publicKey: string,
                                               env: SignerEnv, s: string)
    requires env.parse(orderJson).Success? && Encodes(env.parse(orderJson).value, o)
    requires forall d, sig :: env.crypto.sign(secret, d) == Some(sig) ==> env.crypto.verify(publicKey, d, sig)
    requires forall b :: env.crypto.b64decode(env.crypto.b64encode(b)) == Some(b)
    requires ClientSignature(secret, orderJson, env) == Success(s)
    ensures env.crypto.b64decode(s).Some?
    ensures env.crypto.verify(publicKey, env.crypto.sha256(SignedPayload(OrderMessage(o))),
                              env.crypto.b64decode(s).value)
  {
    var j := env.parse(orderJson).value;
    ClientMessageAgrees(j, o, env.repr);
    var digest := env.crypto.sha256(SignedPayload(OrderMessage(o)));
    var sig := env.crypto.sign(secret, digest).value;
    assert s == env.crypto.b64encode(sig);
  }
}
