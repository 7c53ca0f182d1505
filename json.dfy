/** Parsed JSON values as the attestation scripts see them (json.loads
    results), the Python operations the scripts apply to them, and the
    deterministic form the compose hash is computed over
    (scripts/compute_compose_hash.py and scripts/verify_remote_attestation.py
    define sort_object and get_compose_hash identically; both use the
    definitions here). */
module Json {
  import opened Wrappers
  import opened Numbers
  import opened Text

  /** An object is its members in insertion order, as a Python dict. */
  datatype Json =
    | JNull
    | JBool(b: bool)
    | JInt(i: int)
    | JFloat(f: real)
    | JString(s: string)
    | JArray(items: seq<Json>)
    | JObject(members: seq<Member>)

  datatype Member = Member(key: string, value: Json)

  /** json.loads on a str: the value, or the JSONDecodeError message. */
  type Parser = string -> Result<Json, string>

  // ---------------------------------------------------------------------
  // Python operations on parsed values
  // ---------------------------------------------------------------------

  /** `bool(v)`: None, False, zero and empty containers are false. */
  predicate Truthy(j: Json) {
    match j
    case JNull => false
    case JBool(b) => b
    case JInt(i) => i != 0
    case JFloat(f) => f != 0.0
    case JString(s) => s != ""
    case JArray(xs) => xs != []
    case JObject(ms) => ms != []
  }

  /** `d.get(k)` on a dict: the value of the first member with key k. */
  function Get(ms: seq<Member>, k: string): Option<Json> {
    if |ms| == 0 then None
    else if ms[0].key == k then Some(ms[0].value)
    else Get(ms[1..], k)
  }

  /** `d.get(k)` finds something exactly when some member has key k, and
      what it finds is that member's value. */
  lemma {:induction false} GetFound(ms: seq<Member>, k: string)
    ensures Get(ms, k).Some? <==> exists i :: 0 <= i < |ms| && ms[i].key == k
    ensures Get(ms, k).Some? ==> Member(k, Get(ms, k).value) in ms
  {
    if |ms| > 0 && ms[0].key != k {
      GetFound(ms[1..], k);
      if exists i :: 0 <= i < |ms| && ms[i].key == k {
        var i :| 0 <= i < |ms| && ms[i].key == k;
        assert ms[1..][i - 1].key == k;
      }
    }
  }

  /** The member at i is the first with key k: `d.get(k)` is its value. */
  lemma {:induction false} GetAt(ms: seq<Member>, i: nat, k: string)
    requires i < |ms| && ms[i].key == k
    requires forall j :: 0 <= j < i ==> ms[j].key != k
    ensures Get(ms, k) == Some(ms[i].value)
  {
    if i > 0 {
      assert ms[1..][i - 1] == ms[i];
      GetAt(ms[1..], i - 1, k);
    }
  }

  /** In a dict whose keys are distinct, each member is found under its
      key. */
  lemma GetDistinct(ms: seq<Member>, i: nat)
    requires i < |ms|
    requires forall a, b :: 0 <= a < b < |ms| ==> ms[a].key != ms[b].key
    ensures Get(ms, ms[i].key) == Some(ms[i].value)
  {
    GetAt(ms, i, ms[i].key);
  }

  predicate IsSubstring(k: string, s: string) {
    exists i :: 0 <= i <= |s| && k <= s[i..]
  }

  /** `k in v`: key membership for a dict, element membership for a list,
      substring for a str; any other value raises TypeError. */
  function Contains(v: Json, k: string): Result<bool, string> {
    match v
    case JObject(ms) => Success(Get(ms, k).Some?)
    case JArray(xs) => Success(JString(k) in xs)
    case JString(s) => Success(IsSubstring(k, s))
    case _ => Failure("TypeError: argument is not iterable")
  }

  /** `v[k]`: KeyError for a missing dict key, TypeError on anything that
      is not a dict. */
  function Index(v: Json, k: string): (r: Result<Json, string>)
    ensures r.Success? <==> v.JObject? && Get(v.members, k).Some?
  {
    match v
    case JObject(ms) => if Get(ms, k).Some? then Success(Get(ms, k).value) else Failure("KeyError")
    case _ => Failure("TypeError: indices must be integers")
  }

  /** `for x in v`: a list yields its items, a dict its keys, a str its
      characters; any other value raises TypeError. */
  function Iterate(v: Json): (r: Result<seq<Json>, string>)
    ensures v.JArray? ==> r == Success(v.items)
    ensures r.Success? ==> (|r.value| == 0 <==> !Truthy(v))
  {
    match v
    case JArray(xs) => Success(xs)
    case JObject(ms) => Success(seq(|ms|, i requires 0 <= i < |ms| => JString(ms[i].key)))
    case JString(s) => Success(seq(|s|, i requires 0 <= i < |s| => JString([s[i]])))
    case _ => Failure("TypeError: object is not iterable")
  }

  // ---------------------------------------------------------------------
  // Dicts, keys and their order
  // ---------------------------------------------------------------------

  /** A dict: no key twice. */
  predicate DistinctKeys(ms: seq<Member>) {
    forall i, j :: 0 <= i < j < |ms| ==> ms[i].key != ms[j].key
  }

  /** Keys in strictly increasing order. */
  predicate KeysSorted(ms: seq<Member>) {
    forall i, j :: 0 <= i < j < |ms| ==> StrLt(ms[i].key, ms[j].key)
  }

  /** Every object at every depth is a dict (what json.loads produces). */
  predicate WellFormed(j: Json) {
    match j
    case JObject(ms) => DistinctKeys(ms) && forall i :: 0 <= i < |ms| ==> WellFormed(ms[i].value)
    case JArray(xs) => forall i :: 0 <= i < |xs| ==> WellFormed(xs[i])
    case _ => true
  }

  /** Every object at every depth has its keys sorted. */
  predicate Canonical(j: Json) {
    match j
    case JObject(ms) => KeysSorted(ms) && forall i :: 0 <= i < |ms| ==> Canonical(ms[i].value)
    case JArray(xs) => forall i :: 0 <= i < |xs| ==> Canonical(xs[i])
    case _ => true
  }

  lemma SortedDistinct(ms: seq<Member>)
    requires KeysSorted(ms)
    ensures DistinctKeys(ms)
  {
    forall i, j | 0 <= i < j < |ms| ensures ms[i].key != ms[j].key {
      if ms[i].key == ms[j].key {
        StrLtIrreflexive(ms[i].key);
      }
    }
  }

  /** Insert one member into members sorted by key. */
  function Insert(m: Member, ms: seq<Member>): (r: seq<Member>)
    ensures multiset(r) == multiset(ms) + multiset{m}
  {
    if |ms| == 0 then [m]
    else if StrLt(ms[0].key, m.key) then
      assert ms == [ms[0]] + ms[1..];
      [ms[0]] + Insert(m, ms[1..])
    else [m] + ms
  }

  /** `sorted(d.items())` on a dict: the members ordered by key (values are
      never compared because keys are distinct). */
  function SortMembers(ms: seq<Member>): (r: seq<Member>)
    ensures multiset(r) == multiset(ms)
  {
    if |ms| == 0 then []
    else
      assert ms == [ms[0]] + ms[1..];
      Insert(ms[0], SortMembers(ms[1..]))
  }

  /** A member below every key of a sorted sequence can be put in front. */
  lemma ConsSorted(x: Member, tail: seq<Member>)
    requires KeysSorted(tail)
    requires forall y | y in tail :: StrLt(x.key, y.key)
    ensures KeysSorted([x] + tail)
  {
    var r := [x] + tail;
    forall i, j | 0 <= i < j < |r| ensures StrLt(r[i].key, r[j].key) {
      if i > 0 {
        assert r[i] == tail[i - 1] && r[j] == tail[j - 1];
      } else {
        assert r[j] in tail;
      }
    }
  }

  lemma {:induction false} InsertSorted(m: Member, ms: seq<Member>)
    requires KeysSorted(ms)
    requires forall i :: 0 <= i < |ms| ==> ms[i].key != m.key
    ensures KeysSorted(Insert(m, ms))
  {
    if |ms| > 0 {
      if StrLt(ms[0].key, m.key) {
        var tail := Insert(m, ms[1..]);
        SortedTail(ms);
        InsertSorted(m, ms[1..]);
        forall x | x in tail ensures StrLt(ms[0].key, x.key) {
          assert x in multiset(tail);
          if x != m {
            assert x in ms[1..];
          }
        }
        ConsSorted(ms[0], tail);
      } else {
        StrLtTotal(m.key, ms[0].key);
        forall y | y in ms ensures StrLt(m.key, y.key) {
          var k :| 0 <= k < |ms| && ms[k] == y;
          if k > 0 {
            StrLtTransitive(m.key, ms[0].key, ms[k].key);
          }
        }
        ConsSorted(m, ms);
      }
    }
  }

  /** Sorting a dict's members orders them strictly by key. */
  lemma {:induction false} SortMembersSorted(ms: seq<Member>)
    requires DistinctKeys(ms)
    ensures KeysSorted(SortMembers(ms))
  {
    if |ms| > 0 {
      var rest := SortMembers(ms[1..]);
      SortMembersSorted(ms[1..]);
      forall i | 0 <= i < |rest| ensures rest[i].key != ms[0].key {
        assert rest[i] in multiset(ms[1..]);
        var k :| 0 <= k < |ms[1..]| && ms[1..][k] == rest[i];
        assert ms[k + 1] == rest[i];
      }
      InsertSorted(ms[0], rest);
    }
  }

  lemma SortedTail(a: seq<Member>)
    requires KeysSorted(a) && |a| > 0
    ensures KeysSorted(a[1..])
  {
    forall i, j | 0 <= i < j < |a[1..]| ensures StrLt(a[1..][i].key, a[1..][j].key) {
      assert a[1..][i] == a[i + 1] && a[1..][j] == a[j + 1];
    }
  }

  /** The least key comes first: two sorted sequences with the same members
      start with the same member. */
  lemma SortedSameHead(a: seq<Member>, b: seq<Member>)
    requires KeysSorted(a) && KeysSorted(b)
    requires |a| > 0 && |b| > 0
    requires a[0] in b && b[0] in a
    ensures a[0] == b[0]
  {
    var j :| 0 <= j < |b| && b[j] == a[0];
    var i :| 0 <= i < |a| && a[i] == b[0];
    if j > 0 {
      assert StrLt(b[0].key, a[0].key);
      if i > 0 {
        StrLtAsymmetric(a[0].key, b[0].key);
      } else {
        StrLtIrreflexive(a[0].key);
      }
    }
  }

  /** Two key-sorted sequences holding the same members are equal: a dict
      has exactly one sorted form. */
  lemma {:induction false} SortedUnique(a: seq<Member>, b: seq<Member>)
    requires KeysSorted(a) && KeysSorted(b)
    requires multiset(a) == multiset(b)
    ensures a == b
  {
    assert |a| == |multiset(a)| == |multiset(b)| == |b|;
    if |a| > 0 {
      assert a[0] in multiset(b) && b[0] in multiset(a);
      SortedSameHead(a, b);
      assert a == [a[0]] + a[1..] && b == [b[0]] + b[1..];
      assert multiset(a) == multiset{a[0]} + multiset(a[1..]);
      assert multiset(b) == multiset{a[0]} + multiset(b[1..]);
      forall m ensures multiset(a[1..])[m] == multiset(b[1..])[m] {
        assert multiset(a)[m] == multiset(b)[m];
      }
      assert multiset(a[1..]) == multiset(b[1..]);
      SortedTail(a);
      SortedTail(b);
      SortedUnique(a[1..], b[1..]);
    }
  }

  // ---------------------------------------------------------------------
  // sort_object
  // ---------------------------------------------------------------------

  /** sort_object: every dict rebuilt with its items in key order and its
      values sorted in turn, every list item sorted in place, every other
      value returned as it is. */
  function SortObject(j: Json): (r: Json)
    ensures j.JObject? <==> r.JObject?
    ensures j.JArray? <==> r.JArray?
    ensures j.JObject? ==> |r.members| == |j.members|
    ensures j.JArray? ==> |r.items| == |j.items|
    ensures !j.JObject? && !j.JArray? ==> r == j
  {
    match j
    case JObject(ms) =>
      var sorted := SortMembers(ms);
      JObject(seq(|sorted|, i requires 0 <= i < |sorted| =>
        assert sorted[i] in multiset(ms);
        Member(sorted[i].key, SortObject(sorted[i].value))))
    case JArray(xs) =>
      JArray(seq(|xs|, i requires 0 <= i < |xs| => SortObject(xs[i])))
    case _ => j
  }

  /** Every dict in the result, at every depth, has its keys in order. */
  lemma {:induction false} SortObjectCanonical(j: Json)
    requires WellFormed(j)
    ensures Canonical(SortObject(j))
    decreases j
  {
    match j
    case JObject(ms) =>
      var sorted := SortMembers(ms);
      var r := SortObject(j).members;
      SortMembersSorted(ms);
      forall i | 0 <= i < |sorted| ensures Canonical(r[i].value) {
        assert sorted[i] in multiset(ms);
        var k :| 0 <= k < |ms| && ms[k] == sorted[i];
        SortObjectCanonical(sorted[i].value);
      }
    case JArray(xs) =>
      forall i | 0 <= i < |xs| ensures Canonical(SortObject(j).items[i]) {
        SortObjectCanonical(xs[i]);
      }
    case _ =>
  }

  /** An already canonical value is a fixpoint. */
  lemma {:induction false} CanonicalFixpoint(j: Json)
    requires Canonical(j)
    ensures SortObject(j) == j
    decreases j
  {
    match j
    case JObject(ms) =>
      SortedDistinct(ms);
      SortMembersSorted(ms);
      SortedUnique(SortMembers(ms), ms);
      var r := SortObject(j).members;
      forall i | 0 <= i < |ms| ensures r[i] == ms[i] {
        CanonicalFixpoint(ms[i].value);
      }
    case JArray(xs) =>
      var r := SortObject(j).items;
      forall i | 0 <= i < |xs| ensures r[i] == xs[i] {
        CanonicalFixpoint(xs[i]);
      }
    case _ =>
  }

  lemma {:induction false} SortObjectWellFormed(j: Json)
    requires WellFormed(j)
    ensures WellFormed(SortObject(j))
  {
    SortObjectCanonical(j);
    CanonicalWellFormed(SortObject(j));
  }

  lemma {:induction false} CanonicalWellFormed(j: Json)
    requires Canonical(j)
    ensures WellFormed(j)
    decreases j
  {
    match j
    case JObject(ms) =>
      SortedDistinct(ms);
      forall i | 0 <= i < |ms| ensures WellFormed(ms[i].value) {
        CanonicalWellFormed(ms[i].value);
      }
    case JArray(xs) =>
      forall i | 0 <= i < |xs| ensures WellFormed(xs[i]) {
        CanonicalWellFormed(xs[i]);
      }
    case _ =>
  }

  /** Sorting twice is sorting once. */
  lemma {:induction false} SortObjectIdempotent(j: Json)
    requires WellFormed(j)
    ensures SortObject(SortObject(j)) == SortObject(j)
  {
    SortObjectCanonical(j);
    CanonicalFixpoint(SortObject(j));
  }

  /** Only the order of a dict's items changes: each key keeps its value
      (sorted in turn), and no key is added or lost. */
  lemma {:induction false} SortObjectMembers(ms: seq<Member>)
    ensures forall m :: m in ms ==> Member(m.key, SortObject(m.value)) in SortObject(JObject(ms)).members
    ensures forall m :: m in SortObject(JObject(ms)).members ==>
              exists v :: Member(m.key, v) in ms && m.value == SortObject(v)
  {
    var sorted := SortMembers(ms);
    var r := SortObject(JObject(ms)).members;
    forall m | m in ms ensures Member(m.key, SortObject(m.value)) in r {
      assert m in multiset(sorted);
      var i :| 0 <= i < |sorted| && sorted[i] == m;
      assert r[i] == Member(m.key, SortObject(m.value));
    }
    forall m | m in r ensures exists v :: Member(m.key, v) in ms && m.value == SortObject(v) {
      var i :| 0 <= i < |r| && r[i] == m;
      assert sorted[i] in multiset(ms);
      assert Member(m.key, sorted[i].value) == sorted[i];
    }
  }

  /** Two dicts with the same items, inserted in any order, sort to the
      same value. */
  lemma {:induction false} SortObjectOrderIndependent(ms1: seq<Member>, ms2: seq<Member>)
    requires DistinctKeys(ms1) && DistinctKeys(ms2)
    requires multiset(ms1) == multiset(ms2)
    ensures SortObject(JObject(ms1)) == SortObject(JObject(ms2))
  {
    SortMembersSorted(ms1);
    SortMembersSorted(ms2);
    SortedUnique(SortMembers(ms1), SortMembers(ms2));
  }

  /** Lists keep their order: sorting a concatenation concatenates the
      sorted parts. */
  lemma {:induction false} SortObjectListOrder(xs: seq<Json>, ys: seq<Json>)
    ensures SortObject(JArray(xs + ys)).items == SortObject(JArray(xs)).items + SortObject(JArray(ys)).items
  {
    var l, a, b := SortObject(JArray(xs + ys)).items, SortObject(JArray(xs)).items, SortObject(JArray(ys)).items;
    forall i | 0 <= i < |l| ensures l[i] == (a + b)[i] {
      if i < |xs| {
        assert (xs + ys)[i] == xs[i];
      } else {
        assert (xs + ys)[i] == ys[i - |xs|];
      }
    }
  }

  // ---------------------------------------------------------------------
  // get_compose_hash
  // ---------------------------------------------------------------------

  /** The dict comprehension dropping items whose value is None. Only the
      top level is filtered: a kept value is kept whole, nested Nones
      included. */
  function Clean(ms: seq<Member>): (r: seq<Member>)
    ensures forall m :: m in r <==> m in ms && m.value != JNull
  {
    if |ms| == 0 then []
    else (if ms[0].value == JNull then [] else [ms[0]]) + Clean(ms[1..])
  }

  lemma {:induction false} CleanMultiset(ms: seq<Member>)
    ensures forall m :: multiset(Clean(ms))[m] == if m.value == JNull then 0 else multiset(ms)[m]
  {
    if |ms| > 0 {
      CleanMultiset(ms[1..]);
      assert ms == [ms[0]] + ms[1..];
    }
  }

  lemma {:induction false} CleanDistinct(ms: seq<Member>)
    requires DistinctKeys(ms)
    ensures DistinctKeys(Clean(ms))
  {
    if |ms| > 0 {
      var rest := Clean(ms[1..]);
      CleanDistinct(ms[1..]);
      if ms[0].value != JNull {
        var r := [ms[0]] + rest;
        forall i, j | 0 <= i < j < |r| ensures r[i].key != r[j].key {
          if i == 0 {
            assert r[j] in ms[1..];
          } else {
            assert r[i] == rest[i - 1] && r[j] == rest[j - 1];
          }
        }
      }
    }
  }

  lemma {:induction false} CleanAppendNull(ms: seq<Member>, k: string)
    ensures Clean(ms + [Member(k, JNull)]) == Clean(ms)
  {
    if |ms| > 0 {
      assert (ms + [Member(k, JNull)])[1..] == ms[1..] + [Member(k, JNull)];
      CleanAppendNull(ms[1..], k);
    } else {
      assert ms + [Member(k, JNull)] == [Member(k, JNull)];
    }
  }

  /** get_compose_hash: the lower-case hex SHA-256 of the UTF-8 bytes of
      the compact JSON text of the sorted, None-free dict. `dumps` stands for
      json.dumps(separators=(",", ":"), ensure_ascii=False) and `sha256`
      for hashlib's digest. A non-dict has no `items()` and raises: None. */
  function ComposeHash(app: Json, dumps: Json -> string, sha256: seq<byte> -> seq<byte>): (r: Option<string>)
    ensures r.Some? <==> app.JObject?
    ensures r.Some? ==> forall i :: 0 <= i < |r.value| ==> IsHexChar(r.value[i])
  {
    match app
    case JObject(ms) => Some(Hex(sha256(Utf8(dumps(SortObject(JObject(Clean(ms))))))))
    case _ => None
  }

  /** The hash is a function of the dict's items, not of their order. */
  lemma {:induction false} ComposeHashOrderIndependent(ms1: seq<Member>, ms2: seq<Member>,
                                                         dumps: Json -> string, sha256: seq<byte> -> seq<byte>)
    requires DistinctKeys(ms1) && DistinctKeys(ms2)
    requires multiset(ms1) == multiset(ms2)
    ensures ComposeHash(JObject(ms1), dumps, sha256) == ComposeHash(JObject(ms2), dumps, sha256)
  {
    CleanMultiset(ms1);
    CleanMultiset(ms2);
    assert multiset(Clean(ms1)) == multiset(Clean(ms2));
    CleanDistinct(ms1);
    CleanDistinct(ms2);
    SortObjectOrderIndependent(Clean(ms1), Clean(ms2));
  }

  /** A top-level item whose value is None does not change the hash. */
  lemma ComposeHashIgnoresNull(ms: seq<Member>, k: string, dumps: Json -> string, sha256: seq<byte> -> seq<byte>)
    ensures ComposeHash(JObject(ms + [Member(k, JNull)]), dumps, sha256) == ComposeHash(JObject(ms), dumps, sha256)
  {
    CleanAppendNull(ms, k);
  }
}
