/** The two attestation checks: the command-line comparison of a computed
    compose hash with an attestation file (scripts/compute_compose_hash.py,
    main) and the remote verification against a TEE's /info and
    /attestation endpoints (scripts/verify_remote_attestation.py). Network
    fetches, json.loads, json.dumps and SHA-256 are parameters. */
module Attestation {
  import opened Wrappers
  import opened Numbers
  import opened Text
  import opened Json

  /** How fetch_json ends: the parsed body; a URLError or a JSONDecodeError,
      which the caller catches; or any other exception, which escapes. */
  datatype Fetch = Fetched(body: Json) | UrlError | InvalidJson | OtherError(msg: string)

  const NoGet := "AttributeError: object has no attribute 'get'"

  // ---------------------------------------------------------------------
  // extract_app_compose_from_info
  // ---------------------------------------------------------------------

  /** A located app_compose value: a str is parsed as JSON (a decode error
      escapes), anything else is returned as it is. */
  function Decoded(v: Json, parse: Parser): Result<Option<Json>, string> {
    if v.JString? then
      var p :- parse(v.s);
      Success(Some(p))
    else Success(Some(v))
  }

  /** extract_app_compose_from_info: the top-level `app_compose` when
      present, else `tcb_info.app_compose`, else None. Python's `in` and
      `[]` are applied as written, so a response that is not a dict can
      raise. */
  function ExtractAppCompose(info: Json, parse: Parser): (r: Result<Option<Json>, string>)
    ensures info.JObject? && Get(info.members, "app_compose").Some? ==>
              r == Decoded(Get(info.members, "app_compose").value, parse)
    ensures info.JObject? && Get(info.members, "app_compose").None? ==>
              var t := Get(info.members, "tcb_info");
              (t.None? ==> r == Success(None)) &&
              (t.Some? && t.value.JObject? && Get(t.value.members, "app_compose").Some? ==>
                 r == Decoded(Get(t.value.members, "app_compose").value, parse)) &&
              (t.Some? && t.value.JObject? && Get(t.value.members, "app_compose").None? ==>
                 r == Success(None))
    ensures info.JNull? || info.JBool? || info.JInt? || info.JFloat? ==> r.Failure?
  {
    var top :- Contains(info, "app_compose");
    if top then
      var v :- Index(info, "app_compose");
      Decoded(v, parse)
    else
      var hasTcb :- Contains(info, "tcb_info");
      if !hasTcb then Success(None)
      else
        var tcb :- Index(info, "tcb_info");
        var nested :- Contains(tcb, "app_compose");
        if !nested then Success(None)
        else
          var v :- Index(tcb, "app_compose");
          Decoded(v, parse)
  }

  // ---------------------------------------------------------------------
  // The first compose-hash event
  // ---------------------------------------------------------------------

  /** `event.get('event') == 'compose-hash'` on a dict event. */
  predicate IsComposeEvent(e: Json) {
    e.JObject? && Get(e.members, "event") == Some(JString("compose-hash"))
  }

  /** The first event named 'compose-hash' (its members), None when no
      event is; an earlier event that is not a dict has no `get` and
      raises. */
  function ComposeEvent(events: seq<Json>): (r: Result<Option<seq<Member>>, string>)
    ensures r == Success(None) <==>
              forall k :: 0 <= k < |events| ==> events[k].JObject? && !IsComposeEvent(events[k])
    ensures r.Success? && r.value.Some? ==>
              exists i :: 0 <= i < |events| && events[i] == JObject(r.value.value) && IsComposeEvent(events[i]) &&
                          forall k :: 0 <= k < i ==> events[k].JObject? && !IsComposeEvent(events[k])
    ensures r.Failure? ==>
              exists i :: 0 <= i < |events| && !events[i].JObject? &&
                          forall k :: 0 <= k < i ==> events[k].JObject? && !IsComposeEvent(events[k])
  {
    if |events| == 0 then Success(None)
    else if !events[0].JObject? then Failure(NoGet)
    else if IsComposeEvent(events[0]) then Success(Some(events[0].members))
    else
      var r := ComposeEvent(events[1..]);
      assert forall k :: 1 <= k < |events| ==> events[k] == events[1..][k - 1];
      r
  }

  // ---------------------------------------------------------------------
  // extract_compose_hash_from_attestation
  // ---------------------------------------------------------------------

  /** The event list to search: a falsy or missing `event_log` gives None,
      a str is parsed, anything else is iterated as it is. */
  function EventLog(att: Json, parse: Parser): Result<Option<seq<Json>>, string> {
    if !att.JObject? then Failure(NoGet)
    else
      var log := Get(att.members, "event_log");
      if log.None? || !Truthy(log.value) then Success(None)
      else
        var events :- if log.value.JString? then parse(log.value.s) else Success(log.value);
        var xs :- Iterate(events);
        Success(Some(xs))
  }

  /** What extract_compose_hash_from_attestation returns: the
      `event_payload` of the first compose-hash event (None when that event
      has none), or None when there is no event log or no such event. */
  function AttestedHash(att: Json, parse: Parser): (r: Result<Option<Json>, string>)
    ensures EventLog(att, parse) == Success(None) ==> r == Success(None)
    ensures r.Success? && r.value.Some? ==>
              EventLog(att, parse).Success? && EventLog(att, parse).value.Some? &&
              exists i :: 0 <= i < |EventLog(att, parse).value.value| &&
                          IsComposeEvent(EventLog(att, parse).value.value[i]) &&
                          Get(EventLog(att, parse).value.value[i].members, "event_payload") == r.value &&
                          forall k :: 0 <= k < i ==> !IsComposeEvent(EventLog(att, parse).value.value[k])
  {
    var log :- EventLog(att, parse);
    if log.None? then Success(None)
    else
      var e :- ComposeEvent(log.value);
      if e.None? then Success(None) else Success(Get(e.value, "event_payload"))
  }

  /** extract_compose_hash_from_attestation, with its search loop. */
  method ExtractComposeHash(att: Json, parse: Parser) returns (r: Result<Option<Json>, string>)
    ensures r == AttestedHash(att, parse)
  {
    if !att.JObject? {
      return Failure(NoGet);
    }
    var log := Get(att.members, "event_log");
    if log.None? || !Truthy(log.value) {
      return Success(None);
    }
    var events := log.value;
    if events.JString? {
      var p := parse(events.s);
      if p.Failure? {
        return Failure(p.error);
      }
      events := p.value;
    }
    var items := Iterate(events);
    if items.Failure? {
      return Failure(items.error);
    }
    var xs := items.value;
    assert EventLog(att, parse) == Success(Some(xs));
    var i := 0;
    while i < |xs|
      invariant 0 <= i <= |xs|
      invariant ComposeEvent(xs) == ComposeEvent(xs[i..])
    {
      if !xs[i].JObject? {
        return Failure(NoGet);
      }
      if Get(xs[i].members, "event") == Some(JString("compose-hash")) {
        return Success(Get(xs[i].members, "event_payload"));
      }
      assert xs[i..][1..] == xs[i + 1..];
      i := i + 1;
    }
    return Success(None);
  }

  // ---------------------------------------------------------------------
  // compute_compose_hash.py: comparing with an attestation file
  // ---------------------------------------------------------------------

  /** How main ends once the hash is computed: MATCH (exit 0), MISMATCH or a
      reported parse error (exit 1), or an exception main does not catch
      (a traceback, also exit 1). */
  datatype Outcome = Match | Mismatch | ParseError | Crash {
    function ExitCode(): int {
      if Match? then 0 else 1
    }
  }

  /** main's comparison: `attestation['event_log']` (KeyError is a parse
      error), json.loads of it (a decode error is a parse error), then the
      `event_payload` of the first compose-hash event (no such event is
      StopIteration and a missing payload is KeyError: both parse errors). */
  function CompareWithAttestation(computed: string, attestation: Json, parse: Parser): (o: Outcome)
    ensures o == Match ==> attestation.JObject?
    ensures o.ExitCode() == 0 <==> o == Match
  {
    if !attestation.JObject? then Crash
    else
      var log := Get(attestation.members, "event_log");
      if log.None? then ParseError
      else if !log.value.JString? then Crash
      else
        match parse(log.value.s)
        case Failure(_) => ParseError
        case Success(events) =>
          match Iterate(events)
          case Failure(_) => Crash
          case Success(xs) =>
            match ComposeEvent(xs)
            case Failure(_) => Crash
            case Success(None) => ParseError
            case Success(Some(e)) =>
              match Get(e, "event_payload")
              case None => ParseError
              case Some(payload) => if payload == JString(computed) then Match else Mismatch
  }

  /** MATCH exactly when the first compose-hash event in the parsed event
      list carries the computed hash as its payload. */
  lemma {:induction false} MatchMeans(computed: string, ms: seq<Member>, s: string, parse: Parser, xs: seq<Json>)
    requires Get(ms, "event_log") == Some(JString(s)) && parse(s) == Success(JArray(xs))
    ensures CompareWithAttestation(computed, JObject(ms), parse) == Match <==>
              exists i :: 0 <= i < |xs| && IsComposeEvent(xs[i]) &&
                          Get(xs[i].members, "event_payload") == Some(JString(computed)) &&
                          forall k :: 0 <= k < i ==> xs[k].JObject? && !IsComposeEvent(xs[k])
  {
    var r := ComposeEvent(xs);
    if exists i :: 0 <= i < |xs| && IsComposeEvent(xs[i]) &&
                   Get(xs[i].members, "event_payload") == Some(JString(computed)) &&
                   forall k :: 0 <= k < i ==> xs[k].JObject? && !IsComposeEvent(xs[k]) {
      var i :| 0 <= i < |xs| && IsComposeEvent(xs[i]) &&
               Get(xs[i].members, "event_payload") == Some(JString(computed)) &&
               forall k :: 0 <= k < i ==> xs[k].JObject? && !IsComposeEvent(xs[k]);
      FirstComposeEvent(xs, i);
    }
  }

  /** When event i is the first compose-hash event and every earlier event
      is a dict, the search finds event i. */
  lemma {:induction false} FirstComposeEvent(xs: seq<Json>, i: nat)
    requires i < |xs| && IsComposeEvent(xs[i])
    requires forall k :: 0 <= k < i ==> xs[k].JObject? && !IsComposeEvent(xs[k])
    ensures ComposeEvent(xs) == Success(Some(xs[i].members))
  {
    if i > 0 {
      assert xs[1..][i - 1] == xs[i];
      FirstComposeEvent(xs[1..], i - 1);
    }
  }

  /** An event list with no compose-hash event is reported as a parse
      error, never as a match. */
  lemma NoEventIsParseError(computed: string, ms: seq<Member>, s: string, parse: Parser, xs: seq<Json>)
    requires Get(ms, "event_log") == Some(JString(s)) && parse(s) == Success(JArray(xs))
    requires forall k :: 0 <= k < |xs| ==> xs[k].JObject? && !IsComposeEvent(xs[k])
    ensures CompareWithAttestation(computed, JObject(ms), parse) == ParseError
  {
  }

  /** The two scripts read the same hash out of an attestation whose event
      log is a JSON string: when the command-line check says MATCH, the
      remote check's extractor returns that same hash. */
  lemma {:induction false} ScriptsAgree(computed: string, ms: seq<Member>, s: string, parse: Parser)
    requires Get(ms, "event_log") == Some(JString(s))
    requires parse("").Failure?
    requires CompareWithAttestation(computed, JObject(ms), parse) == Match
    ensures AttestedHash(JObject(ms), parse) == Success(Some(JString(computed)))
  {
    assert parse(s).Success?;
  }

  // ---------------------------------------------------------------------
  // verify_remote_attestation
  // ---------------------------------------------------------------------

  /** `base_url.rstrip('/')`. */
  function BaseUrl(url: string): (b: string)
    ensures |b| == 0 || b[|b| - 1] != '/'
  {
    RStrip(url, '/')
  }

  function InfoUrl(url: string): string { BaseUrl(url) + "/info" }

  function AttestationUrl(url: string): string { BaseUrl(url) + "/attestation" }

  /** A trailing slash on the base URL does not change the endpoints. */
  lemma TrailingSlashIgnored(url: string)
    ensures InfoUrl(url + "/") == InfoUrl(url)
    ensures AttestationUrl(url + "/") == AttestationUrl(url)
  {
    RStripExtra(url, '/');
  }

  /** Steps 1 and 2: from the /info response to the computed hash. None
      when verification stops with False: no app-compose, an empty one, or
      one whose hash cannot be computed (a non-dict). */
  function ComputedHash(info: Json, parse: Parser, dumps: Json -> string,
                        sha256: seq<byte> -> seq<byte>): (r: Result<Option<string>, string>)
    ensures r.Success? && r.value.Some? <==>
              var app := ExtractAppCompose(info, parse);
              app.Success? && app.value.Some? && app.value.value.JObject? && app.value.value.members != []
    ensures r.Success? && r.value.Some? ==>
              r.value.value == ComposeHash(ExtractAppCompose(info, parse).value.value, dumps, sha256).value
  {
    var app :- ExtractAppCompose(info, parse);
    if app.None? || !Truthy(app.value) then Success(None)
    else Success(ComposeHash(app.value, dumps, sha256))
  }

  /** Steps 3 and 4: from the /attestation fetch to the comparison. */
  function CompareAttested(computed: string, att: Fetch, parse: Parser): (r: Result<bool, string>)
    ensures r == Success(true) <==>
              computed != "" && att.Fetched? && AttestedHash(att.body, parse) == Success(Some(JString(computed)))
  {
    match att
    case UrlError => Success(false)
    case InvalidJson => Success(false)
    case OtherError(m) => Failure(m)
    case Fetched(body) =>
      var attested :- AttestedHash(body, parse);
      if attested.None? || !Truthy(attested.value) then Success(false)
      else Success(attested.value == JString(computed))
  }

  /** What verify_remote_attestation returns (Failure: an exception it lets
      escape). A fetch error, a missing or empty app-compose, a hash that
      cannot be computed and a missing or empty attested hash give False;
      otherwise the two hashes are compared. */
  function Verdict(url: string, fetch: string -> Fetch, parse: Parser,
                   dumps: Json -> string, sha256: seq<byte> -> seq<byte>): Result<bool, string>
  {
    match fetch(InfoUrl(url))
    case UrlError => Success(false)
    case InvalidJson => Success(false)
    case OtherError(m) => Failure(m)
    case Fetched(info) =>
      var computed :- ComputedHash(info, parse, dumps, sha256);
      if computed.None? then Success(false)
      else CompareAttested(computed.value, fetch(AttestationUrl(url)), parse)
  }

  /** Steps 3 and 4 of verify_remote_attestation: fetch the attestation,
      extract its hash and compare (printing left out). */
  method CheckAttestation(url: string, computed: string, fetch: string -> Fetch, parse: Parser)
    returns (r: Result<bool, string>)
    ensures r == CompareAttested(computed, fetch(AttestationUrl(url)), parse)
  {
    var att := fetch(BaseUrl(url) + "/attestation");
    if att.UrlError? || att.InvalidJson? {
      return Success(false);
    }
    if att.OtherError? {
      return Failure(att.msg);
    }
    var attested := ExtractComposeHash(att.body, parse);
    if attested.Failure? {
      return Failure(attested.error);
    }
    if attested.value.None? || !Truthy(attested.value.value) {
      return Success(false);
    }
    return Success(attested.value.value == JString(computed));
  }

  /** verify_remote_attestation as the sequence of steps with early
      returns (printing left out). */
  method VerifyRemoteAttestation(url: string, fetch: string -> Fetch, parse: Parser,
                                 dumps: Json -> string, sha256: seq<byte> -> seq<byte>)
    returns (r: Result<bool, string>)
    ensures r == Verdict(url, fetch, parse, dumps, sha256)
  {
    var base := BaseUrl(url);
    var info := fetch(base + "/info");
    if info.UrlError? || info.InvalidJson? {
      return Success(false);
    }
    if info.OtherError? {
      return Failure(info.msg);
    }
    var app := ExtractAppCompose(info.body, parse);
    if app.Failure? {
      return Failure(app.error);
    }
    if app.value.None? || !Truthy(app.value.value) {
      return Success(false);
    }
    var computed := ComposeHash(app.value.value, dumps, sha256);
    if computed.None? {
      return Success(false);
    }
    assert ComputedHash(info.body, parse, dumps, sha256) == Success(computed);
    r := CheckAttestation(url, computed.value, fetch, parse);
  }

  /** True exactly when both endpoints answer, a non-empty app-compose dict
      is found, and the attestation's compose-hash payload is the hash of
      that dict (and is not empty). */
  lemma VerifiedMeans(url: string, fetch: string -> Fetch, parse: Parser,
                      dumps: Json -> string, sha256: seq<byte> -> seq<byte>)
    ensures Verdict(url, fetch, parse, dumps, sha256) == Success(true) <==>
              fetch(InfoUrl(url)).Fetched? &&
              var app := ExtractAppCompose(fetch(InfoUrl(url)).body, parse);
              app.Success? && app.value.Some? && app.value.value.JObject? && app.value.value.members != [] &&
              var computed := ComposeHash(app.value.value, dumps, sha256).value;
              computed != "" &&
              fetch(AttestationUrl(url)).Fetched? &&
              AttestedHash(fetch(AttestationUrl(url)).body, parse) == Success(Some(JString(computed)))
  {
  }

  /** A missing app-compose or a missing attested hash gives False, not an
      exception. */
  lemma MissingMeansFalse(url: string, fetch: string -> Fetch, parse: Parser,
                          dumps: Json -> string, sha256: seq<byte> -> seq<byte>)
    requires fetch(InfoUrl(url)).Fetched?
    requires ExtractAppCompose(fetch(InfoUrl(url)).body, parse).Success?
    requires var app := ExtractAppCompose(fetch(InfoUrl(url)).body, parse).value;
             app.None? ||
             (ComposeHash(app.value, dumps, sha256).Some? && fetch(AttestationUrl(url)).Fetched? &&
              AttestedHash(fetch(AttestationUrl(url)).body, parse) == Success(None))
    ensures Verdict(url, fetch, parse, dumps, sha256) == Success(false)
  {
  }
}
