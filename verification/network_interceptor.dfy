/** The `Network.requestWillBeSent` callback of src/browser/network-interceptor.ts (and its
    copies in src/browser.ts and src/index.ts): an observed request that goes to the
    provider and carries both credential headers overwrites the shared record. */
module NetworkInterceptor {
  import opened Common
  import opened Text
  import opened Types

  /** A request as the browser reports it: its URL and its header map. */
  datatype ObservedRequest = ObservedRequest(url: string, headers: map<string, string>)

  /** `headers[name]`, with a missing header read as the empty string; both are falsy. */
  function Header(headers: map<string, string>, name: string): (r: string)
    ensures name !in headers ==> r == ""
    ensures name in headers ==> r == headers[name]
  {
    if name in headers then headers[name] else ""
  }

  /** `headers["Authorization"] || headers["authorization"]`. */
  function AuthorizationOf(headers: map<string, string>): (r: string)
    ensures Header(headers, "Authorization") != "" ==> r == headers["Authorization"]
    ensures Header(headers, "Authorization") == "" ==> r == Header(headers, "authorization")
  {
    var first := Header(headers, "Authorization");
    if first != "" then first else Header(headers, "authorization")
  }

  /** `headers["apikey"] || headers["x-api-key"]`. */
  function ApiKeyOf(headers: map<string, string>): (r: string)
    ensures Header(headers, "apikey") != "" ==> r == headers["apikey"]
    ensures Header(headers, "apikey") == "" ==> r == Header(headers, "x-api-key")
  {
    var first := Header(headers, "apikey");
    if first != "" then first else Header(headers, "x-api-key")
  }

  /** The request is one the callback acts on: its URL mentions `supabase` and both
      credentials are present and non-empty. */
  predicate Qualifies(req: ObservedRequest) {
    Contains(req.url, "supabase") && AuthorizationOf(req.headers) != "" && ApiKeyOf(req.headers) != ""
  }

  /** The record after the callback has seen `req`. `wrap` turns the request URL into the
      record's URL type; where it fails (the wrapper throws), the two credentials have
      already been written and the URL stays as it was. */
  function Intercept<U>(v: AuthInfo<U>, req: ObservedRequest, wrap: string -> Option<U>): (r: AuthInfo<U>)
    ensures !Qualifies(req) ==> r == v
    ensures Qualifies(req) ==>
      && r.authorization == AuthorizationOf(req.headers)
      && r.apiKey == ApiKeyOf(req.headers)
      && r.url == (if wrap(req.url).Some? then wrap(req.url).value else v.url)
    ensures Qualifies(req) ==> r.Resolved()
  {
    if !Contains(req.url, "supabase") then v
    else
      var authorization := AuthorizationOf(req.headers);
      var apiKey := ApiKeyOf(req.headers);
      if authorization == "" || apiKey == "" then v
      else
        match wrap(req.url)
        case Some(u) => AuthInfo(authorization, apiKey, u)
        case None => AuthInfo(authorization, apiKey, v.url)
  }

  /** The record after the callback has seen every request of `reqs`, in order. */
  function ApplyAll<U>(v: AuthInfo<U>, reqs: seq<ObservedRequest>, wrap: string -> Option<U>): AuthInfo<U> {
    if reqs == [] then v
    else Intercept(ApplyAll(v, reqs[..|reqs| - 1], wrap), reqs[|reqs| - 1], wrap)
  }

  /** The callback on the mutable record: a method over the shared object. */
  method Observe<U>(rec: AuthRecord<U>, req: ObservedRequest, wrap: string -> Option<U>)
    modifies rec
    ensures rec.Value() == Intercept(old(rec.Value()), req, wrap)
  {
    if !Contains(req.url, "supabase") {
      return;
    }
    var authorization := AuthorizationOf(req.headers);
    var apiKey := ApiKeyOf(req.headers);
    if authorization == "" || apiKey == "" {
      return;
    }
    rec.authorization := authorization;
    rec.apiKey := apiKey;
    var u := wrap(req.url);
    if u.Some? {
      rec.url := u.value;
    }
  }

  /** Deliver a batch of requests to the callback, in order. */
  method ObserveAll<U>(rec: AuthRecord<U>, reqs: seq<ObservedRequest>, wrap: string -> Option<U>)
    modifies rec
    ensures rec.Value() == ApplyAll(old(rec.Value()), reqs, wrap)
  {
    var i := 0;
    while i < |reqs|
      invariant 0 <= i <= |reqs|
      invariant rec.Value() == ApplyAll(old(rec.Value()), reqs[..i], wrap)
    {
      Observe(rec, reqs[i], wrap);
      assert reqs[..i + 1][..i] == reqs[..i];
      i := i + 1;
    }
    assert reqs[..i] == reqs;
  }

  // ---------------------------------------------------------------------------------------
  // Properties of the callback.

  /** Only the four header names are consulted: two header maps that agree on them give
      the same credentials. */
  lemma OnlyFourHeadersRead(h1: map<string, string>, h2: map<string, string>)
    requires forall name :: name in ["Authorization", "authorization", "apikey", "x-api-key"] ==>
      Header(h1, name) == Header(h2, name)
    ensures AuthorizationOf(h1) == AuthorizationOf(h2) && ApiKeyOf(h1) == ApiKeyOf(h2)
  {
    assert "Authorization" in ["Authorization", "authorization", "apikey", "x-api-key"];
    assert "authorization" in ["Authorization", "authorization", "apikey", "x-api-key"];
    assert "apikey" in ["Authorization", "authorization", "apikey", "x-api-key"];
    assert "x-api-key" in ["Authorization", "authorization", "apikey", "x-api-key"];
  }

  /** Any other spelling of the header name is not read: an `AUTHORIZATION` header alone
      does not make a request qualify. */
  lemma OtherCasingIgnored(token: string, key: string)
    requires token != ""
    ensures AuthorizationOf(map["AUTHORIZATION" := token, "apikey" := key]) == ""
  {
    var h := map["AUTHORIZATION" := token, "apikey" := key];
    assert "Authorization" !in h;
    assert "authorization" !in h;
  }

  /** The record changes only by qualifying requests; without any, it is unchanged. */
  lemma {:induction false} NoQualifyingRequestNoChange<U>(v: AuthInfo<U>, reqs: seq<ObservedRequest>, wrap: string -> Option<U>)
    requires forall k :: 0 <= k < |reqs| ==> !Qualifies(reqs[k])
    ensures ApplyAll(v, reqs, wrap) == v
  {
    if reqs != [] {
      NoQualifyingRequestNoChange(v, reqs[..|reqs| - 1], wrap);
    }
  }

  /** Last writer wins: the credentials are those of the last qualifying request. */
  lemma {:induction false} LastWriterWins<U>(v: AuthInfo<U>, reqs: seq<ObservedRequest>, k: nat, wrap: string -> Option<U>)
    requires k < |reqs| && Qualifies(reqs[k])
    requires forall m :: k < m < |reqs| ==> !Qualifies(reqs[m])
    ensures ApplyAll(v, reqs, wrap).authorization == AuthorizationOf(reqs[k].headers)
    ensures ApplyAll(v, reqs, wrap).apiKey == ApiKeyOf(reqs[k].headers)
    decreases |reqs|
  {
    if k < |reqs| - 1 {
      LastWriterWins(v, reqs[..|reqs| - 1], k, wrap);
    }
  }

  /** A resolved record stays resolved: later requests can only replace the credentials by
      other non-empty ones. */
  lemma {:induction false} ResolvedStaysResolved<U>(v: AuthInfo<U>, reqs: seq<ObservedRequest>, wrap: string -> Option<U>)
    requires v.Resolved()
    ensures ApplyAll(v, reqs, wrap).Resolved()
  {
    if reqs != [] {
      ResolvedStaysResolved(v, reqs[..|reqs| - 1], wrap);
    }
  }

  /** The record is resolved after a batch exactly when it was before, or some request of
      the batch qualifies. */
  lemma {:induction false} ResolvedAfterBatch<U>(v: AuthInfo<U>, reqs: seq<ObservedRequest>, wrap: string -> Option<U>)
    ensures ApplyAll(v, reqs, wrap).Resolved() <==>
      v.Resolved() || exists k :: 0 <= k < |reqs| && Qualifies(reqs[k])
  {
    if reqs != [] {
      var init := reqs[..|reqs| - 1];
      ResolvedAfterBatch(v, init, wrap);
      if exists k :: 0 <= k < |init| && Qualifies(init[k]) {
        var k :| 0 <= k < |init| && Qualifies(init[k]);
        assert reqs[k] == init[k];
      }
      if exists k :: 0 <= k < |reqs| && Qualifies(reqs[k]) {
        var k :| 0 <= k < |reqs| && Qualifies(reqs[k]);
        if k < |init| {
          assert init[k] == reqs[k];
        }
      }
    }
  }

  /** Delivering two batches one after the other is delivering their concatenation. */
  lemma {:induction false} ApplyAllAppend<U>(v: AuthInfo<U>, a: seq<ObservedRequest>, b: seq<ObservedRequest>, wrap: string -> Option<U>)
    ensures ApplyAll(v, a + b, wrap) == ApplyAll(ApplyAll(v, a, wrap), b, wrap)
    decreases |b|
  {
    if b == [] {
      assert a + b == a;
    } else {
      assert (a + b)[..|a + b| - 1] == a + b[..|b| - 1];
      ApplyAllAppend(v, a, b[..|b| - 1], wrap);
    }
  }
}
