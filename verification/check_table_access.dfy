/** src/check-table-access.ts: probe each name of a fixed catalog on the project's REST
    endpoint with the discovered credentials, and sort the names into publicly readable
    ("open") and not readable ("closed"). The legacy copy in src/index.ts shares the
    classification defined here. */
module TableAccess {
  import opened Common
  import opened Text
  import opened Urls
  import opened Types
  import opened Http

  const Catalog: seq<string> := [
    "users", "user", "auth_users", "auth_user", "profiles", "profile", "user_profiles",
    "user_profile", "accounts", "account", "files", "file", "documents", "document",
    "images", "image"]

  /** One probe request: its URL text and its headers. */
  datatype Probe = Probe(url: string, headers: map<string, string>)

  /** The network, as the auditor sees it: what each probe settles to. */
  type Fetch = Probe -> Reply

  /** The URL `new URL("/rest/v1/" + name, base.origin)` with `limit=1` set. */
  function ProbeUrl(base: Url, name: string): (r: Result<Url, string>)
    ensures r.Success? <==> HasTupleOrigin(base.scheme)
    ensures r.Success? ==> r.value == Url(base.scheme, base.host, "/rest/v1/" + name, "limit=1", "")
  {
    match ResolveAgainstOrigin("/rest/v1/" + name, base)
    case Failure(e) => Failure(e)
    case Success(u) => Success(u.(query := "limit=1"))
  }

  /** The request for `name`: the probe URL, and the two credential headers. */
  function ProbeFor(base: Url, authorization: string, apiKey: string, name: string): (r: Result<Probe, string>)
    ensures r.Success? <==> HasTupleOrigin(base.scheme)
    ensures r.Success? ==>
      && r.value.url == Href(Url(base.scheme, base.host, "/rest/v1/" + name, "limit=1", ""))
      && r.value.headers.Keys == {"Authorization", "apikey"}
      && r.value.headers["Authorization"] == authorization
      && r.value.headers["apikey"] == apiKey
  {
    match ProbeUrl(base, name)
    case Failure(e) => Failure(e)
    case Success(u) => Success(Probe(Href(u), map["Authorization" := authorization, "apikey" := apiKey]))
  }

  /** What `tryFetchData` returns: `{ data }` or `{ error }`. */
  datatype FetchData = Data(length: nat) | Error(message: string)

  const TableMissing: string := "Table does not exist"

  /** `tryFetchData` once the request has settled with `response`. */
  function TryFetchData(response: Response): (r: FetchData)
    ensures response.ok <==> r.Data?
    ensures r.Data? ==> r.length == response.jsonLength
    ensures !response.ok && Contains(response.body, "does not exist") ==> r == Error(TableMissing)
    ensures !response.ok && !Contains(response.body, "does not exist") ==> r == Error(response.body)
  {
    if !response.ok then
      Error(if Contains(response.body, "does not exist") then TableMissing else response.body)
    else Data(response.jsonLength)
  }

  /** The message of the `TypeError` raised by `response.data.length` when the result has
      no `data`. */
  const NoDataError: string := "Cannot read properties of undefined (reading 'length')"

  /** What happens to one catalog name. An error result with an empty message is falsy, so
      the loop goes on to read `data`, which is missing: the whole audit throws. */
  datatype Verdict = Open | Closed | Skipped(error: string) | Crash(message: string)

  /** The verdict on `name` for a result of `tryFetchData`. */
  function Classify(d: FetchData): (v: Verdict)
    ensures v.Open? <==> d.Data? && d.length > 0
    ensures v.Closed? <==> d.Data? && d.length == 0
    ensures v.Skipped? <==> d.Error? && d.message != ""
    ensures v.Crash? ==> v.message == NoDataError
  {
    match d
    case Error(m) => if m != "" then Skipped(m) else Crash(NoDataError)
    case Data(n) => if n > 0 then Open else Closed
  }

  /** The verdict on `name`: a base URL without a usable origin, or a rejected request,
      throws out of the audit. */
  function VerdictFor(base: Url, authorization: string, apiKey: string, fetch: Fetch, name: string): Verdict {
    match ProbeFor(base, authorization, apiKey, name)
    case Failure(e) => Crash(e)
    case Success(p) =>
      match fetch(p)
      case Rejected(m) => Crash(m)
      case Answered(response) => Classify(TryFetchData(response))
  }

  /** One turn of the loop: build the probe, send it, classify the result. */
  method ProbeTable(base: Url, authorization: string, apiKey: string, fetch: Fetch, tableName: string)
    returns (v: Verdict)
    ensures v == VerdictFor(base, authorization, apiKey, fetch, tableName)
  {
    var probe := ProbeFor(base, authorization, apiKey, tableName);
    if probe.Failure? {
      return Crash(probe.error);
    }
    var reply := fetch(probe.value);
    if reply.Rejected? {
      return Crash(reply.message);
    }
    var response := TryFetchData(reply.response);
    if response.Error? && response.message != "" {
      return Skipped(response.message);
    }
    if response.Error? {
      // `response.data` is undefined here.
      return Crash(NoDataError);
    }
    if response.length > 0 {
      return Open;
    }
    return Closed;
  }

  /** The verdicts on every name of `names`, in order. */
  function Verdicts(base: Url, authorization: string, apiKey: string, fetch: Fetch, names: seq<string>): (r: seq<Verdict>)
    ensures |r| == |names|
    ensures forall k :: 0 <= k < |names| ==> r[k] == VerdictFor(base, authorization, apiKey, fetch, names[k])
  {
    seq(|names|, k requires 0 <= k < |names| => VerdictFor(base, authorization, apiKey, fetch, names[k]))
  }

  /** The two lists after the loop has run over `names` with verdicts `vs`, and the error
      that stopped it, if one did. */
  datatype Tally = Tally(open: seq<string>, closed: seq<string>, crash: Option<string>)

  function TallyOf(names: seq<string>, vs: seq<Verdict>): Tally
    requires |names| == |vs|
  {
    if names == [] then Tally([], [], None)
    else
      var t := TallyOf(names[..|names| - 1], vs[..|vs| - 1]);
      var name := names[|names| - 1];
      if t.crash.Some? then t
      else
        match vs[|vs| - 1]
        case Open => t.(open := t.open + [name])
        case Closed => t.(closed := t.closed + [name])
        case Skipped(_) => t
        case Crash(m) => t.(crash := Some(m))
  }

  /** The outcome of `checkTablePublicAccess`: the two lists, or the error it throws. */
  function AuditResult(t: Tally): Result<(seq<string>, seq<string>), string> {
    match t.crash
    case None => Success((t.open, t.closed))
    case Some(m) => Failure(m)
  }

  /** What `checkTablePublicAccess(info)` yields: the tally of the catalog's verdicts. */
  function Audit(info: AuthInfo<Url>, fetch: Fetch): Result<(seq<string>, seq<string>), string> {
    AuditResult(TallyOf(Catalog, Verdicts(GetStandardUrl(info.url), info.authorization, info.apiKey, fetch, Catalog)))
  }

  /** `checkTablePublicAccess(authInfos)`: the catalog probed in order. */
  method CheckTablePublicAccess(info: AuthInfo<Url>, fetch: Fetch) returns (r: Result<(seq<string>, seq<string>), string>)
    ensures r == Audit(info, fetch)
  {
    var url := GetStandardUrl(info.url);
    r := ProbeAll(url, info.authorization, info.apiKey, fetch, Catalog);
  }

  /** The loop of `checkTablePublicAccess` over `names`. */
  method ProbeAll(base: Url, authorization: string, apiKey: string, fetch: Fetch, names: seq<string>)
    returns (r: Result<(seq<string>, seq<string>), string>)
    ensures r == AuditResult(TallyOf(names, Verdicts(base, authorization, apiKey, fetch, names)))
  {
    ghost var vs := Verdicts(base, authorization, apiKey, fetch, names);
    var openTables: seq<string> := [];
    var closedTables: seq<string> := [];
    var i := 0;
    while i < |names|
      invariant 0 <= i <= |names|
      invariant TallyOf(names[..i], vs[..i]) == Tally(openTables, closedTables, None)
    {
      var crash;
      openTables, closedTables, crash := ProbeTurn(base, authorization, apiKey, fetch, names, vs, i, openTables, closedTables);
      if crash.Some? {
        CrashSticks(names, vs, i + 1);
        return Failure(crash.value);
      }
      i := i + 1;
    }
    assert names[..i] == names && vs[..i] == vs;
    r := Success((openTables, closedTables));
  }

  /** One turn of the loop on `names[i]`: probe it and add it to its list; a crash stops
      the loop. */
  method ProbeTurn(base: Url, authorization: string, apiKey: string, fetch: Fetch, names: seq<string>,
                   ghost vs: seq<Verdict>, i: nat, openTables: seq<string>, closedTables: seq<string>)
    returns (open': seq<string>, closed': seq<string>, crash: Option<string>)
    requires |names| == |vs| && i < |names| && vs[i] == VerdictFor(base, authorization, apiKey, fetch, names[i])
    requires TallyOf(names[..i], vs[..i]) == Tally(openTables, closedTables, None)
    ensures TallyOf(names[..i + 1], vs[..i + 1]) == Tally(open', closed', crash)
  {
    var tableName := names[i];
    TallyStep(names, vs, i);
    var verdict := ProbeTable(base, authorization, apiKey, fetch, tableName);
    open', closed', crash := openTables, closedTables, None;
    match verdict {
      case Crash(m) =>
        crash := Some(m);
      case Skipped(_) =>
        // Logged as "Error on table", and the loop goes on.
      case Open =>
        open' := openTables + [tableName];
      case Closed =>
        closed' := closedTables + [tableName];
    }
  }

  /** One more name extends the tally by that name's verdict. */
  lemma TallyStep(names: seq<string>, vs: seq<Verdict>, i: nat)
    requires |names| == |vs| && i < |names|
    ensures var t := TallyOf(names[..i], vs[..i]);
      TallyOf(names[..i + 1], vs[..i + 1]) ==
        if t.crash.Some? then t
        else match vs[i]
          case Open => t.(open := t.open + [names[i]])
          case Closed => t.(closed := t.closed + [names[i]])
          case Skipped(_) => t
          case Crash(m) => t.(crash := Some(m))
  {
    assert names[..i + 1][..i] == names[..i];
    assert vs[..i + 1][..i] == vs[..i];
  }

  /** Once a crash is tallied, later names change nothing. */
  lemma {:induction false} CrashSticks(names: seq<string>, vs: seq<Verdict>, j: nat)
    requires |names| == |vs| && j <= |names|
    requires TallyOf(names[..j], vs[..j]).crash.Some?
    ensures TallyOf(names, vs) == TallyOf(names[..j], vs[..j])
    decreases |names|
  {
    if j < |names| {
      var n := |names|;
      assert names[..n - 1][..j] == names[..j];
      assert vs[..n - 1][..j] == vs[..j];
      CrashSticks(names[..n - 1], vs[..n - 1], j);
    } else {
      assert names[..j] == names && vs[..j] == vs;
    }
  }

  // ---------------------------------------------------------------------------------------
  // Properties of the tally.

  /** `a` is an order-preserving subsequence of `b`: `b` with some elements left out. */
  predicate IsSubsequence(a: seq<string>, b: seq<string>) {
    if a == [] then true
    else if b == [] then false
    else
      || (a[|a| - 1] == b[|b| - 1] && IsSubsequence(a[..|a| - 1], b[..|b| - 1]))
      || IsSubsequence(a, b[..|b| - 1])
  }

  lemma {:induction false} SubsequenceExtend(a: seq<string>, b: seq<string>, x: string)
    requires IsSubsequence(a, b)
    ensures IsSubsequence(a, b + [x])
    ensures IsSubsequence(a + [x], b + [x])
  {
    assert (b + [x])[..|b|] == b;
    assert (a + [x])[..|a|] == a;
  }

  /** Both lists keep catalog order: each is a subsequence of the names probed. */
  lemma {:induction false} TallyKeepsOrder(names: seq<string>, vs: seq<Verdict>)
    requires |names| == |vs|
    ensures IsSubsequence(TallyOf(names, vs).open, names)
    ensures IsSubsequence(TallyOf(names, vs).closed, names)
  {
    if names != [] {
      var init := names[..|names| - 1];
      var last := names[|names| - 1];
      TallyKeepsOrder(init, vs[..|vs| - 1]);
      assert names == init + [last];
      var t := TallyOf(init, vs[..|vs| - 1]);
      SubsequenceExtend(t.open, init, last);
      SubsequenceExtend(t.closed, init, last);
    }
  }

  /** How many verdicts of `vs` skip their name. */
  function SkipCount(vs: seq<Verdict>): nat {
    if vs == [] then 0 else SkipCount(vs[..|vs| - 1]) + (if vs[|vs| - 1].Skipped? then 1 else 0)
  }

  /** When nothing crashes, every name is open, closed or skipped:
      |open| + |closed| + |skipped| = |names|. */
  lemma {:induction false} TallyCounts(names: seq<string>, vs: seq<Verdict>)
    requires |names| == |vs|
    requires forall k :: 0 <= k < |vs| ==> !vs[k].Crash?
    ensures TallyOf(names, vs).crash.None?
    ensures |TallyOf(names, vs).open| + |TallyOf(names, vs).closed| + SkipCount(vs) == |names|
  {
    if names != [] {
      TallyCounts(names[..|names| - 1], vs[..|vs| - 1]);
    }
  }

  /** The audit throws exactly when some verdict crashes, and then with the message of the
      first one. */
  lemma {:induction false} TallyCrashIsFirst(names: seq<string>, vs: seq<Verdict>)
    requires |names| == |vs|
    ensures TallyOf(names, vs).crash.None? <==> forall k :: 0 <= k < |vs| ==> !vs[k].Crash?
    ensures TallyOf(names, vs).crash.Some? ==>
      exists k :: 0 <= k < |vs| && vs[k].Crash? && TallyOf(names, vs).crash.value == vs[k].message
        && forall m :: 0 <= m < k ==> !vs[m].Crash?
  {
    if names != [] {
      var init := vs[..|vs| - 1];
      TallyCrashIsFirst(names[..|names| - 1], init);
      assert forall k :: 0 <= k < |init| ==> init[k] == vs[k];
    }
  }

  /** Without crashes, a name is listed open exactly when its verdict is open, and closed
      exactly when its verdict is closed; a skipped name is in neither list. */
  lemma {:induction false} TallyMembership(names: seq<string>, vs: seq<Verdict>, k: nat)
    requires |names| == |vs| && k < |names|
    requires forall m :: 0 <= m < |names| ==> m != k ==> names[m] != names[k]
    requires TallyOf(names, vs).crash.None?
    ensures names[k] in TallyOf(names, vs).open <==> vs[k] == Open
    ensures names[k] in TallyOf(names, vs).closed <==> vs[k] == Closed
  {
    var n := |names|;
    var init := names[..n - 1];
    var vinit := vs[..n - 1];
    var t := TallyOf(init, vinit);
    assert t.crash.None?;
    if k < n - 1 {
      assert forall m :: 0 <= m < |init| ==> m != k ==> init[m] != init[k];
      TallyMembership(init, vinit, k);
      assert names[n - 1] != names[k];
    } else {
      TallyOnlyListsItsNames(init, vinit);
      assert forall m :: 0 <= m < |init| ==> init[m] != names[k];
    }
  }

  /** The lists only hold names that were probed. */
  lemma {:induction false} TallyOnlyListsItsNames(names: seq<string>, vs: seq<Verdict>)
    requires |names| == |vs|
    ensures forall x :: x in TallyOf(names, vs).open ==> x in names
    ensures forall x :: x in TallyOf(names, vs).closed ==> x in names
  {
    if names != [] {
      var init := names[..|names| - 1];
      TallyOnlyListsItsNames(init, vs[..|vs| - 1]);
      assert forall x :: x in init ==> x in names;
    }
  }

  lemma CatalogDistinct()
    ensures |Catalog| == 16
    ensures forall i, j :: 0 <= i < j < |Catalog| ==> Catalog[i] != Catalog[j]
  {
  }

  /** The open and closed lists of a finished audit are disjoint. */
  lemma OpenClosedDisjoint(vs: seq<Verdict>)
    requires |vs| == |Catalog|
    requires TallyOf(Catalog, vs).crash.None?
    ensures forall x :: x in TallyOf(Catalog, vs).open ==> x !in TallyOf(Catalog, vs).closed
  {
    var t := TallyOf(Catalog, vs);
    CatalogDistinct();
    TallyOnlyListsItsNames(Catalog, vs);
    forall x | x in t.open ensures x !in t.closed {
      var k :| 0 <= k < |Catalog| && Catalog[k] == x;
      TallyMembership(Catalog, vs, k);
    }
  }
}
