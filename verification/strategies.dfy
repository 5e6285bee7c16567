/** src/browser/strategies.ts: the three fallback strategies of the discovery, each driving
    the page and reading the shared record that the interceptor fills in. */
module Strategies {
  import opened Common
  import opened Text
  import opened Urls
  import opened Types
  import opened NetworkInterceptor
  import opened Browser
  import opened PageExtractor
  import opened CredentialFinder

  /** How the interceptor of the current code stores a request URL: `new UrlWrapper(url)`,
      which leaves the URL unchanged when it throws. */
  function WrapUrl(parse: Parser): string -> Option<Url> {
    s => NewUrlWrapper(s, parse).ToOption()
  }

  // ---------------------------------------------------------------------------------------
  // Navigating a list of targets until the record is resolved.

  /** The record after the first `k` navigations to `urls`, the first of them being the
      `n`-th navigation of the page. */
  function Visited<U>(web: Web, n: nat, v: AuthInfo<U>, urls: seq<string>, k: nat, wrap: string -> Option<U>): AuthInfo<U>
    requires k <= |urls|
  {
    ApplyAll(v, AllEvents(Outcomes(web, n, urls[..k])), wrap)
  }

  /** How many of `urls` a visit loop navigates to: it stops as soon as the record is
      resolved, and otherwise when the list is exhausted. */
  function StopIndex<U>(web: Web, n: nat, v: AuthInfo<U>, urls: seq<string>, wrap: string -> Option<U>, from: nat): (c: nat)
    requires from <= |urls|
    ensures from <= c <= |urls|
    ensures c < |urls| ==> Visited(web, n, v, urls, c, wrap).Resolved()
    ensures forall k :: from <= k < c ==> !Visited(web, n, v, urls, k, wrap).Resolved()
    decreases |urls| - from
  {
    if from == |urls| || Visited(web, n, v, urls, from, wrap).Resolved() then from
    else StopIndex(web, n, v, urls, wrap, from + 1)
  }

  /** A loop that has navigated to `i` targets without seeing the record resolved, and
      stops now, has stopped at `StopIndex`. */
  lemma {:induction false} StopIndexIsFirstStop<U>(web: Web, n: nat, v: AuthInfo<U>, urls: seq<string>, wrap: string -> Option<U>, from: nat, i: nat)
    requires from <= i <= |urls|
    requires forall k :: from <= k < i ==> !Visited(web, n, v, urls, k, wrap).Resolved()
    requires i == |urls| || Visited(web, n, v, urls, i, wrap).Resolved()
    ensures StopIndex(web, n, v, urls, wrap, from) == i
    decreases i - from
  {
    if from < i {
      StopIndexIsFirstStop(web, n, v, urls, wrap, from + 1, i);
    }
  }

  /** A visit loop that ends with the record unresolved navigated to every target, and the
      record was unresolved after each of them. */
  lemma StopUnresolved<U>(web: Web, n: nat, v: AuthInfo<U>, urls: seq<string>, wrap: string -> Option<U>)
    requires !Visited(web, n, v, urls, StopIndex(web, n, v, urls, wrap, 0), wrap).Resolved()
    ensures forall k :: 0 <= k <= |urls| ==> !Visited(web, n, v, urls, k, wrap).Resolved()
  {
    var c := StopIndex(web, n, v, urls, wrap, 0);
    assert c == |urls|;
  }

  /** One more navigation extends the visited record by that navigation's requests. */
  lemma VisitedStep<U>(web: Web, n: nat, v: AuthInfo<U>, urls: seq<string>, i: nat, wrap: string -> Option<U>)
    requires i < |urls|
    ensures Visited(web, n, v, urls, i + 1, wrap) ==
      ApplyAll(Visited(web, n, v, urls, i, wrap), web(n + i, urls[i]).events, wrap)
  {
    OutcomesSnoc(web, n, urls, i);
    SnocUnfolds(Outcomes(web, n, urls[..i]), web(n + i, urls[i]));
    ApplyAllAppend(v, AllEvents(Outcomes(web, n, urls[..i])), web(n + i, urls[i]).events, wrap);
  }

  /** A record that is already resolved is never navigated away from. */
  lemma ResolvedVisitsNothing<U>(web: Web, n: nat, v: AuthInfo<U>, urls: seq<string>, wrap: string -> Option<U>)
    requires v.Resolved()
    ensures StopIndex(web, n, v, urls, wrap, 0) == 0
  {
    assert urls[..0] == [];
  }

  // ---------------------------------------------------------------------------------------
  // checkPage.

  /** `checkPage(page, url)`: navigate, and swallow a failed navigation. */
  method CheckPage<U>(page: Page, url: string, rec: AuthRecord<U>, wrap: string -> Option<U>)
    modifies page, rec
    ensures page.log == old(page.log) + [url]
    ensures page.current == old(page.Next(url)).doc
    ensures rec.Value() == ApplyAll(old(rec.Value()), old(page.Next(url)).events, wrap)
  {
    var outcome := page.Goto(url, rec, wrap);
    // A failure is logged and the discovery goes on.
  }

  /** One turn of a visit loop: navigate to the next target. */
  method VisitNext<U>(page: Page, url: string, ghost urls: seq<string>, ghost i: nat, ghost log0: seq<string>,
                      ghost v0: AuthInfo<U>, rec: AuthRecord<U>, wrap: string -> Option<U>)
    requires i < |urls| && url == urls[i] && page.log == log0 + urls[..i]
    requires rec.Value() == Visited(page.web, |log0|, v0, urls, i, wrap) && !rec.Value().Resolved()
    requires forall k :: 0 <= k < i ==> !Visited(page.web, |log0|, v0, urls, k, wrap).Resolved()
    modifies page, rec
    ensures page.log == log0 + urls[..i + 1]
    ensures rec.Value() == Visited(page.web, |log0|, v0, urls, i + 1, wrap)
    ensures forall k :: 0 <= k < i + 1 ==> !Visited(page.web, |log0|, v0, urls, k, wrap).Resolved()
  {
    assert log0 + urls[..i + 1] == page.log + [url] by {
      assert urls[..i + 1] == urls[..i] + [urls[i]];
    }
    VisitedStep(page.web, |log0|, v0, urls, i, wrap);
    CheckPage(page, url, rec, wrap);
  }

  // ---------------------------------------------------------------------------------------
  // trySourceCodeExtraction.

  /** The text the source scan searches: the page HTML, the inline scripts and the external
      scripts fetched, joined with line feeds. */
  function ScanText(content: PageContent, fetched: seq<NavOutcome>): string {
    Join([content.html] + content.scriptContents + OkBodies(fetched), "\n")
  }

  /** `trySourceCodeExtraction(page, authInfos)`. Fetching the external scripts navigates
      the page, so the interceptor may write the record before the scan looks at it. A
      found URL that the wrapper rejects is thrown. */
  method TrySourceCodeExtraction(page: Page, rec: AuthRecord<Url>, parse: Parser) returns (r: Result<bool, string>)
    modifies page, rec
    ensures var content := ExtractPageContent(old(page.current));
      page.log == old(page.log) + content.scriptUrls
    ensures var content := ExtractPageContent(old(page.current));
      var fetched := Outcomes(page.web, |old(page.log)|, content.scriptUrls);
      var afterFetch := ApplyAll(old(rec.Value()), AllEvents(fetched), WrapUrl(parse));
      match FindSupabaseCredentials(ScanText(content, fetched))
      case None => r == Success(false) && rec.Value() == afterFetch
      case Some(c) =>
        match NewUrlWrapper(c.url, parse)
        case Failure(e) => r == Failure(e) && rec.Value() == afterFetch
        case Success(u) => r == Success(true) && rec.Value() == AuthInfo("Bearer " + c.apiKey, c.apiKey, u)
    ensures r == Success(true) ==> rec.Resolved() && rec.authorization == "Bearer " + rec.apiKey
    ensures page.current == LastDocument(page.web, |old(page.log)|, ExtractPageContent(old(page.current)).scriptUrls, old(page.current))
  {
    var content := ExtractPageContent(page.current);
    ghost var fetched := Outcomes(page.web, |page.log|, content.scriptUrls);
    var external := FetchExternalScripts(page, content.scriptUrls, rec, WrapUrl(parse));
    var allContent := Join([content.html] + content.scriptContents + external, "\n");
    var credentials := FindSupabaseCredentials(allContent);
    if credentials.Some? {
      var u := NewUrlWrapper(credentials.value.url, parse);
      if u.Failure? {
        return Failure(u.error);
      }
      rec.url := u.value;
      rec.apiKey := credentials.value.apiKey;
      rec.authorization := "Bearer " + credentials.value.apiKey;
      return Success(true);
    }
    return Success(false);
  }

  // ---------------------------------------------------------------------------------------
  // tryAuthLinksStrategy.

  /** `tryAuthLinksStrategy(page, authInfos)`: the sign-in links of the page that is loaded
      now, visited in order until the record is resolved; the result says whether it is. */
  method TryAuthLinksStrategy<U>(page: Page, rec: AuthRecord<U>, wrap: string -> Option<U>) returns (found: bool)
    modifies page, rec
    ensures var links := ExtractAuthLinks(old(page.current));
      var c := StopIndex(page.web, |old(page.log)|, old(rec.Value()), links, wrap, 0);
      && page.log == old(page.log) + links[..c]
      && rec.Value() == Visited(page.web, |old(page.log)|, old(rec.Value()), links, c, wrap)
    ensures found <==> rec.Resolved()
  {
    var links := ExtractAuthLinks(page.current);
    ghost var log0, v0 := page.log, rec.Value();
    ghost var n0 := |log0|;
    var i := 0;
    while i < |links|
      invariant 0 <= i <= |links|
      invariant page.log == log0 + links[..i]
      invariant rec.Value() == Visited(page.web, n0, v0, links, i, wrap)
      invariant forall k :: 0 <= k < i ==> !Visited(page.web, n0, v0, links, k, wrap).Resolved()
    {
      if rec.Resolved() {
        StopIndexIsFirstStop(page.web, n0, v0, links, wrap, 0, i);
        return true;
      }
      VisitNext(page, links[i], links, i, log0, v0, rec, wrap);
      i := i + 1;
    }
    StopIndexIsFirstStop(page.web, n0, v0, links, wrap, 0, i);
    return rec.authorization != "" && rec.apiKey != "";
  }

  // ---------------------------------------------------------------------------------------
  // tryCommonPathsStrategy.

  const CommonAuthPaths: seq<string> := ["/login", "/register", "/signup", "/sign-in", "/auth"]

  /** The text of `new URL(path, target.origin)` for each common path, in order. */
  function PathTargets(target: Url): (r: seq<string>)
    requires HasTupleOrigin(target.scheme)
    ensures |r| == |CommonAuthPaths|
  {
    seq(|CommonAuthPaths|, k requires 0 <= k < |CommonAuthPaths| =>
      Href(ResolveAgainstOrigin(CommonAuthPaths[k], target).value))
  }

  /** The targets are the five paths, in order, on the scheme and host of the target. */
  lemma PathTargetsOnOrigin(target: Url)
    requires HasTupleOrigin(target.scheme)
    ensures forall k :: 0 <= k < |CommonAuthPaths| ==>
      PathTargets(target)[k] == Href(Url(target.scheme, target.host, CommonAuthPaths[k], "", ""))
  {
  }

  /** With a lawful parser, each target's text parses back to the URL it was built from:
      the page navigates to exactly the resolved common path. */
  lemma PathTargetsParse(target: Url, parse: Parser)
    requires Lawful(parse) && Parsed(parse, target) && HasTupleOrigin(target.scheme)
    ensures forall k :: 0 <= k < |CommonAuthPaths| ==>
      parse(PathTargets(target)[k]) == Some(Url(target.scheme, target.host, CommonAuthPaths[k], "", ""))
  {
    forall k | 0 <= k < |CommonAuthPaths|
      ensures parse(PathTargets(target)[k]) == Some(Url(target.scheme, target.host, CommonAuthPaths[k], "", ""))
    {
      var p := CommonAuthPaths[k];
      assert PlainPath(p);
      ResolvedRoundTrip(p, target, parse);
    }
  }

  /** `tryCommonPathsStrategy(page, websiteUrl, authInfos)`: the five paths on the target's
      origin, visited in order until the record is resolved. An origin that cannot serve as
      a base URL makes the first resolution throw. */
  method TryCommonPathsStrategy<U>(page: Page, target: Url, rec: AuthRecord<U>, wrap: string -> Option<U>)
    returns (r: Result<bool, string>)
    modifies page, rec
    ensures old(rec.Value()).Resolved() ==> r == Success(true) && page.log == old(page.log) && rec.Value() == old(rec.Value())
    ensures !old(rec.Value()).Resolved() && !HasTupleOrigin(target.scheme) ==>
      r == Failure("Invalid URL") && page.log == old(page.log) && rec.Value() == old(rec.Value())
    ensures !old(rec.Value()).Resolved() && HasTupleOrigin(target.scheme) ==>
      var targets := PathTargets(target);
      var c := StopIndex(page.web, |old(page.log)|, old(rec.Value()), targets, wrap, 0);
      && page.log == old(page.log) + targets[..c]
      && rec.Value() == Visited(page.web, |old(page.log)|, old(rec.Value()), targets, c, wrap)
      && r == Success(rec.Resolved())
  {
    ghost var log0, v0 := page.log, rec.Value();
    ghost var n0 := |log0|;
    ghost var targets := if HasTupleOrigin(target.scheme) then PathTargets(target) else seq(|CommonAuthPaths|, _ => "");
    var i := 0;
    assert targets[..0] == [];
    while i < |CommonAuthPaths|
      invariant 0 <= i <= |CommonAuthPaths|
      invariant i > 0 ==> HasTupleOrigin(target.scheme)
      invariant page.log == log0 + targets[..i]
      invariant rec.Value() == Visited(page.web, n0, v0, targets, i, wrap)
      invariant forall k :: 0 <= k < i ==> !Visited(page.web, n0, v0, targets, k, wrap).Resolved()
    {
      if rec.authorization != "" && rec.apiKey != "" {
        StopIndexIsFirstStop(page.web, n0, v0, targets, wrap, 0, i);
        return Success(true);
      }
      var testUrl := ResolveAgainstOrigin(CommonAuthPaths[i], GetStandardUrl(target));
      if testUrl.Failure? {
        return Failure(testUrl.error);
      }
      assert targets[i] == Href(testUrl.value);
      VisitNext(page, Href(testUrl.value), targets, i, log0, v0, rec, wrap);
      i := i + 1;
    }
    StopIndexIsFirstStop(page.web, n0, v0, targets, wrap, 0, i);
    return Success(rec.authorization != "" && rec.apiKey != "");
  }
}
