/** src/browser.ts: the older `getAuthFromBrowser`, whose record keeps the request URL as
    text. It loads the target (a failure of that navigation is not caught), then, when the
    record is still unresolved, tries the five common paths on the target's origin. */
module LegacyBrowser {
  import opened Common
  import opened Urls
  import opened Types
  import opened NetworkInterceptor
  import opened Browser
  import opened Strategies

  /** The callback stores the request URL as it is. */
  function KeepText(): string -> Option<string> {
    s => Some(s)
  }

  /** How the function ends: with the resolved record, with the process exiting because
      nothing was found, or with an error thrown. */
  datatype Lookup = Resolved(info: AuthInfo<string>) | NothingFound | Raised(message: string)

  /** The record right after the first navigation of a fresh page to `websiteUrl`. */
  function AfterFirstLoad(web: Web, websiteUrl: string): AuthInfo<string> {
    ApplyAll(AuthInfo("", "", ""), web(0, websiteUrl).events, KeepText())
  }

  /** `getAuthFromBrowser(websiteUrl)` on a fresh page of `web`; `log` is the page's
      navigations. */
  method GetAuthFromBrowser(websiteUrl: string, web: Web, parse: Parser)
    returns (d: Lookup, ghost log: seq<string>)
    ensures |log| >= 1 && log[0] == websiteUrl
    ensures d.Resolved? ==> d.info.Resolved()
    ensures web(0, websiteUrl).Failed? ==> d == Raised(web(0, websiteUrl).error) && log == [websiteUrl]
    ensures web(0, websiteUrl).Loaded? && AfterFirstLoad(web, websiteUrl).Resolved() ==>
      d == Resolved(AfterFirstLoad(web, websiteUrl)) && log == [websiteUrl]
    ensures web(0, websiteUrl).Loaded? && !AfterFirstLoad(web, websiteUrl).Resolved() ==>
      match parse(websiteUrl)
      case None => d == Raised("Invalid URL") && log == [websiteUrl]
      case Some(base) =>
        if !HasTupleOrigin(base.scheme) then d == Raised("Invalid URL") && log == [websiteUrl]
        else
          var targets := PathTargets(base);
          var c := StopIndex(web, 1, AfterFirstLoad(web, websiteUrl), targets, KeepText(), 0);
          var v := Visited(web, 1, AfterFirstLoad(web, websiteUrl), targets, c, KeepText());
          && log == [websiteUrl] + targets[..c]
          && d == (if v.Resolved() then Resolved(v) else NothingFound)
  {
    var wrap := KeepText();
    var page := new Page(web);
    var rec := new AuthRecord("", "", "");
    var loaded := page.Goto(websiteUrl, rec, wrap);
    log := page.log;
    if loaded.Failure? {
      return Raised(loaded.error), log;
    }
    if !(rec.authorization != "" && rec.apiKey != "") {
      var baseUrl := parse(websiteUrl);
      if baseUrl.None? {
        return Raised("Invalid URL"), log;
      }
      // The loop of src/browser.ts:68-83 checks the record, resolves the path against the
      // origin, and swallows a failed load: the strategy of the newer version, on text.
      var found := TryCommonPathsStrategy(page, baseUrl.value, rec, wrap);
      log := page.log;
      if found.Failure? {
        return Raised(found.error), log;
      }
    }
    if !(rec.authorization != "" && rec.apiKey != "") {
      // "No Supabase request detected on any page": the process exits.
      return NothingFound, log;
    }
    return Resolved(rec.Value()), log;
  }

  /** The fallback makes at most five more navigations, and none once the first load
      resolved the record. */
  lemma FallbackNavigations(web: Web, websiteUrl: string, base: Url)
    requires HasTupleOrigin(base.scheme)
    ensures StopIndex(web, 1, AfterFirstLoad(web, websiteUrl), PathTargets(base), KeepText(), 0) <= 5
    ensures AfterFirstLoad(web, websiteUrl).Resolved() ==>
      StopIndex(web, 1, AfterFirstLoad(web, websiteUrl), PathTargets(base), KeepText(), 0) == 0
  {
    if AfterFirstLoad(web, websiteUrl).Resolved() {
      ResolvedVisitsNothing(web, 1, AfterFirstLoad(web, websiteUrl), PathTargets(base), KeepText());
    }
  }
}
