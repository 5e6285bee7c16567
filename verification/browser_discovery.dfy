/** src/browser/index.ts: `getAuthFromBrowser`, the cascade that loads the target with the
    interceptor listening and then tries the strategies one after the other until the
    record holds both credentials. */
module BrowserDiscovery {
  import opened Common
  import opened Urls
  import opened Types
  import opened NetworkInterceptor
  import opened Browser
  import opened PageExtractor
  import opened CredentialFinder
  import opened Strategies

  /** How a discovery ends: with a resolved record, with the process exiting because
      nothing was found, or with an error thrown out of a strategy. */
  datatype Discovery = Found(info: AuthInfo<Url>) | NotFound | Threw(message: string)

  /** The stages of the cascade, in the order they can run. */
  datatype StageKind = Load | SourceScan | AuthLinks | CommonPaths

  /** A stage that ran, and whether it reported success (for the initial load: whether the
      record was resolved after it). */
  datatype Stage = Stage(kind: StageKind, found: bool)

  const Cascade: seq<StageKind> := [Load, SourceScan, AuthLinks, CommonPaths]

  /** The stages that ran when the cascade stopped at stage `stop`: every earlier one
      reported nothing, and the last one reported `last`. */
  function Ran(stop: nat, last: bool): (r: seq<Stage>)
    requires stop < |Cascade|
    ensures |r| == stop + 1 && r[stop] == Stage(Cascade[stop], last)
    ensures forall k :: 0 <= k < |r| ==> r[k].kind == Cascade[k]
    ensures forall k :: 0 <= k < |r| - 1 ==> !r[k].found
  {
    seq(stop + 1, k requires 0 <= k <= stop => Stage(Cascade[k], if k == stop then last else false))
  }

  /** The document the initial navigation of a fresh page to the target leaves loaded. */
  function LoadedDoc(web: Web, target: Url): Document {
    web(0, Href(target)).doc
  }

  /** The record right after the initial navigation of a fresh page to the target. */
  function AfterLoad(web: Web, target: Url, parse: Parser): AuthInfo<Url> {
    ApplyAll(AuthInfo("", "", target), web(0, Href(target)).events, WrapUrl(parse))
  }

  /** The external scripts of the loaded page, which the source scan navigates to. */
  function Scripts(web: Web, target: Url): seq<string> {
    ExtractPageContent(LoadedDoc(web, target)).scriptUrls
  }

  /** How a fallback stage ends: the strategy's result, the record it leaves, and how many
      navigations the page has made by then. */
  datatype StageEnd = StageEnd(result: Result<bool, string>, record: AuthInfo<Url>, navigations: nat)

  /** The end of the source scan, run on the loaded page after the initial navigation. */
  function ScanEnd(web: Web, target: Url, parse: Parser): StageEnd {
    var content := ExtractPageContent(LoadedDoc(web, target));
    var fetched := Outcomes(web, 1, content.scriptUrls);
    var afterFetch := ApplyAll(AfterLoad(web, target, parse), AllEvents(fetched), WrapUrl(parse));
    var n := 1 + |content.scriptUrls|;
    match FindSupabaseCredentials(ScanText(content, fetched))
    case None => StageEnd(Success(false), afterFetch, n)
    case Some(c) =>
      match NewUrlWrapper(c.url, parse)
      case Failure(e) => StageEnd(Failure(e), afterFetch, n)
      case Success(u) => StageEnd(Success(true), AuthInfo("Bearer " + c.apiKey, c.apiKey, u), n)
  }

  /** The page the scan leaves loaded: the last external script, or the target page when
      it has none. */
  function ScannedDoc(web: Web, target: Url): Document {
    LastDocument(web, 1, Scripts(web, target), LoadedDoc(web, target))
  }

  /** The sign-in links the third stage reads, from the page the scan left loaded. */
  function ScannedLinks(web: Web, target: Url): seq<string> {
    ExtractAuthLinks(ScannedDoc(web, target))
  }

  /** The end of the sign-in link stage, run after the scan. */
  function LinksEnd(web: Web, target: Url, parse: Parser): StageEnd {
    LinksAfter(web, ScanEnd(web, target, parse), ScannedLinks(web, target), parse)
  }

  /** The link stage after a scan that ended with `scan`: the links are visited in order
      until one leaves the record resolved. */
  function LinksAfter(web: Web, scan: StageEnd, links: seq<string>, parse: Parser): StageEnd {
    var c := StopIndex(web, scan.navigations, scan.record, links, WrapUrl(parse), 0);
    var v := Visited(web, scan.navigations, scan.record, links, c, WrapUrl(parse));
    StageEnd(Success(v.Resolved()), v, scan.navigations + c)
  }

  /** The end of the common path stage, run after the sign-in link stage. */
  function PathsEnd(web: Web, target: Url, parse: Parser): StageEnd {
    PathsAfter(web, LinksEnd(web, target, parse), target, parse)
  }

  /** The path stage after a link stage that ended with `links`: skipped when the record
      is already resolved, refused for a target without a tuple origin, and otherwise the
      common paths are visited in order until one leaves the record resolved. */
  function PathsAfter(web: Web, links: StageEnd, target: Url, parse: Parser): StageEnd {
    if links.record.Resolved() then StageEnd(Success(true), links.record, links.navigations)
    else if !HasTupleOrigin(target.scheme) then StageEnd(Failure("Invalid URL"), links.record, links.navigations)
    else
      var paths := PathTargets(target);
      var c := StopIndex(web, links.navigations, links.record, paths, WrapUrl(parse), 0);
      var v := Visited(web, links.navigations, links.record, paths, c, WrapUrl(parse));
      StageEnd(Success(v.Resolved()), v, links.navigations + c)
  }

  /** The final check of the cascade on the record: `process.exit(0)` unless resolved. */
  function Settle(v: AuthInfo<Url>): (d: Discovery)
    ensures d.Found? <==> v.Resolved()
    ensures d.Found? ==> d.info == v
    ensures !d.Threw?
  {
    if v.Resolved() then Found(v) else NotFound
  }

  /** What a whole discovery does: how it ends, the stages it ran, and how many navigations
      the page made. */
  datatype Discovered = Discovered(d: Discovery, ran: seq<Stage>, navigations: nat)

  /** The cascade of src/browser/index.ts:30-62 on a fresh page of `web`. */
  function Discover(web: Web, target: Url, parse: Parser): Discovered {
    Combine(AfterLoad(web, target, parse), ScanEnd(web, target, parse), LinksEnd(web, target, parse),
            PathsEnd(web, target, parse))
  }

  /** The cascade's decisions, given the record after the load and how each stage ends: a
      stage runs only when everything before it found nothing. */
  function Combine(load: AuthInfo<Url>, scan: StageEnd, links: StageEnd, paths: StageEnd): Discovered {
    if load.Resolved() then Discovered(Found(load), Ran(0, true), 1)
    else if scan.result.Failure? then Discovered(Threw(scan.result.error), Ran(1, false), scan.navigations)
    else if scan.result.value then Discovered(Settle(scan.record), Ran(1, true), scan.navigations)
    else if links.record.Resolved() then Discovered(Found(links.record), Ran(2, true), links.navigations)
    else if paths.result.Failure? then Discovered(Threw(paths.result.error), Ran(3, false), paths.navigations)
    else Discovered(Settle(paths.record), Ran(3, paths.result.value), paths.navigations)
  }

  // The three fallback stages, each from the state the previous one left.

  method ScanStage(page: Page, rec: AuthRecord<Url>, target: Url, parse: Parser) returns (r: Result<bool, string>)
    requires |page.log| == 1 && page.current == LoadedDoc(page.web, target)
    requires rec.Value() == AfterLoad(page.web, target, parse)
    modifies page, rec
    ensures StageEnd(r, rec.Value(), |page.log|) == ScanEnd(page.web, target, parse)
    ensures page.current == ScannedDoc(page.web, target)
  {
    r := TrySourceCodeExtraction(page, rec, parse);
  }

  method LinksStage(page: Page, rec: AuthRecord<Url>, target: Url, parse: Parser) returns (found: bool)
    requires |page.log| == ScanEnd(page.web, target, parse).navigations
    requires rec.Value() == ScanEnd(page.web, target, parse).record
    requires page.current == ScannedDoc(page.web, target)
    modifies page, rec
    ensures StageEnd(Success(found), rec.Value(), |page.log|) == LinksEnd(page.web, target, parse)
  {
    found := TryAuthLinksStrategy(page, rec, WrapUrl(parse));
  }

  method PathsStage(page: Page, rec: AuthRecord<Url>, target: Url, parse: Parser) returns (r: Result<bool, string>)
    requires |page.log| == LinksEnd(page.web, target, parse).navigations
    requires rec.Value() == LinksEnd(page.web, target, parse).record
    modifies page, rec
    ensures StageEnd(r, rec.Value(), |page.log|) == PathsEnd(page.web, target, parse)
  {
    r := TryCommonPathsStrategy(page, target, rec, WrapUrl(parse));
  }

  /** `getAuthFromBrowser(websiteUrl)` on a fresh page of `web`. `ran` lists the stages that
      ran; `navigations` counts the page's navigations. */
  method GetAuthFromBrowser(target: Url, web: Web, parse: Parser)
    returns (d: Discovery, ghost ran: seq<Stage>, ghost navigations: nat)
    ensures d == Discover(web, target, parse).d
    ensures Discovered(d, ran, navigations) == Discover(web, target, parse)
  {
    var wrap := WrapUrl(parse);
    var page := new Page(web);
    var rec := new AuthRecord("", "", target);
    CheckPage(page, ToString(target), rec, wrap);
    assert rec.Value() == AfterLoad(web, target, parse);
    var load := rec.authorization != "" && rec.apiKey != "";
    ran := Ran(0, load);

    if !load {
      var foundInSource := ScanStage(page, rec, target, parse);
      if foundInSource.Failure? {
        navigations := |page.log|;
        return Threw(foundInSource.error), Ran(1, false), navigations;
      }
      var scan := foundInSource.value;
      ran := Ran(1, scan);

      if !scan {
        var foundInAuthLinks := LinksStage(page, rec, target, parse);
        ran := Ran(2, foundInAuthLinks);

        if !foundInAuthLinks {
          var foundInPaths := PathsStage(page, rec, target, parse);
          if foundInPaths.Failure? {
            navigations := |page.log|;
            return Threw(foundInPaths.error), Ran(3, false), navigations;
          }
          ran := Ran(3, foundInPaths.value);
        }
      }
    }

    navigations := |page.log|;
    if !(rec.authorization != "" && rec.apiKey != "") {
      // "No Supabase request detected on any page": the process exits.
      return NotFound, ran, navigations;
    }
    return Found(rec.Value()), ran, navigations;
  }

  // ---------------------------------------------------------------------------------------
  // Properties of the cascade.

  /** What the cascade relies on from its stages: a scan that reports success leaves a
      resolved record, and the path stage reports whether the record is resolved. */
  lemma StagesReport(web: Web, target: Url, parse: Parser)
    ensures var scan := ScanEnd(web, target, parse);
      scan.result == Success(true) ==> scan.record.Resolved()
    ensures var links := LinksEnd(web, target, parse);
      links.result == Success(links.record.Resolved())
    ensures var paths := PathsEnd(web, target, parse);
      !LinksEnd(web, target, parse).record.Resolved() && paths.result.Success? ==>
        (paths.result.value <==> paths.record.Resolved())
  {
  }

  /** The stages run in cascade order, each only after every earlier one found nothing; the
      cascade stops early only on a success, and reports a record exactly when the last
      stage found one. Only the source scan and the path stage throw. */
  lemma CombineShape(load: AuthInfo<Url>, scan: StageEnd, links: StageEnd, paths: StageEnd)
    requires scan.result == Success(true) ==> scan.record.Resolved()
    requires !links.record.Resolved() && paths.result.Success? ==> (paths.result.value <==> paths.record.Resolved())
    ensures var r := Combine(load, scan, links, paths);
      && 1 <= |r.ran| <= |Cascade|
      && (forall k :: 0 <= k < |r.ran| ==> r.ran[k].kind == Cascade[k])
      && (forall k :: 0 <= k < |r.ran| - 1 ==> !r.ran[k].found)
      && r.ran[0].found == load.Resolved()
    ensures var r := Combine(load, scan, links, paths);
      && (!r.d.Threw? && |r.ran| < |Cascade| ==> r.ran[|r.ran| - 1].found)
      && (!r.d.Threw? ==> (r.d.Found? <==> r.ran[|r.ran| - 1].found))
      && (r.d.Threw? ==> r.ran[|r.ran| - 1].kind == SourceScan || r.ran[|r.ran| - 1].kind == CommonPaths)
      && (r.d.Found? ==> r.d.info.Resolved())
  {
  }

  lemma CascadeShape(web: Web, target: Url, parse: Parser)
    ensures var r := Discover(web, target, parse);
      && 1 <= |r.ran| <= |Cascade|
      && (forall k :: 0 <= k < |r.ran| ==> r.ran[k].kind == Cascade[k])
      && (forall k :: 0 <= k < |r.ran| - 1 ==> !r.ran[k].found)
      && r.ran[0].found == AfterLoad(web, target, parse).Resolved()
    ensures var r := Discover(web, target, parse);
      && (!r.d.Threw? && |r.ran| < |Cascade| ==> r.ran[|r.ran| - 1].found)
      && (!r.d.Threw? ==> (r.d.Found? <==> r.ran[|r.ran| - 1].found))
      && (r.d.Threw? ==> r.ran[|r.ran| - 1].kind == SourceScan || r.ran[|r.ran| - 1].kind == CommonPaths)
      && (r.d.Found? ==> r.d.info.Resolved())
  {
    StagesReport(web, target, parse);
    CombineShape(AfterLoad(web, target, parse), ScanEnd(web, target, parse), LinksEnd(web, target, parse),
                 PathsEnd(web, target, parse));
  }

  /** The scan makes one navigation per external script of the loaded page. */
  lemma ScanNavigations(web: Web, target: Url, parse: Parser)
    ensures ScanEnd(web, target, parse).navigations == 1 + |Scripts(web, target)|
  {
  }

  /** The link stage makes at most one navigation per link. */
  lemma LinksNavigations(web: Web, scan: StageEnd, links: seq<string>, parse: Parser)
    ensures scan.navigations <= LinksAfter(web, scan, links, parse).navigations <= scan.navigations + |links|
  {
  }

  /** The path stage makes at most one navigation per common path. */
  lemma PathsNavigations(web: Web, links: StageEnd, target: Url, parse: Parser)
    ensures links.navigations <= PathsAfter(web, links, target, parse).navigations
                              <= links.navigations + |CommonAuthPaths|
  {
  }

  /** Where the cascade stops: the navigation count is that of the last stage that ran, and
      the process exits only when every stage ran and found nothing. */
  lemma CombineStops(load: AuthInfo<Url>, scan: StageEnd, links: StageEnd, paths: StageEnd)
    requires scan.result == Success(true) ==> scan.record.Resolved()
    ensures var r := Combine(load, scan, links, paths);
      && (|r.ran| == 1 ==> r.navigations == 1 && r.d == Found(load))
      && (|r.ran| == 2 ==> r.navigations == scan.navigations)
      && (|r.ran| == 3 ==> r.navigations == links.navigations)
      && (|r.ran| == 4 ==> r.navigations == paths.navigations)
    ensures Combine(load, scan, links, paths).d == NotFound ==>
      && !load.Resolved() && scan.result == Success(false) && !links.record.Resolved()
      && paths.result.Success? && !paths.record.Resolved()
  {
  }

  /** The navigations of a discovery: only the initial load when it resolves the record;
      otherwise one per external script, then at most one per sign-in link and one per
      common path. */
  lemma CascadeNavigations(web: Web, target: Url, parse: Parser)
    ensures var r := Discover(web, target, parse);
      |r.ran| == 1 ==> r.navigations == 1 && r.d == Found(AfterLoad(web, target, parse))
    ensures var r := Discover(web, target, parse);
      |r.ran| == 2 ==> r.navigations == 1 + |Scripts(web, target)|
    ensures var r := Discover(web, target, parse);
      |r.ran| >= 2 ==>
        1 + |Scripts(web, target)| <= r.navigations
          <= 1 + |Scripts(web, target)| + |ScannedLinks(web, target)| + |CommonAuthPaths|
  {
    CascadeShape(web, target, parse);
    ScanNavigations(web, target, parse);
    LinksNavigations(web, ScanEnd(web, target, parse), ScannedLinks(web, target), parse);
    PathsNavigations(web, LinksEnd(web, target, parse), target, parse);
    CombineStops(AfterLoad(web, target, parse), ScanEnd(web, target, parse), LinksEnd(web, target, parse),
                 PathsEnd(web, target, parse));
  }

  /** A link stage that leaves the record unresolved visited every link, and the record was
      unresolved after each of them. */
  lemma LinksUnresolved(web: Web, scan: StageEnd, links: seq<string>, parse: Parser)
    requires !LinksAfter(web, scan, links, parse).record.Resolved()
    ensures forall k :: 0 <= k <= |links| ==> !Visited(web, scan.navigations, scan.record, links, k, WrapUrl(parse)).Resolved()
  {
    StopUnresolved(web, scan.navigations, scan.record, links, WrapUrl(parse));
  }

  /** A path stage that settles without a resolved record ran on a tuple origin, visited
      every path, and the record was unresolved after each of them. */
  lemma PathsUnresolved(web: Web, links: StageEnd, target: Url, parse: Parser)
    requires var paths := PathsAfter(web, links, target, parse); paths.result.Success? && !paths.record.Resolved()
    ensures HasTupleOrigin(target.scheme)
    ensures var paths := PathTargets(target);
      forall k :: 0 <= k <= |paths| ==> !Visited(web, links.navigations, links.record, paths, k, WrapUrl(parse)).Resolved()
  {
    StopUnresolved(web, links.navigations, links.record, PathTargets(target), WrapUrl(parse));
  }

  /** The process exits only when the record was unresolved at every point of the cascade:
      after the load, after the scan, after each sign-in link and after each common path. */
  lemma NotFoundMeansNeverResolved(web: Web, target: Url, parse: Parser)
    requires Discover(web, target, parse).d == NotFound
    ensures !AfterLoad(web, target, parse).Resolved()
    ensures ScanEnd(web, target, parse).result == Success(false)
    ensures var scan := ScanEnd(web, target, parse);
      var links := ScannedLinks(web, target);
      forall k :: 0 <= k <= |links| ==> !Visited(web, scan.navigations, scan.record, links, k, WrapUrl(parse)).Resolved()
    ensures HasTupleOrigin(target.scheme)
    ensures var links := LinksEnd(web, target, parse);
      var paths := PathTargets(target);
      forall k :: 0 <= k <= |paths| ==> !Visited(web, links.navigations, links.record, paths, k, WrapUrl(parse)).Resolved()
  {
    CombineStops(AfterLoad(web, target, parse), ScanEnd(web, target, parse), LinksEnd(web, target, parse),
                 PathsEnd(web, target, parse));
    StagesReport(web, target, parse);
    LinksUnresolved(web, ScanEnd(web, target, parse), ScannedLinks(web, target), parse);
    PathsUnresolved(web, LinksEnd(web, target, parse), target, parse);
  }

  /** The sign-in links are read from the page the last external script left loaded, not
      from the target page, whenever the target page has external scripts. */
  lemma LinksReadFromLastScript(web: Web, target: Url)
    requires Scripts(web, target) != []
    ensures var urls := Scripts(web, target);
      ScannedLinks(web, target) == ExtractAuthLinks(Outcomes(web, 1, urls)[|urls| - 1].doc)
  {
    OutcomesLast(web, 1, Scripts(web, target));
  }
}
