/** src/index.ts: the first single-file version of the command-line tool. Credentials come
    from the prompt (provider URL) or from one browser load (any other URL); the audit
    then appends each open or closed table name, one per line, to two result files. */
module LegacyIndex {
  import opened Common
  import opened Text
  import opened Urls
  import opened Types
  import opened NetworkInterceptor
  import opened Browser
  import opened TableAccess
  import opened Prompts
  import opened LegacyBrowser

  /** The text appended for `names`: each name followed by a line feed. */
  function Lines(names: seq<string>): string {
    if names == [] then "" else Lines(names[..|names| - 1]) + names[|names| - 1] + "\n"
  }

  /** A result file reads back, line by line, as the names appended to it (followed by the
      empty text after the last line feed). */
  lemma {:induction false} LinesRoundTrip(names: seq<string>)
    requires forall k :: 0 <= k < |names| ==> '\n' !in names[k]
    ensures CompleteLines(Lines(names)) == names && PendingLine(Lines(names)) == ""
    ensures SplitLines(Lines(names)) == names + [""]
  {
    if names == [] {
      assert SplitLines("") == [""];
    } else {
      var init := names[..|names| - 1];
      var last := names[|names| - 1];
      LinesRoundTrip(init);
      SplitAppendLine(Lines(init), last);
      assert Lines(names) == Lines(init) + last + "\n";
      assert init + [last] == names;
    }
  }

  /** Appending one more name's line to a file. */
  lemma LinesSnoc(file: string, names: seq<string>, name: string)
    ensures file + Lines(names) + (name + "\n") == file + Lines(names + [name])
  {
    assert (names + [name])[..|names|] == names;
  }

  lemma CatalogHasNoLineFeeds()
    ensures forall k :: 0 <= k < |Catalog| ==> '\n' !in Catalog[k]
  {
  }

  /** `open_tables.txt` and `closed_tables.txt`, as their texts. */
  class ResultFiles {
    var openFile: string
    var closedFile: string

    constructor ()
      ensures openFile == "" && closedFile == ""
    {
      openFile, closedFile := "", "";
    }

    /** `testAuthInfos(authInfos)`. `thrown` is the error that escapes it, if any; the
        lines appended before it stay in the files. */
    method TestAuthInfos(info: AuthInfo<string>, parse: Parser, fetch: Fetch) returns (thrown: Option<string>)
      modifies this
      ensures parse(info.url).None? ==>
        thrown == Some("Invalid URL") && openFile == old(openFile) && closedFile == old(closedFile)
      ensures parse(info.url).Some? ==>
        var t := TallyOf(Catalog, Verdicts(parse(info.url).value, info.authorization, info.apiKey, fetch, Catalog));
        && openFile == old(openFile) + Lines(t.open)
        && closedFile == old(closedFile) + Lines(t.closed)
        && thrown == t.crash
    {
      var url := parse(info.url);
      if url.None? {
        return Some("Invalid URL");
      }
      thrown := AppendVerdicts(url.value, info.authorization, info.apiKey, fetch, Catalog);
    }

    /** The loop of `testAuthInfos` over `names`: each open or closed name is appended to
        its file as it is probed. */
    method AppendVerdicts(base: Url, authorization: string, apiKey: string, fetch: Fetch, names: seq<string>)
      returns (thrown: Option<string>)
      modifies this
      ensures var t := TallyOf(names, Verdicts(base, authorization, apiKey, fetch, names));
        && openFile == old(openFile) + Lines(t.open)
        && closedFile == old(closedFile) + Lines(t.closed)
        && thrown == t.crash
    {
      ghost var vs := Verdicts(base, authorization, apiKey, fetch, names);
      ghost var open0, closed0 := openFile, closedFile;
      ghost var openNames: seq<string>, closedNames: seq<string> := [], [];
      var i := 0;
      while i < |names|
        invariant 0 <= i <= |names|
        invariant TallyOf(names[..i], vs[..i]) == Tally(openNames, closedNames, None)
        invariant openFile == open0 + Lines(openNames)
        invariant closedFile == closed0 + Lines(closedNames)
      {
        var tableName := names[i];
        TallyStep(names, vs, i);
        var verdict := ProbeTable(base, authorization, apiKey, fetch, tableName);
        match verdict {
          case Crash(m) =>
            CrashSticks(names, vs, i + 1);
            return Some(m);
          case Skipped(_) =>
          case Open =>
            openFile := openFile + (tableName + "\n");
            LinesSnoc(open0, openNames, tableName);
            openNames := openNames + [tableName];
          case Closed =>
            closedFile := closedFile + (tableName + "\n");
            LinesSnoc(closed0, closedNames, tableName);
            closedNames := closedNames + [tableName];
        }
        i := i + 1;
      }
      assert names[..i] == names && vs[..i] == vs;
      return None;
    }
  }

  /** `isSupabaseUrl(url)` on the entered text. */
  predicate IsSupabaseText(url: string) {
    IsProviderHref(url)
  }

  /** `getAuthFromPrompts(supabaseUrl)`: the entered URL is kept as it is. */
  function GetAuthFromPrompts(supabaseUrl: string, keyAnswers: seq<string>): (r: Option<AuthInfo<string>>)
    ensures r.Some? ==> r.value.url == supabaseUrl && r.value.authorization == "Bearer " + r.value.apiKey
    ensures r.Some? <==> Ask(keyAnswers, ValidateApiKey).Some?
  {
    match Ask(keyAnswers, ValidateApiKey)
    case None => None
    case Some(apiKey) => Some(RecordFor(apiKey, supabaseUrl))
  }

  /** `getAuthFromBrowser(websiteUrl)`: one load, no fallback; the navigation is not
      guarded. */
  method GetAuthFromBrowser(websiteUrl: string, web: Web) returns (d: Lookup)
    ensures web(0, websiteUrl).Failed? ==> d == Raised(web(0, websiteUrl).error)
    ensures web(0, websiteUrl).Loaded? ==>
      d == (if AfterFirstLoad(web, websiteUrl).Resolved() then Resolved(AfterFirstLoad(web, websiteUrl)) else NothingFound)
  {
    var page := new Page(web);
    var rec := new AuthRecord("", "", "");
    var loaded := page.Goto(websiteUrl, rec, KeepText());
    if loaded.Failure? {
      return Raised(loaded.error);
    }
    if !(rec.authorization != "" && rec.apiKey != "") {
      return NothingFound;
    }
    return Resolved(rec.Value());
  }

  /** How `main` ends. The normal end is `process.exit(0)` after the audit. */
  datatype RunEnd = Audited(thrown: Option<string>) | KeyPending | Exited | Crashed(message: string)

  /** `main(url)`. `browsed` tells whether the browser path was taken. */
  method RunAudit(url: string, web: Web, parse: Parser, keyAnswers: seq<string>, fetch: Fetch, files: ResultFiles)
    returns (end: RunEnd, ghost browsed: bool, ghost audited: Option<AuthInfo<string>>)
    modifies files
    ensures browsed <==> !IsSupabaseText(url)
    ensures IsSupabaseText(url) ==> audited == GetAuthFromPrompts(url, keyAnswers)
    ensures IsSupabaseText(url) && GetAuthFromPrompts(url, keyAnswers).None? ==> end == KeyPending
    ensures !IsSupabaseText(url) && web(0, url).Failed? ==> end == Crashed(web(0, url).error) && audited.None?
    ensures !IsSupabaseText(url) && web(0, url).Loaded? && !AfterFirstLoad(web, url).Resolved() ==>
      end == Exited && audited.None?
    ensures !IsSupabaseText(url) && web(0, url).Loaded? && AfterFirstLoad(web, url).Resolved() ==>
      audited == Some(AfterFirstLoad(web, url))
    ensures audited.Some? <==> end.Audited?
    ensures audited.None? ==> files.openFile == old(files.openFile) && files.closedFile == old(files.closedFile)
    ensures audited.Some? && parse(audited.value.url).Some? ==>
      var info := audited.value;
      var t := TallyOf(Catalog, Verdicts(parse(info.url).value, info.authorization, info.apiKey, fetch, Catalog));
      && files.openFile == old(files.openFile) + Lines(t.open)
      && files.closedFile == old(files.closedFile) + Lines(t.closed)
      && end == Audited(t.crash)
    ensures audited.Some? && parse(audited.value.url).None? ==> end == Audited(Some("Invalid URL"))
  {
    var authInfos: AuthInfo<string>;
    if IsSupabaseText(url) {
      browsed := false;
      var prompted := GetAuthFromPrompts(url, keyAnswers);
      if prompted.None? {
        return KeyPending, browsed, None;
      }
      authInfos := prompted.value;
    } else {
      browsed := true;
      var d := GetAuthFromBrowser(url, web);
      match d {
        case Raised(m) => return Crashed(m), browsed, None;
        case NothingFound => return Exited, browsed, None;
        case Resolved(info) => authInfos := info;
      }
    }
    audited := Some(authInfos);
    var thrown := files.TestAuthInfos(authInfos, parse, fetch);
    return Audited(thrown), browsed, audited;
  }
}
