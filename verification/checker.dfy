/** src/core/checker.ts: obtain credentials (from the prompts for a provider URL, from the
    browser otherwise), then audit the catalog. The progress callback is the emitted
    trace `progress`. */
module Checker {
  import opened Common
  import opened Urls
  import opened Types
  import opened Browser
  import opened BrowserDiscovery
  import opened TableAccess
  import opened Prompts

  const Validating: string := "Validating URL..."
  const GettingCredentials: string := "Getting Supabase credentials..."
  const LaunchingBrowser: string := "Launching browser to extract credentials..."
  const CheckingTables: string := "Checking table access permissions..."

  /** How `getAuthInfos` ends: with a record, still waiting for a key at the prompt, with an
      error thrown, or with the process exiting because discovery found nothing. */
  datatype Obtained = Got(info: AuthInfo<Url>) | NoKey | Raised(message: string) | Exited

  function FromPrompt(p: Prompted<Url>): (c: Obtained)
    ensures c.Got? <==> p.Entered?
  {
    match p
    case Entered(info) => Got(info)
    case Waiting => NoKey
    case Threw(m) => Raised(m)
  }

  function FromDiscovery(d: Discovery): (c: Obtained)
    ensures c.Got? <==> d.Found?
    ensures !c.NoKey?
  {
    match d
    case Found(info) => Got(info)
    case NotFound => Exited
    case Threw(m) => Raised(m)
  }

  /** The credentials `getAuthInfos` settles on for `url`: the prompted record for a
      provider URL, the outcome of the browser cascade otherwise. */
  function CredentialsFor(url: Url, web: Web, parse: Parser, keyAnswers: seq<string>): Obtained {
    if IsSupabaseUrl(url) then FromPrompt(GetAuthFromPrompts(url, keyAnswers, parse))
    else FromDiscovery(Discover(web, url, parse).d)
  }

  /** The progress messages of a check of `url` that obtained `c`: validation, the branch
      taken, and the table stage only when there is a record to audit. */
  function ProgressOf(url: Url, c: Obtained): seq<string> {
    [Validating, if IsSupabaseUrl(url) then GettingCredentials else LaunchingBrowser]
      + (if c.Got? then [CheckingTables] else [])
  }

  /** Settled credentials always hold a resolved record; the prompts never make the process
      exit, and the browser never waits for a key. The process exits only when the cascade
      found nothing. */
  lemma CredentialsShape(url: Url, web: Web, parse: Parser, keyAnswers: seq<string>)
    ensures var c := CredentialsFor(url, web, parse, keyAnswers);
      && (c.Got? ==> c.info.Resolved())
      && (IsSupabaseUrl(url) ==> !c.Exited?)
      && (!IsSupabaseUrl(url) ==> !c.NoKey?)
      && (c.Exited? <==> !IsSupabaseUrl(url) && Discover(web, url, parse).d == NotFound)
  {
    if IsSupabaseUrl(url) {
      if GetAuthFromPrompts(url, keyAnswers, parse).Entered? {
        PromptedRecordIsResolved(url, keyAnswers, parse);
      }
    } else {
      CascadeShape(web, url, parse);
    }
  }

  /** `getAuthInfos(url, onProgress)`. `launched` tells whether a browser was started. */
  method GetAuthInfos(url: Url, web: Web, parse: Parser, keyAnswers: seq<string>)
    returns (c: Obtained, progress: seq<string>, ghost launched: bool)
    ensures launched <==> !IsSupabaseUrl(url)
    ensures progress == [if IsSupabaseUrl(url) then GettingCredentials else LaunchingBrowser]
    ensures c == CredentialsFor(url, web, parse, keyAnswers)
    ensures c.Got? ==> c.info.Resolved()
  {
    CredentialsShape(url, web, parse, keyAnswers);
    if IsSupabaseUrl(url) {
      progress := [GettingCredentials];
      launched := false;
      var p := GetAuthFromPrompts(url, keyAnswers, parse);
      if p.Entered? {
        PromptedRecordIsResolved(url, keyAnswers, parse);
      }
      return FromPrompt(p), progress, launched;
    }
    progress := [LaunchingBrowser];
    launched := true;
    var d, ran, navigations := GetAuthFromBrowser(url, web, parse);
    c := FromDiscovery(d);
    assert d == Discover(web, url, parse).d;
  }

  /** What `checkSupabaseSecurity` ends with: the two lists, an error thrown, still waiting
      for a key, or the process gone. */
  datatype CheckOutcome = Completed(openTables: seq<string>, closedTables: seq<string>)
    | Aborted(message: string) | AwaitingKey | ProcessExited

  /** The outcome once credentials are settled: the audit runs only on a record. */
  function Outcome(c: Obtained, fetch: Fetch): CheckOutcome {
    match c
    case Got(info) =>
      (match Audit(info, fetch)
       case Success(lists) => Completed(lists.0, lists.1)
       case Failure(m) => Aborted(m))
    case NoKey => AwaitingKey
    case Raised(m) => Aborted(m)
    case Exited => ProcessExited
  }

  /** What a check of `url` reports: its outcome, and the progress messages sent on the way. */
  function CheckReport(url: Url, web: Web, parse: Parser, keyAnswers: seq<string>, fetch: Fetch): (CheckOutcome, seq<string>) {
    var c := CredentialsFor(url, web, parse, keyAnswers);
    (Outcome(c, fetch), ProgressOf(url, c))
  }

  /** `checkSupabaseSecurity(url, onProgress)`. */
  method CheckSupabaseSecurity(url: Url, web: Web, parse: Parser, keyAnswers: seq<string>, fetch: Fetch)
    returns (out: CheckOutcome, progress: seq<string>)
    ensures (out, progress) == CheckReport(url, web, parse, keyAnswers, fetch)
  {
    var c, more, launched := GetAuthInfos(url, web, parse, keyAnswers);
    var last;
    out, last := AuditStage(c, fetch);
    progress := [Validating, more[0]] + last;
    assert progress == ProgressOf(url, c);
  }

  /** The rest of `checkSupabaseSecurity` once credentials are settled: the table stage runs,
      and reports its progress, only on a record. */
  method AuditStage(c: Obtained, fetch: Fetch) returns (out: CheckOutcome, progress: seq<string>)
    ensures out == Outcome(c, fetch)
    ensures progress == if c.Got? then [CheckingTables] else []
  {
    progress := [];
    match c {
      case Got(info) =>
        progress := [CheckingTables];
        var r := CheckTablePublicAccess(info, fetch);
        match r {
          case Success(lists) => out := Completed(lists.0, lists.1);
          case Failure(m) => out := Aborted(m);
        }
      case NoKey => out := AwaitingKey;
      case Raised(m) => out := Aborted(m);
      case Exited => out := ProcessExited;
    }
  }

  /** The lists of a completed check are those of the audit on resolved credentials,
      unchanged: disjoint, in catalog order, and counted with the skipped names. */
  lemma CompletedIsAudit(c: Obtained, fetch: Fetch)
    requires c.Got? ==> c.info.Resolved()
    requires Outcome(c, fetch).Completed?
    ensures c.Got? && c.info.Resolved()
    ensures var vs := Verdicts(GetStandardUrl(c.info.url), c.info.authorization, c.info.apiKey, fetch, Catalog);
      var out := Outcome(c, fetch);
      && out.openTables == TallyOf(Catalog, vs).open
      && out.closedTables == TallyOf(Catalog, vs).closed
      && IsSubsequence(out.openTables, Catalog)
      && IsSubsequence(out.closedTables, Catalog)
      && (forall x :: x in out.openTables ==> x !in out.closedTables)
      && |out.openTables| + |out.closedTables| + SkipCount(vs) == |Catalog|
  {
    var vs := Verdicts(GetStandardUrl(c.info.url), c.info.authorization, c.info.apiKey, fetch, Catalog);
    assert TallyOf(Catalog, vs).crash.None?;
    TallyKeepsOrder(Catalog, vs);
    OpenClosedDisjoint(vs);
    TallyCrashIsFirst(Catalog, vs);
    TallyCounts(Catalog, vs);
  }

  /** The outcome of a check of a provider URL as the code is written: the prompted record
      carries the root URL as text, and the audit calls a method on it. */
  function PromptedOutcomeAsWritten(url: Url, keyAnswers: seq<string>, parse: Parser, fetch: Fetch): CheckOutcome {
    match GetAuthFromPromptsAsWritten(url, keyAnswers, parse)
    case Entered(info) =>
      (match AuditSlot(AuthInfo(info.authorization, info.apiKey, PlainText(info.url)), fetch)
       case Success(lists) => Completed(lists.0, lists.1)
       case Failure(m) => Aborted(m))
    case Waiting => AwaitingKey
    case Threw(m) => Aborted(m)
  }

  /** As written, a check of a provider URL never completes: once a key is accepted it aborts
      with the missing method, whatever the network would answer; before that it waits or
      fails exactly as the corrected check does. */
  lemma PromptedCheckAsWrittenAborts(url: Url, web: Web, parse: Parser, keyAnswers: seq<string>, fetch: Fetch)
    requires IsSupabaseUrl(url)
    ensures !PromptedOutcomeAsWritten(url, keyAnswers, parse, fetch).Completed?
    ensures parse(Href(url)).Some? && Ask(keyAnswers, ValidateApiKey).Some? ==>
      PromptedOutcomeAsWritten(url, keyAnswers, parse, fetch) == Aborted(NotAFunction)
    ensures parse(Href(url)).None? || Ask(keyAnswers, ValidateApiKey).None? ==>
      PromptedOutcomeAsWritten(url, keyAnswers, parse, fetch) == Outcome(CredentialsFor(url, web, parse, keyAnswers), fetch)
  {
    if GetAuthFromPromptsAsWritten(url, keyAnswers, parse).Entered? {
      PromptedAuditAsWrittenThrows(url, keyAnswers, parse, fetch);
    }
  }
}
