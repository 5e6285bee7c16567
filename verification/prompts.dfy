/** src/prompts.ts: the two terminal questions (the URL to audit, and the public API key of
    a provider project), and the record built from the answers. The prompt library asks
    again until its `validate` callback accepts; the answers the user gives are the
    parameter `answers`, in the order given. */
module Prompts {
  import opened Common
  import opened Text
  import opened Urls
  import opened Types
  import opened TableAccess

  /** What a `validate` callback returns: `true`, or the message shown before asking again. */
  datatype Validation = Accept | Reject(message: string)

  const InvalidUrlMessage: string := "Please provide a valid URL"
  const ApiKeyRequired: string := "API key is required"

  /** The URL question's check: `new URL(value)` must not throw. No `https://` is tried. */
  function ValidateUrl(value: string, parse: Parser): (r: Validation)
    ensures r == Accept <==> parse(value).Some?
    ensures r.Reject? ==> r.message == InvalidUrlMessage
  {
    if parse(value).Some? then Accept else Reject(InvalidUrlMessage)
  }

  /** The key question's check: `value.trim()` must be non-empty. */
  function ValidateApiKey(value: string): (r: Validation)
    ensures r == Accept <==> !AllWhitespace(value)
    ensures r.Reject? ==> r.message == ApiKeyRequired
  {
    TrimEmptyIffBlank(value);
    if Trim(value) != "" then Accept else Reject(ApiKeyRequired)
  }

  /** `input({ validate })`: the first answer the callback accepts, or None while the user
      has not given one. */
  function Ask(answers: seq<string>, validate: string -> Validation): Option<string> {
    if answers == [] then None
    else if validate(answers[0]) == Accept then Some(answers[0])
    else Ask(answers[1..], validate)
  }

  /** `Ask` returns the first accepted answer, and nothing when none is accepted. */
  lemma {:induction false} AskTakesFirstAccepted(answers: seq<string>, validate: string -> Validation)
    ensures Ask(answers, validate).None? <==> forall k :: 0 <= k < |answers| ==> validate(answers[k]) != Accept
    ensures Ask(answers, validate).Some? ==>
      exists k :: 0 <= k < |answers| && answers[k] == Ask(answers, validate).value
        && validate(answers[k]) == Accept
        && forall m :: 0 <= m < k ==> validate(answers[m]) != Accept
  {
    if answers != [] && validate(answers[0]) != Accept {
      var rest := answers[1..];
      AskTakesFirstAccepted(rest, validate);
      assert forall k :: 0 < k < |answers| ==> answers[k] == rest[k - 1];
      if Ask(rest, validate).Some? {
        var k :| 0 <= k < |rest| && rest[k] == Ask(rest, validate).value
          && validate(rest[k]) == Accept && forall m :: 0 <= m < k ==> validate(rest[m]) != Accept;
        assert answers[k + 1] == rest[k];
        assert forall m :: 0 < m < k + 1 ==> answers[m] == rest[m - 1];
      }
    }
  }

  /** `getUrl()`. */
  function GetUrl(answers: seq<string>, parse: Parser): Option<string> {
    Ask(answers, value => ValidateUrl(value, parse))
  }

  /** The URL question only returns text the parser reads as it is, so wrapping it takes
      the first branch of the wrapper and never throws. */
  lemma GetUrlWraps(answers: seq<string>, parse: Parser)
    requires GetUrl(answers, parse).Some?
    ensures parse(GetUrl(answers, parse).value).Some?
    ensures NewUrlWrapper(GetUrl(answers, parse).value, parse) == Success(parse(GetUrl(answers, parse).value).value)
  {
    AskTakesFirstAccepted(answers, value => ValidateUrl(value, parse));
  }

  /** How the key question ends: the record, no accepted answer yet, or an error thrown
      while building the root URL. */
  datatype Prompted<U> = Entered(info: AuthInfo<U>) | Waiting | Threw(message: string)

  /** The record `getAuthFromPrompts` builds from an accepted key and a root URL. */
  function RecordFor<U>(apiKey: string, url: U): AuthInfo<U> {
    AuthInfo("Bearer " + apiKey, apiKey, url)
  }

  /** `getAuthFromPrompts(supabaseUrl)` as written: the record's `url` is the root URL's
      text, not a wrapper. */
  function GetAuthFromPromptsAsWritten(supabaseUrl: Url, keyAnswers: seq<string>, parse: Parser): (r: Prompted<string>)
    ensures parse(Href(supabaseUrl)).None? <==> r.Threw?
    ensures r.Entered? ==> r.info.url == Href(WithRootPath(parse(Href(supabaseUrl)).value))
  {
    match parse(Href(supabaseUrl))
    case None => Threw("Invalid URL")
    case Some(copy) =>
      match Ask(keyAnswers, ValidateApiKey)
      case None => Waiting
      case Some(apiKey) => Entered(RecordFor(apiKey, Href(WithRootPath(copy))))
  }

  /** `getAuthFromPrompts(supabaseUrl)` with the root URL wrapped again, as the `AuthInfo`
      type and `checkTablePublicAccess` expect. */
  function GetAuthFromPrompts(supabaseUrl: Url, keyAnswers: seq<string>, parse: Parser): (r: Prompted<Url>)
    ensures r.Entered? ==> GetRootUrl(supabaseUrl, parse) == Success(r.info.url)
    ensures r.Entered? ==> Ask(keyAnswers, ValidateApiKey) == Some(r.info.apiKey)
    ensures r.Entered? ==> r.info.authorization == "Bearer " + r.info.apiKey
  {
    match parse(Href(supabaseUrl))
    case None => Threw("Invalid URL")
    case Some(copy) =>
      match Ask(keyAnswers, ValidateApiKey)
      case None => Waiting
      case Some(apiKey) =>
        match NewUrlWrapper(Href(WithRootPath(copy)), parse)
        case Failure(e) => Threw(e)
        case Success(root) => Entered(RecordFor(apiKey, root))
  }

  /** The prompted record is resolved: the key is not blank, so neither credential is empty;
      and the key is the answer as typed, surrounding white space included. */
  lemma PromptedRecordIsResolved(supabaseUrl: Url, keyAnswers: seq<string>, parse: Parser)
    requires GetAuthFromPrompts(supabaseUrl, keyAnswers, parse).Entered?
    ensures GetAuthFromPrompts(supabaseUrl, keyAnswers, parse).info.Resolved()
    ensures GetAuthFromPrompts(supabaseUrl, keyAnswers, parse).info.apiKey in keyAnswers
  {
    AskTakesFirstAccepted(keyAnswers, ValidateApiKey);
  }

  /** With a lawful parser, every probe of the audit on the prompted record goes to the
      project's own host, whatever path the entered URL had. */
  lemma PromptedAuditProbesProject(supabaseUrl: Url, keyAnswers: seq<string>, parse: Parser, name: string)
    requires Lawful(parse) && Parsed(parse, supabaseUrl) && HasTupleOrigin(supabaseUrl.scheme)
    requires GetAuthFromPrompts(supabaseUrl, keyAnswers, parse).Entered?
    ensures var info := GetAuthFromPrompts(supabaseUrl, keyAnswers, parse).info;
      var p := ProbeFor(GetStandardUrl(info.url), info.authorization, info.apiKey, name);
      p.Success? && p.value.url == Href(Url(supabaseUrl.scheme, supabaseUrl.host, "/rest/v1/" + name, "limit=1", ""))
  {
    RootUrlKeepsOrigin(supabaseUrl, parse);
  }

  /** The record's `url` slot as the audit receives it: a wrapper, or plain text. */
  datatype UrlSlot = WrapperObject(url: Url) | PlainText(text: string)

  const NotAFunction: string := "authInfos.url.getStandardUrl is not a function"

  /** `authInfos.url.getStandardUrl()` on whatever the slot holds. */
  function GetStandardUrlOf(slot: UrlSlot): (r: Result<Url, string>)
    ensures r.Success? <==> slot.WrapperObject?
    ensures r.Failure? ==> r.error == NotAFunction
  {
    match slot
    case WrapperObject(u) => Success(GetStandardUrl(u))
    case PlainText(_) => Failure(NotAFunction)
  }

  /** `checkTablePublicAccess(authInfos)` on a record of either shape. */
  function AuditSlot(info: AuthInfo<UrlSlot>, fetch: Fetch): Result<(seq<string>, seq<string>), string> {
    match GetStandardUrlOf(info.url)
    case Failure(e) => Failure(e)
    case Success(u) => Audit(AuthInfo(info.authorization, info.apiKey, u), fetch)
  }

  /** As written, every audit of a prompted record throws before the first probe, whatever
      the network would answer. */
  lemma PromptedAuditAsWrittenThrows(supabaseUrl: Url, keyAnswers: seq<string>, parse: Parser, fetch: Fetch)
    requires GetAuthFromPromptsAsWritten(supabaseUrl, keyAnswers, parse).Entered?
    ensures var info := GetAuthFromPromptsAsWritten(supabaseUrl, keyAnswers, parse).info;
      AuditSlot(AuthInfo(info.authorization, info.apiKey, PlainText(info.url)), fetch) == Failure(NotAFunction)
  {
  }
}
