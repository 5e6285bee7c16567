# check-supabase-security, modelled in Dafny

check-supabase-security audits a web application that uses Supabase as its backend. It
looks for the project's REST endpoint and its public API key, then asks the endpoint for
one row of each of sixteen common table names. It reports which tables anyone holding the
public key can read ("open") and which it cannot ("closed").

The credentials come from one of two places:

- **A prompt.** When the URL to audit is itself a provider address (its text contains
  `supabase.co` or `supabase.in`), the user is asked for the key.
- **A browser.** Otherwise a browser loads the site while a network interceptor watches
  for a request to the provider that carries an `Authorization` and an `apikey` header.
  When the page load alone reveals nothing, three fallback strategies run in turn:
  1. scanning the page and its scripts for an endpoint and a key;
  2. visiting the page's sign-in links;
  3. visiting five common authentication paths.

The system ships as a command-line tool and as a small web server. The server streams the
check's progress and result to a browser client as server-sent events. Two older
single-file versions of the tool (`src/index.ts`, `src/browser.ts`) are modelled as well.

## Layout

| file | module | models |
|---|---|---|
| `common.dfy` | `Common` | `Option` and `Result`, for `null` returns and thrown errors |
| `text.dfy` | `Text` | `includes`, `trim`, `toLowerCase`, `split("\n")`, `join` |
| `urls.dfy` | `Urls` | `UrlWrapper` (src/utils.ts) over an abstract URL parser |
| `types.dfy` | `Types` | `AuthInfo` as a value, and as the shared mutable record |
| `http.dfy` | `Http` | responses and rejected requests |
| `network_interceptor.dfy` | `NetworkInterceptor` | the `requestWillBeSent` callback |
| `browser_page.dfy` | `Browser` | a page whose navigations are given by an oracle |
| `page_extractor.dfy` | `PageExtractor` | script partition, external script download, sign-in links |
| `credential_finder.dfy` | `CredentialFinder` | the three signature patterns and the first-match search |
| `strategies.dfy` | `Strategies` | the three fallback strategies |
| `browser_discovery.dfy` | `BrowserDiscovery` | the strategy cascade of src/browser/index.ts |
| `check_table_access.dfy` | `TableAccess` | the probe of the sixteen tables |
| `prompts.dfy` | `Prompts` | the URL and key questions |
| `checker.dfy` | `Checker` | `getAuthInfos` and `checkSupabaseSecurity` |
| `routes.dfy` | `Routes` | `POST /api/check`, its busy flag and its event stream |
| `app.dfy` | `Client` | the browser client: stream reading, dispatch, rendering |
| `legacy_browser.dfy` | `LegacyBrowser` | `getAuthFromBrowser` of src/browser.ts |
| `legacy_index.dfy` | `LegacyIndex` | src/index.ts: prompts, one browser load, result files |

## How the outside world enters the model

- **URL parser.** `new URL(text)` is the parameter `parse: string -> Option<Url>`, where
  `None` means the constructor throws. Lemmas that need more of the parser assume
  `Lawful(parse)`, which speaks only of URLs the parser itself produced (`Parsed(parse, u)`):
  - every URL it produces is canonical;
  - the text `Href(u)` of such a URL reads back as `u`;
  - so does the text after clearing its path and query (`WithRootPath(u)`);
  - so does the text of a plain path (`PlainPath`: `/` then only `a-z`, `0-9`, `/`, `_`,
    `-`) on its scheme and host, when it has a tuple origin.

  Nothing is assumed of records the parser never produces: it may lower-case a scheme or
  host, reject an empty host, and normalise dot segments or encode spaces in a path.
- **Browser.** The browser is an oracle `web: (nat, string) -> NavOutcome`. It says, for
  the n-th navigation of the page and its target:
  - which requests the page sent (delivered to the interceptor in order);
  - whether `goto` settled with a response or threw;
  - which document is loaded afterwards.
- **Resolving a path against an origin.** `new URL(path, origin)` for a probe path or a
  common sign-in path is built directly (`Urls.ResolveAgainstOrigin`): the path on the
  origin's scheme and host, with no query. It succeeds exactly when the URL's scheme is one
  of `http`, `https`, `ws`, `wss` and `ftp` (`Urls.HasTupleOrigin`); any other origin is
  taken to be opaque, which serialises as `null`, no base URL. `Urls.ResolvedRoundTrip`
  shows that a lawful parser reads the text of such a URL back unchanged for a plain path,
  so building it directly agrees with the parser.
- **Network of the audit.** This is `fetch: Probe -> Reply`.
- **JSON.** `JSON.stringify` and `JSON.parse` are the parameters `encode` and `decode`.
- **Terminal.** The answers the user types are a sequence. The prompt takes the first
  answer its validator accepts; with none accepted it is still waiting.
- **Process exit.** `process.exit(0)` is an outcome (`Exited`, `ProcessExited`, `NotFound`).
- **Result files.** The files of the older tool are the fields of a `ResultFiles` object.

## Behaviour the model follows from the code

- **Interceptor writes.** The interceptor overwrites the record on every qualifying
  request (last writer wins), not only on the first. It reads exactly two spellings of
  each header (`Authorization`/`authorization`, `apikey`/`x-api-key`). When
  `new UrlWrapper` throws inside the callback, the two credentials have already been
  written and the URL stays as it was.
- **Source scan navigates.** The source scan fetches external scripts by navigating the
  page, so the interceptor can fill the record during the scan. The sign-in links are
  then read from the page that is loaded last, not from the target page.
- **Error results.** An error result with an empty body text is falsy. The audit then
  reads `data.length` of a result that has no `data`, and the whole audit throws
  (`TableAccess.Classify`, `Crash`). A rejected request throws out of the audit too.
- **Key answer.** The key answer is stored as typed, surrounding white space included;
  only the validation trims it.
- **Server stream.** The server sends exactly one terminal event (a result or an error)
  after the status events, except in two cases:
  - the discovery exits the process;
  - the key prompt is never answered. Then `isChecking` stays set until the request's
    `close` listener runs.
- **Unguarded navigations.** The older versions do not guard their first navigation: a
  failed load throws out of `getAuthFromBrowser`.

## Model

| member | source | states |
|---|---|---|
| Urls.NewUrlWrapper | src/utils.ts:16-29 | the wrapper holds the parse of the text, else the parse of `https://` + text; otherwise it throws `Invalid URL: <text>` |
| Urls.NewUrlWrapperCases | src/utils.ts:16-29 | the first branch is taken exactly when the text parses, the prefixed one when only the prefixed text parses; it throws exactly when both fail |
| Urls.WrapperRoundTrip | src/utils.ts:16-33 | wrapping the `toString()` of a URL the parser produced gives that URL back |
| Urls.SupabaseComCountsAsProvider | src/utils.ts:35-40 | the provider test is a substring test: any text containing `supabase.com` passes it |
| Urls.ProjectHostIsProvider | src/utils.ts:35-40 | a URL whose host is `<project>.supabase.co` is a provider URL |
| Urls.RootUrlKeepsOrigin | src/utils.ts:42-47 | on a URL the parser produced, `getRootUrl()` does not throw; it keeps scheme and host, gives a root path and no query |
| Urls.ResolvedRoundTrip | src/browser/strategies.ts:77 | for a plain path on the tuple origin of a URL the parser produced, a lawful parser reads the resolved URL's text back as that URL, and wrapping the text gives it too |
| Types.AuthRecord.constructor | src/browser/index.ts:21-25 | the shared record starts with the given credentials and URL |
| NetworkInterceptor.Header | src/browser/network-interceptor.ts:14-16 | a missing header reads as the empty string |
| NetworkInterceptor.AuthorizationOf | src/browser/network-interceptor.ts:15 | `Authorization` when non-empty, otherwise `authorization` |
| NetworkInterceptor.ApiKeyOf | src/browser/network-interceptor.ts:16 | `apikey` when non-empty, otherwise `x-api-key` |
| NetworkInterceptor.Intercept | src/browser/network-interceptor.ts:11-23 | a request that does not name the provider or lacks a credential changes nothing; otherwise both credentials are overwritten, the URL is replaced when it wraps and kept when it does not, and the record is resolved |
| NetworkInterceptor.Observe | src/browser/network-interceptor.ts:11-23 | the callback on the shared record leaves it equal to `Intercept` of its old value |
| NetworkInterceptor.ObserveAll | src/browser/network-interceptor.ts:11-23 | delivering a batch of requests in order applies `Intercept` to each in turn |
| NetworkInterceptor.OnlyFourHeadersRead | src/browser/network-interceptor.ts:14-16 | two header maps that agree on the four names give the same credentials |
| NetworkInterceptor.OtherCasingIgnored | src/browser/network-interceptor.ts:15 | an `AUTHORIZATION` header alone is not read |
| NetworkInterceptor.NoQualifyingRequestNoChange | src/browser/network-interceptor.ts:12-18 | without a qualifying request the record is unchanged |
| NetworkInterceptor.LastWriterWins | src/browser/network-interceptor.ts:20-21 | the credentials are those of the last qualifying request |
| NetworkInterceptor.ResolvedStaysResolved | src/browser/network-interceptor.ts:18-21 | a resolved record stays resolved whatever requests follow |
| NetworkInterceptor.ResolvedAfterBatch | src/browser/network-interceptor.ts:11-23 | after a batch the record is resolved exactly when it was before or some request qualified |
| NetworkInterceptor.ApplyAllAppend | src/browser/network-interceptor.ts:11-23 | two batches delivered one after the other act as their concatenation |
| Browser.Page.constructor | src/browser/index.ts:17-19 | a new page has navigated nowhere and shows a blank document |
| Browser.Page.Goto | src/browser/strategies.ts:14 | a navigation is logged, the page shows the new document, the requests sent reach the record, and `goto` settles with the response or throws |
| PageExtractor.ScriptUrls | src/browser/page-extractor.ts:13 | only non-empty `src` values, at most one per script |
| PageExtractor.InlineBodies | src/browser/page-extractor.ts:14-16 | at most one text per script |
| PageExtractor.PartitionCounts | src/browser/page-extractor.ts:12-16 | every script lands in exactly one of the two lists |
| PageExtractor.PartitionAppend | src/browser/page-extractor.ts:12-16 | both lists keep document order |
| PageExtractor.ScriptLandsInItsList | src/browser/page-extractor.ts:12-16 | a script with a source contributes its URL, one without contributes its text (or `""`) |
| PageExtractor.OkBodiesMembers | src/browser/page-extractor.ts:37-42 | the kept bodies are exactly those of navigations that settled with an OK response |
| PageExtractor.FetchTurn | src/browser/page-extractor.ts:35-45 | one script: the page navigates to it, and its body is pushed only for an OK response; the kept bodies and the requests seen grow by that navigation's |
| PageExtractor.FetchExternalScripts | src/browser/page-extractor.ts:28-49 | the page navigates to every script in order; the result is the OK bodies in order; the interceptor sees every request; the last script is left loaded |
| PageExtractor.FilterHrefsSelect | src/browser/page-extractor.ts:68-76 | `filter(...).map(a => a.href)`: an href is selected exactly when some link with that href passes the filter (for the sign-in links, names a keyword in its lower-cased href or text) |
| PageExtractor.Dedup | src/browser/page-extractor.ts:78 | `[...new Set(s)]` has no duplicates and the same members |
| PageExtractor.DedupFirstOccurrenceOrder | src/browser/page-extractor.ts:78 | elements are listed in the order of their first occurrence |
| PageExtractor.DedupExactlyOnce | src/browser/page-extractor.ts:78 | every element of the input appears exactly once |
| PageExtractor.ExtractAuthLinks | src/browser/page-extractor.ts:51-79 | the sign-in links: distinct, and exactly the hrefs of keyword links |
| CredentialFinder.UrlMatchSound | src/browser/credential-finder.ts:1-2 | what the endpoint matcher returns is a match of the endpoint pattern |
| CredentialFinder.UrlMatchComplete | src/browser/credential-finder.ts:1-2 | every endpoint match at a position is found, and is no longer than the one returned |
| CredentialFinder.KeyMatchSound | src/browser/credential-finder.ts:4 | what the publishable-key matcher returns is a match |
| CredentialFinder.KeyMatchComplete | src/browser/credential-finder.ts:4 | every publishable-key match at a position is found and is no longer than the one returned |
| CredentialFinder.JwtMatchSound | src/browser/credential-finder.ts:6-7 | what the token matcher returns is a match of the three-part token pattern |
| CredentialFinder.JwtMatchComplete | src/browser/credential-finder.ts:6-7 | every token match at a position is found and is no longer than the one returned |
| CredentialFinder.MatchAtIsLongest | src/browser/credential-finder.ts:1-7 | the matcher at a position returns exactly the longest match of the pattern there |
| CredentialFinder.FindFrom | src/browser/credential-finder.ts:17-19 | a reported match starts inside the text at a position where the matcher succeeds, and ends where the matcher says |
| CredentialFinder.FindFromIsFirst | src/browser/credential-finder.ts:17-19 | the search passes over no position where the matcher succeeds; no report means no position matches |
| CredentialFinder.FindIffOccurs | src/browser/credential-finder.ts:17-19 | `match` finds something exactly when the pattern occurs in the text |
| CredentialFinder.FindIsLeftmostLongest | src/browser/credential-finder.ts:17-19 | the reported match starts leftmost and is the longest there |
| CredentialFinder.FindSupabaseCredentials | src/browser/credential-finder.ts:14-29 | found credentials are two non-empty strings |
| CredentialFinder.CredentialsFoundIff | src/browser/credential-finder.ts:21-28 | a result exists exactly when the endpoint pattern and one of the two key patterns occur |
| CredentialFinder.CredentialsAreFirstMatches | src/browser/credential-finder.ts:17-25 | the endpoint is the first endpoint match; the key is the first publishable key when one occurs, the first token otherwise |
| CredentialFinder.EndpointHasNoStopCharacter | src/browser/credential-finder.ts:1-2 | an endpoint match starts with `http://` or `https://` and holds no white space, quote or backtick |
| CredentialFinder.EndpointIsGreedy | src/browser/credential-finder.ts:2 | the returned endpoint runs up to the first stop character or the end of the text |
| Strategies.CheckPage | src/browser/strategies.ts:12-19 | the page navigates to the URL, the record sees its requests, and a failed load is swallowed |
| Strategies.StopIndex | src/browser/strategies.ts:52-55 | a visit loop stops at the first target before which the record is resolved, or after the last |
| Strategies.StopIndexIsFirstStop | src/browser/strategies.ts:74-79 | a loop that stops at the first resolved point stops at `StopIndex` |
| Strategies.VisitNext | src/browser/strategies.ts:52-55 | one visit of an unresolved loop: the page navigates to the next target and the record is the one after that visit |
| Strategies.ResolvedVisitsNothing | src/browser/strategies.ts:75 | a resolved record is never navigated away from |
| Strategies.TrySourceCodeExtraction | src/browser/strategies.ts:21-43 | the page visits each external script; the scan reads page HTML, inline and OK external scripts joined by line feeds; found credentials replace the record (`Bearer` + key), a URL the wrapper rejects throws, and nothing found leaves what the interceptor wrote |
| Strategies.TryAuthLinksStrategy | src/browser/strategies.ts:45-59 | the sign-in links are visited in order up to the first point where the record is resolved; the result says whether it is |
| Strategies.PathTargets | src/browser/strategies.ts:66-72 | one target per common path |
| Strategies.PathTargetsOnOrigin | src/browser/strategies.ts:66-77 | the targets are the five paths, in order, on the target's scheme and host |
| Strategies.PathTargetsParse | src/browser/strategies.ts:66-78 | with a lawful parser and a target it produced, each target's text parses back to its common path on the target's scheme and host |
| Strategies.StopUnresolved | src/browser/strategies.ts:52-58 | a visit loop that ends unresolved visited every target, and the record was unresolved after each |
| Strategies.TryCommonPathsStrategy | src/browser/strategies.ts:61-82 | a resolved record returns at once; an origin that is no base URL throws; otherwise the paths are visited until the record is resolved and the result says whether it is |
| BrowserDiscovery.Ran | src/browser/index.ts:40-50 | the stages that ran are a prefix of the cascade, every one but the last reporting nothing |
| BrowserDiscovery.Settle | src/browser/index.ts:55-62 | the record is returned exactly when resolved; otherwise the process exits |
| BrowserDiscovery.ScanStage | src/browser/index.ts:41 | from the loaded target page and the record after the load, the scan ends with the result, record and navigation count of `ScanEnd`, and leaves the last external script loaded |
| BrowserDiscovery.LinksStage | src/browser/index.ts:44 | from where the scan left the page and the record, the link strategy ends with the result, record and navigation count of `LinksEnd` |
| BrowserDiscovery.PathsStage | src/browser/index.ts:47 | from where the link strategy left the record, the path strategy ends with the result, record and navigation count of `PathsEnd` |
| BrowserDiscovery.GetAuthFromBrowser | src/browser/index.ts:14-63 | the discovery, the stages that ran and the navigation count are those of `Discover`: the load, then each fallback from the state the previous one left, stopping at the first success |
| BrowserDiscovery.StagesReport | src/browser/strategies.ts:21-82 | a scan reports success only with a resolved record; the link stage and a path stage that runs report exactly whether the record is resolved |
| BrowserDiscovery.CombineShape | src/browser/index.ts:40-62 | stages run in cascade order, each only after every earlier one found nothing; a found record is resolved; only the scan and the path stage throw |
| BrowserDiscovery.CascadeShape | src/browser/index.ts:40-62 | the same shape for every discovery of a target |
| BrowserDiscovery.ScanNavigations | src/browser/page-extractor.ts:28-49 | the scan makes one navigation per external script of the loaded page |
| BrowserDiscovery.LinksNavigations | src/browser/strategies.ts:52-55 | the link stage makes at most one navigation per link |
| BrowserDiscovery.PathsNavigations | src/browser/strategies.ts:74-79 | the path stage makes at most one navigation per common path |
| BrowserDiscovery.CombineStops | src/browser/index.ts:40-62 | the navigation count is that of the last stage that ran; an exit means every stage ran and found nothing |
| BrowserDiscovery.CascadeNavigations | src/browser/index.ts:30-50 | a resolving load ends after one navigation with that record; otherwise the count is one per script, then at most one per link and one per path |
| BrowserDiscovery.LinksUnresolved | src/browser/strategies.ts:45-59 | a link stage ending unresolved visited every link, unresolved after each |
| BrowserDiscovery.PathsUnresolved | src/browser/strategies.ts:61-82 | a path stage ending unresolved ran on a tuple origin and visited every path, unresolved after each |
| BrowserDiscovery.NotFoundMeansNeverResolved | src/browser/index.ts:40-60 | the process exits only when the record was unresolved after the load, after the scan, after every link and after every path |
| BrowserDiscovery.LinksReadFromLastScript | src/browser/strategies.ts:21-59 | when the target has external scripts, the sign-in links are read from the last script's document, not from the target page |
| TableAccess.ProbeUrl | src/check-table-access.ts:56-57 | the probe URL is `/rest/v1/<name>?limit=1` on the base's scheme and host, and exists exactly for a tuple origin |
| TableAccess.ProbeFor | src/check-table-access.ts:13-18 | the probe carries exactly the `Authorization` and `apikey` headers, with the record's values |
| TableAccess.TryFetchData | src/check-table-access.ts:4-30 | an OK response gives its data; otherwise the error is `Table does not exist` when the body says so, else the body text |
| TableAccess.Classify | src/check-table-access.ts:65-74 | open exactly for non-empty data, closed exactly for empty data, skipped exactly for a non-empty error; an empty error crashes with the `length` TypeError |
| TableAccess.ProbeTable | src/check-table-access.ts:56-63 | one probe's verdict is the specification's verdict for that name |
| TableAccess.Verdicts | src/check-table-access.ts:55-75 | one verdict per name, in order |
| TableAccess.CheckTablePublicAccess | src/check-table-access.ts:32-78 | the loop's result is the tally of the catalog's verdicts |
| TableAccess.ProbeAll | src/check-table-access.ts:53-77 | the loop over any list of names yields the tally of their verdicts: both lists, or the first crash |
| TableAccess.ProbeTurn | src/check-table-access.ts:56-75 | one turn extends the tally of the names before it by the next name's verdict |
| TableAccess.TallyStep | src/check-table-access.ts:55-75 | one more name appends it to the list of its verdict, or records the first crash |
| TableAccess.CrashSticks | src/check-table-access.ts:55-75 | after an error is thrown, later names change nothing |
| TableAccess.SubsequenceExtend | src/check-table-access.ts:70-74 | appending the same name to both sides keeps a subsequence |
| TableAccess.TallyKeepsOrder | src/check-table-access.ts:70-74 | both lists are subsequences of the catalog, in catalog order |
| TableAccess.TallyCounts | src/check-table-access.ts:65-74 | without a crash, open + closed + skipped = all names |
| TableAccess.TallyCrashIsFirst | src/check-table-access.ts:55-75 | the audit throws exactly when some verdict crashes, with the first crash's message |
| TableAccess.TallyMembership | src/check-table-access.ts:65-74 | a name is open exactly when its verdict is open, closed exactly when closed, and a skipped name is in neither list |
| TableAccess.TallyOnlyListsItsNames | src/check-table-access.ts:70-74 | only probed names are listed |
| TableAccess.CatalogDistinct | src/check-table-access.ts:35-52 | the catalog holds sixteen distinct names |
| TableAccess.OpenClosedDisjoint | src/check-table-access.ts:70-74 | no name is both open and closed |
| Prompts.ValidateUrl | src/prompts.ts:7-14 | an answer is accepted exactly when it parses as it is; otherwise `Please provide a valid URL` |
| Prompts.ValidateApiKey | src/prompts.ts:29 | a key is accepted exactly when it is not all white space; otherwise `API key is required` |
| Prompts.AskTakesFirstAccepted | src/prompts.ts:26-30 | the prompt returns the first accepted answer, and is still waiting when none is accepted |
| Prompts.GetUrlWraps | src/prompts.ts:4-17 | the URL answer always wraps through the wrapper's first branch and never throws |
| Prompts.GetAuthFromPromptsAsWritten | src/prompts.ts:19-37 | as written: it throws exactly when the URL does not parse, and the record's url is the root URL's text |
| Prompts.GetAuthFromPrompts | src/prompts.ts:19-37 | corrected: the record's url is the wrapped root URL, the key is the first accepted answer, and authorization is `Bearer ` + key |
| Prompts.PromptedRecordIsResolved | src/prompts.ts:26-36 | the prompted record is resolved, and its key is an answer as typed |
| Prompts.PromptedAuditProbesProject | src/prompts.ts:22-24 | for a project URL the parser produced, on a tuple origin, every probe of the audit on the prompted record goes to `/rest/v1/<name>?limit=1` on the project's own host |
| Prompts.GetStandardUrlOf | src/check-table-access.ts:33 | `getStandardUrl()` succeeds exactly on a wrapper, and otherwise throws `is not a function` |
| Prompts.PromptedAuditAsWrittenThrows | src/check-table-access.ts:33 | as written, every audit of a prompted record throws before its first probe |
| Checker.FromPrompt | src/core/checker.ts:8-11 | credentials are obtained exactly when the prompt produced a record |
| Checker.FromDiscovery | src/core/checker.ts:13-14 | credentials are obtained exactly when discovery found them; discovery never waits for a key |
| Checker.CredentialsShape | src/core/checker.ts:7-15 | settled credentials hold a resolved record; the prompt path never exits and the browser path never waits for a key; the process exits exactly when the cascade found nothing |
| Checker.GetAuthInfos | src/core/checker.ts:7-15 | the browser is launched exactly for a non-provider URL; one matching progress message; the credentials are the prompted record for a provider URL and the cascade's outcome otherwise (`CredentialsFor`); obtained credentials are resolved |
| Checker.AuditStage | src/core/checker.ts:25-28 | the audit runs, and its progress message is sent, only on a record; the outcome is its lists or its error |
| Checker.CheckSupabaseSecurity | src/core/checker.ts:17-29 | outcome and progress are those of `CheckReport`: `Validating URL...`, the branch message, then `Checking table access permissions...` only with a record, and the audit of the credentials `CredentialsFor` gives |
| Checker.PromptedCheckAsWrittenAborts | src/core/checker.ts:8-26 | as written, a check of a provider URL never completes: with a parsable URL and an accepted key it aborts with `is not a function`; otherwise it ends as the corrected check does |
| Checker.CompletedIsAudit | src/core/checker.ts:17-29 | a completed check's lists are the audit's tally: disjoint, in catalog order, and counted with the skipped names |
| Routes.Frame | src/server/routes.ts:39-41 | a frame is `data: `, the payload unchanged, then a blank line |
| Routes.EventsOf | src/server/routes.ts:49-59 | one status event per progress message, in order, before any terminal event |
| Routes.EventsOfFrames | src/server/routes.ts:49-62 | the stream holds the status frames, then one terminal frame exactly when the check settled |
| Routes.CheckRoute.constructor | src/server/routes.ts:6 | the server starts idle |
| Routes.CheckRoute.Handle | src/server/routes.ts:9-63 | busy gives 429; a missing or empty url gives 400; an unwrappable url gives 400; otherwise the stream holds the frames of the progress and outcome of the check of the wrapped url (`CheckReport`), ends exactly on a result or error, and the flag is cleared exactly when it ends |
| Routes.CheckRoute.OnClose | src/server/routes.ts:43-47 | closing the request clears the flag |
| Routes.ExactlyOneTerminal | src/server/routes.ts:49-62 | a settled check sends exactly one terminal event, last; an unsettled one sends none |
| Routes.TerminalCarriesOutcome | src/server/routes.ts:54-58 | the result event carries the lists unchanged; the error event carries the message |
| Routes.PromptedStreamAsWritten | src/server/routes.ts:49-59 | as written, a provider URL with an accepted key streams the three status messages, then the error `authInfos.url.getStandardUrl is not a function` |
| Routes.FramesAppend | src/server/routes.ts:39-41 | the stream text of consecutive events is the concatenation of their frames |
| Client.ListHtml | src/public/app.js:30-47 | an empty list renders as its placeholder, a non-empty one as `<ul>` items `</ul>` |
| Client.ClientView.constructor | src/public/app.js:1-9 | the page starts empty with the button enabled |
| Client.ClientView.ShowProgress | src/public/app.js:11-16 | only the progress text changes |
| Client.ClientView.ShowError | src/public/app.js:18-23 | the error text is set and the button is enabled again |
| Client.ClientView.ShowResults | src/public/app.js:25-48 | both lists are rendered and the button is enabled again |
| Client.ClientView.DispatchLine | src/public/app.js:83-95 | a `data: ` line is decoded and dispatched by type; other lines are skipped; a decoding error is shown and stops reading |
| Client.ClientView.ProcessLines | src/public/app.js:83-95 | the lines' payloads are dispatched in order until a decoding error |
| Client.ClientView.ReadChunk | src/public/app.js:78-95 | the buffer stays the text after the last line feed of everything read |
| Client.ClientView.ReadStream | src/public/app.js:73-96 | the page ends as if the payloads of all complete lines of the whole stream were dispatched in order |
| Client.ClientView.CheckSecurity | src/public/app.js:50-100 | a network failure or a non-OK reply shows its error; a stream is read as `ReadStream` states; the page ends as `Answered` |
| Client.ClientView.Submit | src/public/app.js:102-116 | a blank input shows `Please enter a URL` and sends nothing; otherwise the trimmed input is sent, and the page ends as the answer leaves it after the button is disabled and `Validating URL...` shown |
| Client.NotOkMessage | src/public/app.js:62 | the reply's `error` when non-empty, otherwise `HTTP error <status>` |
| Client.PayloadsAppend | src/public/app.js:83-84 | the payloads of consecutive lines are concatenated |
| Client.RunLineStep | src/public/app.js:83-95 | dispatching one more line is one dispatch step |
| Client.RunHaltSticks | src/public/app.js:83-99 | after a decoding error, later payloads change nothing |
| Client.RunHaltedLines | src/public/app.js:83-99 | once the lines read so far have stopped reading, the rest of the lines change nothing |
| Client.RunAppend | src/public/app.js:83-95 | dispatching two payload lists is dispatching the first, then the second unless reading stopped |
| Client.ChunkStep | src/public/app.js:78-81 | one more chunk: the complete lines grow by those of buffer + chunk, and the new buffer is the last piece |
| Client.StreamPrefix | src/public/app.js:73-96 | the payloads read so far are a prefix of those of the whole stream |
| Client.FrameLines | src/public/app.js:79-84 | one server frame splits into its `data: ` line and an empty line, with nothing pending |
| Client.FramesLines | src/public/app.js:79-84 | the server's stream text yields exactly the encoded events as payloads, with nothing pending |
| Client.StreamRoundTrip | src/public/app.js:73-96 | however the server's stream is chunked, the client dispatches the encoded events in the order sent, each exactly once |
| Client.TrailingTextIgnored | src/public/app.js:81 | text after the last line feed when the stream ends is never dispatched |
| Client.ItemsRoundTrip | src/public/app.js:36 | the items of names without `<` read back as those names, in order |
| Client.ListHtmlShape | src/public/app.js:30-47 | a rendered list is a `<ul>` exactly when non-empty, and its items read back as the names |
| LegacyBrowser.GetAuthFromBrowser | src/browser.ts:29-99 | a failed first load throws; a first load that resolves the record returns it; otherwise an unparsable URL throws `Invalid URL` and the five paths are tried on its origin until resolved; the end is a resolved record or an exit |
| LegacyBrowser.FallbackNavigations | src/browser.ts:64-84 | the fallback makes at most five navigations, and none after a resolving first load |
| LegacyIndex.LinesRoundTrip | src/index.ts:78-81 | a result file reads back, line by line, as the names appended to it |
| LegacyIndex.LinesSnoc | src/index.ts:78-81 | appending one more line extends the file's line text |
| LegacyIndex.CatalogHasNoLineFeeds | src/index.ts:43-60 | no catalog name holds a line feed |
| LegacyIndex.ResultFiles.constructor | src/index.ts:78-81 | both result files start empty |
| LegacyIndex.ResultFiles.TestAuthInfos | src/index.ts:36-84 | an unparsable URL throws before any write; otherwise the files gain the open and closed names of the tally, one per line, and the first crash is thrown |
| LegacyIndex.ResultFiles.AppendVerdicts | src/index.ts:61-83 | over any list of names, the files gain the tally's open and closed names, one per line, and the first crash is thrown |
| LegacyIndex.GetAuthFromPrompts | src/index.ts:136-148 | the entered URL is kept as text; a record exists exactly when a key was accepted; authorization is `Bearer ` + key |
| LegacyIndex.GetAuthFromBrowser | src/index.ts:90-134 | a failed load throws; otherwise the record after the one load is returned when resolved, else the process exits |
| LegacyIndex.RunAudit | src/index.ts:150-179 | the browser is used exactly for a non-provider URL; no accepted key leaves it waiting, a failed load crashes with the load's error, an unresolved load exits; an audit runs exactly when a record was obtained, and then both files gain the tally's names and the run ends with the tally's crash (`Invalid URL` for an unparsable URL) |
| Text.TrimEmptyIffBlank | src/public/app.js:105-107 | `trim()` is empty exactly when the text is all white space |
| Text.JoinSplitLines | src/public/app.js:79 | joining the pieces of `split("\n")` with line feeds gives the text back |
| Text.PendingLineSuffix | src/public/app.js:79-81 | the buffer kept is the tail of the text after its last line feed, and holds no line feed |
| Text.LinesAppend | src/public/app.js:78-81 | reading a text in two parts: the first part's complete lines come first, then those of its pending text continued by the second part, and the pending text is what that continuation leaves |
| Text.SplitAppend | src/public/app.js:78-81 | splitting buffer + chunk: the buffer's complete lines come first, and its pending text continues with the chunk |
| Text.Lower | src/browser/page-extractor.ts:64 | `toLowerCase` keeps the length and lowers each letter A-Z |
| Text.NatToString | src/public/app.js:62 | a status renders as decimal digits that denote it (`DigitsValue`), with no leading zero except for zero |

## Left out

- **URL parsing.** The WHATWG URL parser is the parameter `parse`; default ports and host
  normalisation belong to it. Probe URLs and common-path URLs are built without it, so
  the percent-encoding `new URL` would apply to their paths is not modelled. The sixteen
  table names and the five paths hold no character it would encode. A `blob:` URL has the
  origin of the URL inside it: for `blob:https://example.com/x` the code visits the common
  paths on `https://example.com`, while the model takes the origin to be opaque and
  throws `Invalid URL` in `Strategies.TryCommonPathsStrategy`, `BrowserDiscovery.PathsStage`
  and `LegacyBrowser.GetAuthFromBrowser`. Opaque paths (`mailto:`, `data:`) cannot be
  written as a `Url`: `Href` always puts `//` after the scheme, and `WithRootPath` clears a
  path that `pathname = ""` leaves alone on such a URL.
- **JSON.** `JSON.stringify` and `JSON.parse` are the parameters `encode` and `decode`.
  `response.json()` of a probe is reduced to the `length` of the value it holds. A probe
  body that is `null` or is not JSON (the source would throw) is not modelled.
- **Timers and logging.** `wait(DELAY)`, the navigation timeouts and the `waitUntil`
  options are left out. So are all console output and the closing message text of
  src/index.ts.
- **Browser lifecycle.** Launching and closing the browser is out of the model. So are
  src/browser/lifecycle.ts, the `browserInstance` variable of src/browser.ts and the
  signal handlers.
- **Concurrency.**
  - Interceptor callbacks are delivered only inside a navigation. Requests a page sends
    between navigations, and races between requests, are not modelled.
  - Concurrent requests to the server are not interleaved with a running check. A
    request's `close` is a separate call (`OnClose`).
- **Server.** src/server/index.ts (starting the server, static files) is not part of
  this model.
- **Server error fallback.** The `Unknown error occurred` fallback for a thrown value
  that is not an `Error` is not modelled. Every error the model throws carries a
  message.
- **Client.** The client's `Response body is empty` case is not modelled; a stream
  always has a body. Element visibility is not modelled. `TextDecoder` is not modelled
  either: chunks arrive as text.
- **Duplicate `getUrl`.** The `getUrl` copy in src/index.ts:181-194 is the same
  function as `Prompts.GetUrl`. `getUrl().then(main)` is `LegacyIndex.RunAudit` applied to
  its answer.
- **Result files.** Only the text the older tool appends to its two files is modelled,
  not the file system.
- Checker.GetAuthInfos: the provider path composes the corrected
  `Prompts.GetAuthFromPrompts`, whose record holds a wrapper. As written, the record holds
  the root URL's text and every audit of it aborts with
  `authInfos.url.getStandardUrl is not a function`
  (`Checker.PromptedCheckAsWrittenAborts`, and the row under Findings).
- Checker.CheckSupabaseSecurity: composes the corrected prompt path, as
  `Checker.GetAuthInfos` does; its as-written outcome for a provider URL is
  `Checker.PromptedOutcomeAsWritten`.
- Routes.CheckRoute.Handle: streams the check of the corrected prompt path. As written, a
  provider URL with an accepted key streams `Validating URL...`, the branch message and
  `Checking table access permissions...`, then an error event carrying
  `authInfos.url.getStandardUrl is not a function`.
- Routes.CheckRoute.Handle: the body's `url` is optional text. A request without a body
  (destructuring `undefined` throws, and the framework answers 500) is not modelled. Nor
  is a `url` that is not a string: a number is falsy only when 0, and otherwise reaches
  `new URL` as its decimal text.
- Text.Lower: only maps `A`-`Z`, while `toLowerCase` lowers every Unicode letter. The
  keyword test is therefore exact only for ASCII link text.

## Findings

| source | as written | input that shows it | evidently intended | confidence | as-written member | corrected member |
|---|---|---|---|---|---|---|
| src/prompts.ts:35 with src/check-table-access.ts:33 | `getAuthFromPrompts` stores `supabaseRootUrl.toString()`, a string, as the record's `url`; `checkTablePublicAccess` calls `authInfos.url.getStandardUrl()` on it | any provider URL such as `https://abc.supabase.co` with any non-blank key: the audit throws `authInfos.url.getStandardUrl is not a function` before the first probe | the record holds a `UrlWrapper` of the root URL, and the audit probes the project's host | not executed | Prompts.PromptedAuditAsWrittenThrows | Prompts.PromptedAuditProbesProject |
