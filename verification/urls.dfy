/** The URL values of the system and the `UrlWrapper` rules of src/utils.ts.
    URL parsing itself belongs to the runtime: it is the parameter `parse`. */
module Urls {
  import opened Common
  import opened Text

  /** A parsed URL. `scheme` is the protocol without its colon; `host` includes any port. */
  datatype Url = Url(scheme: string, host: string, path: string, query: string, fragment: string)

  /** The runtime's URL parser: the parsed URL, or None where `new URL(text)` throws. */
  type Parser = string -> Option<Url>

  /** `url.toString()` / `url.href`. */
  function Href(u: Url): string {
    u.scheme + "://" + u.host + u.path
      + (if u.query == "" then "" else "?" + u.query)
      + (if u.fragment == "" then "" else "#" + u.fragment)
  }

  /** Schemes whose URLs carry a host and their own tuple origin. A `blob:` URL takes the
      origin of the URL inside it; the model does not look inside, so it counts as opaque. */
  predicate HasTupleOrigin(scheme: string) {
    scheme == "http" || scheme == "https" || scheme == "ws" || scheme == "wss" || scheme == "ftp"
  }

  predicate IsSpecial(scheme: string) {
    HasTupleOrigin(scheme) || scheme == "file"
  }

  /** The shape of every URL the parser produces. */
  predicate Canonical(u: Url) {
    u.scheme != "" && ':' !in u.scheme && '/' !in u.host && '?' !in u.host && '#' !in u.host
    && (u.path == "" || u.path[0] == '/') && '?' !in u.path && '#' !in u.path && '#' !in u.query
  }

  /** `u` is a URL the parser produces from some text. */
  ghost predicate Parsed(parse: Parser, u: Url) {
    exists s :: parse(s) == Some(u)
  }

  const PlainPathChars := "abcdefghijklmnopqrstuvwxyz0123456789/_-"

  /** An absolute path the parser leaves as it is: no dot segment, nothing to encode. */
  predicate PlainPath(p: string) {
    p != "" && p[0] == '/' && forall i :: 0 <= i < |p| ==> p[i] in PlainPathChars
  }

  /** What the model assumes of the runtime parser where a lemma needs it. It produces only
      canonical URLs. The text of a URL it produced reads back as that URL, and so does the
      text after clearing path and query, or after replacing them by a plain path on a
      tuple origin. Nothing is assumed of records the parser never produces, such as ones
      it would lower-case or normalise. */
  ghost predicate Lawful(parse: Parser) {
    && (forall s :: parse(s).Some? ==> Canonical(parse(s).value))
    && (forall u :: Parsed(parse, u) ==> parse(Href(u)) == Some(u))
    && (forall u :: Parsed(parse, u) ==> parse(Href(WithRootPath(u))) == Some(WithRootPath(u)))
    && (forall u, p :: Parsed(parse, u) && HasTupleOrigin(u.scheme) && PlainPath(p) ==>
          parse(Href(Url(u.scheme, u.host, p, "", ""))) == Some(Url(u.scheme, u.host, p, "", "")))
  }

  /** `new UrlWrapper(value)` (src/utils.ts:16-29): the text as it is when it parses,
      otherwise the text behind `https://`, otherwise the error `Invalid URL: value`. */
  function NewUrlWrapper(value: string, parse: Parser): (r: Result<Url, string>)
    ensures r.Success? ==> parse(value) == Some(r.value) || parse("https://" + value) == Some(r.value)
    ensures r.Failure? ==> r.error == "Invalid URL: " + value
  {
    if parse(value).Some? then Success(parse(value).value)
    else
      var prefixed := "https://" + value;
      if parse(prefixed).Some? then Success(parse(prefixed).value)
      else Failure("Invalid URL: " + value)
  }

  /** Which of the two attempts `NewUrlWrapper` takes, and when it throws. */
  lemma NewUrlWrapperCases(value: string, parse: Parser)
    ensures parse(value).Some? ==> NewUrlWrapper(value, parse) == Success(parse(value).value)
    ensures parse(value).None? && parse("https://" + value).Some? ==>
      NewUrlWrapper(value, parse) == Success(parse("https://" + value).value)
    ensures NewUrlWrapper(value, parse).Failure? <==>
      parse(value).None? && parse("https://" + value).None?
  {
  }

  /** Wrapping the text of a parsed URL gives that URL back. */
  lemma WrapperRoundTrip(u: Url, parse: Parser)
    requires Lawful(parse) && Parsed(parse, u)
    ensures NewUrlWrapper(Href(u), parse) == Success(u)
  {
  }

  /** `toString()` of a wrapper. */
  function ToString(u: Url): string {
    Href(u)
  }

  /** `getStandardUrl()`: a copy of the stored URL. URLs are values here, so the copy can
      never be changed behind the wrapper's back. */
  function GetStandardUrl(u: Url): Url {
    u
  }

  /** The provider test on any text: `supabase.co` or `supabase.in` occurs in it. */
  predicate IsProviderHref(s: string) {
    Contains(s, "supabase.co") || Contains(s, "supabase.in")
  }

  /** `isSupabaseUrl()` (src/utils.ts:35-40). */
  predicate IsSupabaseUrl(u: Url) {
    IsProviderHref(Href(u))
  }

  /** The test is on substrings of the whole text: a `supabase.com` address passes too. */
  lemma {:induction false} SupabaseComCountsAsProvider(s: string)
    requires Contains(s, "supabase.com")
    ensures IsProviderHref(s)
  {
    var i: nat :| i <= |s| && StartsAt(s, i, "supabase.com");
    assert s[i..i + 11] == s[i..i + 12][..11];
    ContainsAt(s, "supabase.co", i);
  }

  /** A project address on the provider's own domain is a provider URL. */
  lemma {:induction false} ProjectHostIsProvider(u: Url, project: string)
    requires u.host == project + ".supabase.co"
    ensures IsSupabaseUrl(u)
  {
    var h := Href(u);
    assert h == u.scheme + "://" + project + "." + "supabase.co" + (u.path
      + (if u.query == "" then "" else "?" + u.query)
      + (if u.fragment == "" then "" else "#" + u.fragment));
    ContainsInfix(u.scheme + "://" + project + ".", "supabase.co", u.path
      + (if u.query == "" then "" else "?" + u.query)
      + (if u.fragment == "" then "" else "#" + u.fragment));
  }

  /** The URL after `pathname = ""` and `search = ""`: a root path and no query. */
  function WithRootPath(u: Url): Url {
    u.(path := if IsSpecial(u.scheme) then "/" else "", query := "")
  }

  /** `getRootUrl()` (src/utils.ts:42-47): copy through the text form, clear path and query,
      and wrap the result again. */
  function GetRootUrl(u: Url, parse: Parser): Result<Url, string> {
    match parse(Href(u))
    case None => Failure("Invalid URL")
    case Some(copy) => NewUrlWrapper(Href(WithRootPath(copy)), parse)
  }

  /** With a lawful parser the root URL keeps scheme and host, has a root path and no query. */
  lemma RootUrlKeepsOrigin(u: Url, parse: Parser)
    requires Lawful(parse) && Parsed(parse, u)
    ensures GetRootUrl(u, parse).Success?
    ensures var r := GetRootUrl(u, parse).value;
      r.scheme == u.scheme && r.host == u.host && r.query == ""
      && r.path == (if IsSpecial(u.scheme) then "/" else "")
  {
    assert Parsed(parse, WithRootPath(u)) by {
      assert parse(Href(WithRootPath(u))) == Some(WithRootPath(u));
    }
    WrapperRoundTrip(WithRootPath(u), parse);
  }

  /** `new URL(path, u.origin)`: a path resolved against the origin of `u`. An opaque origin
      serialises as `null`, which is no base URL, and the constructor throws. */
  function ResolveAgainstOrigin(path: string, u: Url): (r: Result<Url, string>)
    ensures r.Success? <==> HasTupleOrigin(u.scheme)
    ensures r.Success? ==>
              r.value.scheme == u.scheme && r.value.host == u.host
              && r.value.path == path && r.value.query == "" && r.value.fragment == ""
  {
    if HasTupleOrigin(u.scheme) then Success(Url(u.scheme, u.host, path, "", ""))
    else Failure("Invalid URL")
  }

  /** The resolved URL is one the parser itself reads back from its text, for a plain path
      on the origin of a parsed URL: building it directly agrees with the runtime. */
  lemma ResolvedRoundTrip(path: string, u: Url, parse: Parser)
    requires Lawful(parse) && Parsed(parse, u) && HasTupleOrigin(u.scheme) && PlainPath(path)
    ensures var r := ResolveAgainstOrigin(path, u).value;
      parse(Href(r)) == Some(r) && NewUrlWrapper(Href(r), parse) == Success(r)
  {
    var r := ResolveAgainstOrigin(path, u).value;
    assert Parsed(parse, r);
    WrapperRoundTrip(r, parse);
  }
}
