/** src/browser/credential-finder.ts: the three signature patterns and the first-match
    scan of `findSupabaseCredentials`.

    Each pattern is modelled twice: as the spans of a text it matches whole (`Matches`,
    stated with the pieces the regular expression is made of), and as the deterministic
    matcher `MatchAt` that says where a match starting at a given index ends. The lemmas
    connect the two, so that `Find` is the leftmost-longest match that JavaScript's
    `String.prototype.match` returns for these patterns. */
module CredentialFinder {
  import opened Common
  import opened Text

  datatype CharClass =
    | HostLabel  // [a-zA-Z0-9-]
    | KeyChar    // [a-zA-Z0-9_-]
    | UrlTail    // [^\s"'`]

  predicate IsAlnum(c: char) {
    'a' <= c <= 'z' || 'A' <= c <= 'Z' || '0' <= c <= '9'
  }

  predicate InClass(cls: CharClass, c: char) {
    match cls
    case HostLabel => IsAlnum(c) || c == '-'
    case KeyChar => IsAlnum(c) || c == '-' || c == '_'
    case UrlTail => !IsJsWhitespace(c) && c != '"' && c != '\'' && c != '`'
  }

  /** Every character of `t[a..b]` is in `cls`. */
  predicate RangeIn(t: string, a: nat, b: nat, cls: CharClass)
    requires a <= b <= |t|
  {
    forall x :: a <= x < b ==> InClass(cls, t[x])
  }

  /** The end of the longest run of `cls` characters starting at `i`. */
  function RunEnd(t: string, i: nat, cls: CharClass): (k: nat)
    requires i <= |t|
    ensures i <= k <= |t|
    ensures forall x :: i <= x < k ==> InClass(cls, t[x])
    ensures k == |t| || !InClass(cls, t[k])
    decreases |t| - i
  {
    if i == |t| || !InClass(cls, t[i]) then i else RunEnd(t, i + 1, cls)
  }

  lemma RunEndExact(t: string, a: nat, b: nat, cls: CharClass)
    requires a <= b <= |t|
    requires forall x :: a <= x < b ==> InClass(cls, t[x])
    requires b == |t| || !InClass(cls, t[b])
    ensures RunEnd(t, a, cls) == b
  {
  }

  lemma RunEndAtLeast(t: string, a: nat, b: nat, cls: CharClass)
    requires a <= b <= |t|
    requires forall x :: a <= x < b ==> InClass(cls, t[x])
    ensures RunEnd(t, a, cls) >= b
  {
  }

  datatype Pattern =
    | SupabaseUrl     // https?:\/\/[a-zA-Z0-9-]+\.supabase\.(co|in)[^\s"'`]*
    | PublishableKey  // sb_publishable_[a-zA-Z0-9_-]+
    | JwtKey          // eyJ[a-zA-Z0-9_-]{20,}\.eyJ[a-zA-Z0-9_-]{20,}\.[a-zA-Z0-9_-]{20,}

  const KeyPrefix: string := "sb_publishable_"

  /** `t[i..j]` is a whole match of the endpoint pattern, split as scheme and `://` up to
      `n`, host label up to `e`, `.supabase.co` or `.supabase.in`, and a tail. */
  predicate EndpointSplit(t: string, i: nat, j: nat, n: nat, e: nat) {
    && i + 7 <= n < e && e + 12 <= j <= |t|
    && (t[i..n] == "http://" || t[i..n] == "https://")
    && RangeIn(t, n, e, HostLabel)
    && (t[e..e + 12] == ".supabase.co" || t[e..e + 12] == ".supabase.in")
    && RangeIn(t, e + 12, j, UrlTail)
  }

  /** `t[i..j]` is a whole match of the publishable-key pattern. */
  predicate KeySplit(t: string, i: nat, j: nat) {
    && i + |KeyPrefix| < j <= |t|
    && t[i..i + |KeyPrefix|] == KeyPrefix
    && RangeIn(t, i + |KeyPrefix|, j, KeyChar)
  }

  /** `t[i..j]` is a whole match of the token pattern: three dot-separated segments split
      at `e1` and `e2`, the first two opening with `eyJ`, each with at least 20 characters
      after that opening. */
  predicate JwtSplit(t: string, i: nat, j: nat, e1: nat, e2: nat) {
    && i + 23 <= e1 && e1 + 24 <= e2 && e2 + 21 <= j <= |t|
    && t[i..i + 3] == "eyJ" && RangeIn(t, i + 3, e1, KeyChar)
    && t[e1..e1 + 4] == ".eyJ" && RangeIn(t, e1 + 4, e2, KeyChar)
    && t[e2] == '.' && RangeIn(t, e2 + 1, j, KeyChar)
  }

  /** `t[i..j]` is a whole match of `p`. */
  ghost predicate Matches(p: Pattern, t: string, i: nat, j: nat) {
    match p
    case SupabaseUrl => exists n: nat, e: nat :: EndpointSplit(t, i, j, n, e)
    case PublishableKey => KeySplit(t, i, j)
    case JwtKey => exists e1: nat, e2: nat :: JwtSplit(t, i, j, e1, e2)
  }

  /** The endpoint matcher at `i`: `s?` is taken when present, the host label is the whole
      run of label characters, and the tail runs up to the first stop character. */
  function UrlMatchAt(t: string, i: nat): Option<nat>
    requires i <= |t|
  {
    if !StartsAt(t, i, "https://") && !StartsAt(t, i, "http://") then None
    else
      var m := if StartsAt(t, i, "https://") then i + 8 else i + 7;
      var e := RunEnd(t, m, HostLabel);
      if e > m && (StartsAt(t, e, ".supabase.co") || StartsAt(t, e, ".supabase.in"))
      then Some(RunEnd(t, e + 12, UrlTail))
      else None
  }

  function KeyMatchAt(t: string, i: nat): Option<nat>
    requires i <= |t|
  {
    if !StartsAt(t, i, KeyPrefix) then None
    else
      var e := RunEnd(t, i + |KeyPrefix|, KeyChar);
      if e > i + |KeyPrefix| then Some(e) else None
  }

  function JwtMatchAt(t: string, i: nat): Option<nat>
    requires i <= |t|
  {
    if !StartsAt(t, i, "eyJ") then None
    else
      var e1 := RunEnd(t, i + 3, KeyChar);
      if e1 < i + 23 || !StartsAt(t, e1, ".eyJ") then None
      else
        var e2 := RunEnd(t, e1 + 4, KeyChar);
        if e2 < e1 + 24 || !StartsAt(t, e2, ".") then None
        else
          var e3 := RunEnd(t, e2 + 1, KeyChar);
          if e3 < e2 + 21 then None else Some(e3)
  }

  /** Where the match of `p` that starts at `i` ends, if one starts there. */
  function MatchAt(p: Pattern, t: string, i: nat): (r: Option<nat>)
    requires i <= |t|
    ensures r.Some? ==> i < r.value <= |t|
  {
    match p
    case SupabaseUrl => UrlMatchAt(t, i)
    case PublishableKey => KeyMatchAt(t, i)
    case JwtKey => JwtMatchAt(t, i)
  }

  /** The first start position at or after `from` where `p` matches, with the match's end. */
  function FindFrom(p: Pattern, t: string, from: nat): (r: Option<(nat, nat)>)
    requires from <= |t|
    ensures r.Some? ==> from <= r.value.0 <= |t| && MatchAt(p, t, r.value.0) == Some(r.value.1)
    decreases |t| - from
  {
    match MatchAt(p, t, from)
    case Some(j) => Some((from, j))
    case None => if from == |t| then None else FindFrom(p, t, from + 1)
  }

  /** The search passes over no position where the matcher succeeds. */
  lemma {:induction false} FindFromIsFirst(p: Pattern, t: string, from: nat)
    requires from <= |t|
    ensures var r := FindFrom(p, t, from);
      r.Some? ==> forall k :: from <= k < r.value.0 ==> MatchAt(p, t, k).None?
    ensures FindFrom(p, t, from).None? ==> forall k :: from <= k <= |t| ==> MatchAt(p, t, k).None?
    decreases |t| - from
  {
    var r := FindFrom(p, t, from);
    if MatchAt(p, t, from).Some? {
      assert r.Some? && r.value.0 == from;
    } else if from == |t| {
      assert r.None?;
    } else {
      FindFromIsFirst(p, t, from + 1);
      assert r == FindFrom(p, t, from + 1);
      var last := if r.Some? then r.value.0 else |t| + 1;
      forall k | from <= k < last ensures MatchAt(p, t, k).None? {
        if k > from {
          assert from + 1 <= k < last;
        }
      }
    }
  }

  /** `t.match(pattern)`: the positions of the first match, if any. */
  function Find(p: Pattern, t: string): Option<(nat, nat)> {
    FindFrom(p, t, 0)
  }

  datatype Credentials = Credentials(url: string, apiKey: string)

  /** `findSupabaseCredentials(content)` (src/browser/credential-finder.ts:14-29). */
  function FindSupabaseCredentials(content: string): (r: Option<Credentials>)
    ensures r.Some? ==> |r.value.url| > 0 && |r.value.apiKey| > 0
  {
    var urlMatch := Find(SupabaseUrl, content);
    var keyMatch := if Find(PublishableKey, content).Some? then Find(PublishableKey, content)
                    else Find(JwtKey, content);
    if urlMatch.Some? && keyMatch.Some? then
      var (ui, uj) := urlMatch.value;
      var (ki, kj) := keyMatch.value;
      Some(Credentials(content[ui..uj], content[ki..kj]))
    else None
  }

  // ---------------------------------------------------------------------------------------
  // The matchers agree with the languages.

  /** `p` matches somewhere in `t`. */
  ghost predicate Occurs(p: Pattern, t: string) {
    exists i: nat, j: nat :: i <= j <= |t| && Matches(p, t, i, j)
  }

  /** `t[i..j]` is the match JavaScript reports: no match starts earlier, and none starting
      at `i` is longer. */
  ghost predicate LeftmostLongest(p: Pattern, t: string, i: nat, j: nat) {
    && i <= j <= |t|
    && Matches(p, t, i, j)
    && (forall k: nat, l: nat :: k < i && k <= l <= |t| ==> !Matches(p, t, k, l))
    && (forall l: nat :: j < l <= |t| ==> !Matches(p, t, i, l))
  }

  lemma UrlMatchSound(t: string, i: nat)
    requires i <= |t| && UrlMatchAt(t, i).Some?
    ensures var j := UrlMatchAt(t, i).value;
      Matches(SupabaseUrl, t, i, j) && (j == |t| || !InClass(UrlTail, t[j]))
  {
    var m := if StartsAt(t, i, "https://") then i + 8 else i + 7;
    var e := RunEnd(t, m, HostLabel);
    var j := RunEnd(t, e + 12, UrlTail);
    assert EndpointSplit(t, i, j, m, e);
  }

  /** Any endpoint match starting at `i` is covered by the matcher's result there. */
  lemma UrlMatchComplete(t: string, i: nat, j: nat)
    requires Matches(SupabaseUrl, t, i, j)
    ensures UrlMatchAt(t, i).Some? && j <= UrlMatchAt(t, i).value
  {
    var n: nat, e: nat :| EndpointSplit(t, i, j, n, e);
    if t[i..n] == "http://" {
      assert t[i + 4] == t[i..n][4] == ':';
      assert !StartsAt(t, i, "https://");
      assert StartsAt(t, i, "http://");
    } else {
      assert StartsAt(t, i, "https://");
    }
    assert t[e] == t[e..e + 12][0] == '.';
    assert StartsAt(t, e, ".supabase.co") || StartsAt(t, e, ".supabase.in");
    RunEndExact(t, n, e, HostLabel);
    RunEndAtLeast(t, e + 12, j, UrlTail);
    UrlMatchAtPieces(t, i, n, e);
  }

  /** The endpoint matcher on a text whose scheme ends at `n` and host label at `e`. */
  lemma UrlMatchAtPieces(t: string, i: nat, n: nat, e: nat)
    requires i <= |t|
    requires StartsAt(t, i, "https://") ==> n == i + 8
    requires !StartsAt(t, i, "https://") ==> StartsAt(t, i, "http://") && n == i + 7
    requires RunEnd(t, n, HostLabel) == e > n
    requires StartsAt(t, e, ".supabase.co") || StartsAt(t, e, ".supabase.in")
    ensures UrlMatchAt(t, i) == Some(RunEnd(t, e + 12, UrlTail))
  {
  }

  lemma KeyMatchSound(t: string, i: nat)
    requires i <= |t| && KeyMatchAt(t, i).Some?
    ensures var j := KeyMatchAt(t, i).value;
      Matches(PublishableKey, t, i, j) && (j == |t| || !InClass(KeyChar, t[j]))
  {
  }

  lemma KeyMatchComplete(t: string, i: nat, j: nat)
    requires Matches(PublishableKey, t, i, j)
    ensures KeyMatchAt(t, i).Some? && j <= KeyMatchAt(t, i).value
  {
    RunEndAtLeast(t, i + |KeyPrefix|, j, KeyChar);
  }

  lemma JwtMatchSound(t: string, i: nat)
    requires i <= |t| && JwtMatchAt(t, i).Some?
    ensures var j := JwtMatchAt(t, i).value;
      Matches(JwtKey, t, i, j) && (j == |t| || !InClass(KeyChar, t[j]))
  {
    var e1 := RunEnd(t, i + 3, KeyChar);
    var e2 := RunEnd(t, e1 + 4, KeyChar);
    var j := RunEnd(t, e2 + 1, KeyChar);
    assert t[e2..e2 + 1] == ".";
    assert JwtSplit(t, i, j, e1, e2);
  }

  lemma JwtMatchComplete(t: string, i: nat, j: nat)
    requires Matches(JwtKey, t, i, j)
    ensures JwtMatchAt(t, i).Some? && j <= JwtMatchAt(t, i).value
  {
    var e1: nat, e2: nat :| JwtSplit(t, i, j, e1, e2);
    assert StartsAt(t, i, "eyJ");
    assert t[e1] == t[e1..e1 + 4][0] == '.';
    RunEndExact(t, i + 3, e1, KeyChar);
    assert StartsAt(t, e1, ".eyJ");
    RunEndExact(t, e1 + 4, e2, KeyChar);
    assert StartsAt(t, e2, ".") by {
      assert t[e2..e2 + 1] == [t[e2]];
    }
    RunEndAtLeast(t, e2 + 1, j, KeyChar);
    JwtMatchAtSegments(t, i, e1, e2);
  }

  /** The token matcher on a text whose segments end at `e1` and `e2`. */
  lemma JwtMatchAtSegments(t: string, i: nat, e1: nat, e2: nat)
    requires i <= |t| && StartsAt(t, i, "eyJ")
    requires RunEnd(t, i + 3, KeyChar) == e1 >= i + 23 && StartsAt(t, e1, ".eyJ")
    requires RunEnd(t, e1 + 4, KeyChar) == e2 >= e1 + 24 && StartsAt(t, e2, ".")
    requires RunEnd(t, e2 + 1, KeyChar) >= e2 + 21
    ensures JwtMatchAt(t, i) == Some(RunEnd(t, e2 + 1, KeyChar))
  {
  }

  /** The matcher at `i` finds exactly the longest match starting at `i`. */
  lemma MatchAtIsLongest(p: Pattern, t: string, i: nat)
    requires i <= |t|
    ensures MatchAt(p, t, i).Some? ==> Matches(p, t, i, MatchAt(p, t, i).value)
    ensures forall j: nat :: Matches(p, t, i, j) ==> MatchAt(p, t, i).Some? && j <= MatchAt(p, t, i).value
  {
    match p
    case SupabaseUrl =>
      if UrlMatchAt(t, i).Some? { UrlMatchSound(t, i); }
      forall j: nat | Matches(p, t, i, j) ensures MatchAt(p, t, i).Some? && j <= MatchAt(p, t, i).value {
        UrlMatchComplete(t, i, j);
      }
    case PublishableKey =>
      if KeyMatchAt(t, i).Some? { KeyMatchSound(t, i); }
      forall j: nat | Matches(p, t, i, j) ensures MatchAt(p, t, i).Some? && j <= MatchAt(p, t, i).value {
        KeyMatchComplete(t, i, j);
      }
    case JwtKey =>
      if JwtMatchAt(t, i).Some? { JwtMatchSound(t, i); }
      forall j: nat | Matches(p, t, i, j) ensures MatchAt(p, t, i).Some? && j <= MatchAt(p, t, i).value {
        JwtMatchComplete(t, i, j);
      }
  }

  /** Where the matcher finds nothing, no match starts. */
  lemma NoMatchWhereMatcherFails(p: Pattern, t: string, k: nat)
    requires k <= |t| && MatchAt(p, t, k).None?
    ensures forall l: nat :: !Matches(p, t, k, l)
  {
    MatchAtIsLongest(p, t, k);
  }

  /** `Find` reports a match exactly when the pattern occurs. */
  lemma FindIffOccurs(p: Pattern, t: string)
    ensures Find(p, t).Some? <==> Occurs(p, t)
  {
    if Find(p, t).Some? {
      var (i, j) := Find(p, t).value;
      MatchAtIsLongest(p, t, i);
      assert Matches(p, t, i, j);
    }
    if Occurs(p, t) {
      var i: nat, j: nat :| i <= j <= |t| && Matches(p, t, i, j);
      MatchAtIsLongest(p, t, i);
      FindFromIsFirst(p, t, 0);
      assert MatchAt(p, t, i).Some?;
    }
  }

  /** When `Find` reports a match, it is the leftmost-longest one. */
  lemma FindIsLeftmostLongest(p: Pattern, t: string)
    requires Find(p, t).Some?
    ensures LeftmostLongest(p, t, Find(p, t).value.0, Find(p, t).value.1)
  {
    var (i, j) := Find(p, t).value;
    MatchAtIsLongest(p, t, i);
    FindFromIsFirst(p, t, 0);
    forall k: nat, l: nat | k < i && k <= l <= |t| ensures !Matches(p, t, k, l) {
      NoMatchWhereMatcherFails(p, t, k);
    }
  }

  // ---------------------------------------------------------------------------------------
  // What `findSupabaseCredentials` promises.

  /** A result exists exactly when the endpoint pattern and one of the two key patterns
      occur in the text. */
  lemma CredentialsFoundIff(t: string)
    ensures FindSupabaseCredentials(t).Some? <==>
      Occurs(SupabaseUrl, t) && (Occurs(PublishableKey, t) || Occurs(JwtKey, t))
  {
    FindIffOccurs(SupabaseUrl, t);
    FindIffOccurs(PublishableKey, t);
    FindIffOccurs(JwtKey, t);
  }

  /** Both returned strings are the leftmost-longest matches of their patterns in the text;
      the key is a publishable key whenever one occurs, and a token only otherwise. */
  lemma CredentialsAreFirstMatches(t: string)
    requires FindSupabaseCredentials(t).Some?
    ensures var c := FindSupabaseCredentials(t).value;
      exists i: nat, j: nat :: LeftmostLongest(SupabaseUrl, t, i, j) && c.url == t[i..j]
    ensures var c := FindSupabaseCredentials(t).value;
      Occurs(PublishableKey, t) ==>
        exists i: nat, j: nat :: LeftmostLongest(PublishableKey, t, i, j) && c.apiKey == t[i..j]
    ensures var c := FindSupabaseCredentials(t).value;
      !Occurs(PublishableKey, t) ==>
        exists i: nat, j: nat :: LeftmostLongest(JwtKey, t, i, j) && c.apiKey == t[i..j]
  {
    var c := FindSupabaseCredentials(t).value;
    var (ui, uj) := Find(SupabaseUrl, t).value;
    FindIsLeftmostLongest(SupabaseUrl, t);
    assert c.url == t[ui..uj];
    FindIffOccurs(PublishableKey, t);
    if Occurs(PublishableKey, t) {
      var (ki, kj) := Find(PublishableKey, t).value;
      FindIsLeftmostLongest(PublishableKey, t);
      assert c.apiKey == t[ki..kj];
    } else {
      var (ki, kj) := Find(JwtKey, t).value;
      FindIsLeftmostLongest(JwtKey, t);
      assert c.apiKey == t[ki..kj];
    }
  }

  /** An endpoint match starts with `http://` or `https://` and holds no white space, quote
      or backtick anywhere. */
  lemma EndpointHasNoStopCharacter(t: string, i: nat, j: nat)
    requires Matches(SupabaseUrl, t, i, j)
    ensures StartsAt(t, i, "http://") || StartsAt(t, i, "https://")
    ensures RangeIn(t, i, j, UrlTail)
  {
    var n: nat, e: nat :| EndpointSplit(t, i, j, n, e);
    forall x | i <= x < j ensures InClass(UrlTail, t[x]) {
      if x < n {
        assert t[x] == t[i..n][x - i];
        LiteralInTail(t[i..n], x - i);
      } else if x < e {
        HostLabelInTail(t[x]);
      } else if x < e + 12 {
        assert t[x] == t[e..e + 12][x - e];
        LiteralInTail(t[e..e + 12], x - e);
      }
    }
  }

  lemma HostLabelInTail(c: char)
    requires InClass(HostLabel, c)
    ensures InClass(UrlTail, c)
  {
  }

  /** The fixed pieces of the endpoint pattern hold no stop character. */
  lemma LiteralInTail(s: string, k: nat)
    requires s == "http://" || s == "https://" || s == ".supabase.co" || s == ".supabase.in"
    requires k < |s|
    ensures InClass(UrlTail, s[k])
  {
  }

  /** The returned endpoint reaches up to the first stop character after it, or the end. */
  lemma EndpointIsGreedy(t: string)
    requires FindSupabaseCredentials(t).Some?
    ensures var (i, j) := Find(SupabaseUrl, t).value;
      FindSupabaseCredentials(t).value.url == t[i..j] && (j == |t| || !InClass(UrlTail, t[j]))
  {
    var (i, j) := Find(SupabaseUrl, t).value;
    UrlMatchSound(t, i);
  }
}
