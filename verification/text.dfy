/** String operations of the JavaScript runtime that the core relies on. */
module Text {

  /** `\s` of a JavaScript regular expression, and the set `String.prototype.trim` strips. */
  predicate IsJsWhitespace(c: char) {
    c == '\t' || c == '\n' || c == '\U{000B}' || c == '\U{000C}' || c == '\r' || c == ' ' ||
    c == '\U{00A0}' || c == '\U{1680}' || ('\U{2000}' <= c <= '\U{200A}') ||
    c == '\U{2028}' || c == '\U{2029}' || c == '\U{202F}' || c == '\U{205F}' ||
    c == '\U{3000}' || c == '\U{FEFF}'
  }

  /** `p` occurs in `t` at index `i`. */
  predicate StartsAt(t: string, i: nat, p: string) {
    i + |p| <= |t| && t[i..i + |p|] == p
  }

  /** `s.startsWith(p)`. */
  predicate StartsWith(s: string, p: string) {
    StartsAt(s, 0, p)
  }

  /** `s.includes(p)`. */
  predicate Contains(s: string, p: string) {
    exists i: nat :: i <= |s| && StartsAt(s, i, p)
  }

  lemma ContainsAt(s: string, p: string, i: nat)
    requires StartsAt(s, i, p)
    ensures Contains(s, p)
  {
  }

  /** Any text that contains `a + p + b` contains `p`. */
  lemma ContainsInfix(a: string, p: string, b: string)
    ensures Contains(a + p + b, p)
  {
    var s := a + p + b;
    assert s[|a|..|a| + |p|] == p;
    ContainsAt(s, p, |a|);
  }

  lemma {:induction false} ContainsExtends(a: string, p: string, b: string, c: string)
    requires Contains(b, p)
    ensures Contains(a + b + c, p)
  {
    var i: nat :| i <= |b| && StartsAt(b, i, p);
    var s := a + b + c;
    assert s[|a| + i..|a| + i + |p|] == b[i..i + |p|];
    ContainsAt(s, p, |a| + i);
  }

  /** ASCII case mapping of `toLowerCase`. */
  function LowerChar(c: char): (r: char)
    ensures 'A' <= c <= 'Z' ==> 'a' <= r <= 'z'
    ensures !('A' <= c <= 'Z') ==> r == c
  {
    if 'A' <= c <= 'Z' then (c as int - 'A' as int + 'a' as int) as char else c
  }

  function Lower(s: string): (r: string)
    ensures |r| == |s|
    ensures forall i :: 0 <= i < |s| ==> r[i] == LowerChar(s[i])
  {
    if s == [] then [] else [LowerChar(s[0])] + Lower(s[1..])
  }

  predicate AllWhitespace(s: string) {
    forall i :: 0 <= i < |s| ==> IsJsWhitespace(s[i])
  }

  function TrimStart(s: string): (r: string)
    ensures r == [] || !IsJsWhitespace(r[0])
  {
    if s != [] && IsJsWhitespace(s[0]) then TrimStart(s[1..]) else s
  }

  function TrimEnd(s: string): (r: string)
    ensures r == [] || !IsJsWhitespace(r[|r| - 1])
  {
    if s != [] && IsJsWhitespace(s[|s| - 1]) then TrimEnd(s[..|s| - 1]) else s
  }

  /** `s.trim()`. */
  function Trim(s: string): string {
    TrimEnd(TrimStart(s))
  }

  lemma {:induction false} TrimStartEmpty(s: string)
    ensures TrimStart(s) == [] <==> AllWhitespace(s)
    decreases |s|
  {
    if s != [] {
      TrimStartEmpty(s[1..]);
      if IsJsWhitespace(s[0]) {
        assert AllWhitespace(s) <==> AllWhitespace(s[1..]) by {
          if AllWhitespace(s[1..]) {
            forall i | 0 <= i < |s| ensures IsJsWhitespace(s[i]) {
              if i > 0 { assert s[i] == s[1..][i - 1]; }
            }
          }
        }
      }
    }
  }

  lemma {:induction false} TrimEndEmpty(s: string)
    ensures TrimEnd(s) == [] <==> AllWhitespace(s)
    decreases |s|
  {
    if s != [] {
      var init := s[..|s| - 1];
      TrimEndEmpty(init);
      if IsJsWhitespace(s[|s| - 1]) {
        assert AllWhitespace(s) <==> AllWhitespace(init) by {
          if AllWhitespace(init) {
            forall i | 0 <= i < |s| ensures IsJsWhitespace(s[i]) {
              if i < |s| - 1 { assert s[i] == init[i]; }
            }
          }
        }
      }
    }
  }

  /** `s.trim()` is empty exactly when every character of `s` is white space. */
  lemma TrimEmptyIffBlank(s: string)
    ensures Trim(s) == [] <==> AllWhitespace(s)
  {
    TrimStartEmpty(s);
    TrimEndEmpty(TrimStart(s));
  }

  /** `parts.join(sep)`. */
  function Join(parts: seq<string>, sep: string): (r: string)
    ensures parts == [] ==> r == []
  {
    if parts == [] then []
    else if |parts| == 1 then parts[0]
    else parts[0] + sep + Join(parts[1..], sep)
  }

  /** Concatenation of all the strings, in order. */
  function Concat(parts: seq<string>): (r: string)
    ensures |parts| == 1 ==> r == parts[0]
  {
    if parts == [] then [] else parts[0] + Concat(parts[1..])
  }

  lemma {:induction false} ConcatAppend(a: seq<string>, b: seq<string>)
    ensures Concat(a + b) == Concat(a) + Concat(b)
  {
    if a == [] {
      assert a + b == b;
    } else {
      assert (a + b)[1..] == a[1..] + b;
      ConcatAppend(a[1..], b);
    }
  }

  /** The complete lines of `s`, read from left to right: each line feed ends the text
      pending before it. */
  function CompleteLines(s: string): seq<string> {
    if s == [] then []
    else
      var init := s[..|s| - 1];
      if s[|s| - 1] == '\n' then CompleteLines(init) + [PendingLine(init)] else CompleteLines(init)
  }

  /** The text after the last line feed of `s` (all of `s` when it has none). */
  function PendingLine(s: string): (r: string)
    ensures |r| <= |s|
  {
    if s == [] || s[|s| - 1] == '\n' then []
    else PendingLine(s[..|s| - 1]) + [s[|s| - 1]]
  }

  /** The pending text is the part of `s` after its last line feed: a suffix of `s` with no
      line feed in it. */
  lemma {:induction false} PendingLineSuffix(s: string)
    ensures '\n' !in PendingLine(s)
    ensures PendingLine(s) == s[|s| - |PendingLine(s)|..]
  {
    if s != [] && s[|s| - 1] != '\n' {
      var init := s[..|s| - 1];
      PendingLineSuffix(init);
      assert s[|s| - |PendingLine(s)|..] == init[|init| - |PendingLine(init)|..] + [s[|s| - 1]];
    }
  }

  /** `s.split("\n")`: the complete lines, then the pending text. */
  function SplitLines(s: string): (r: seq<string>)
    ensures |r| >= 1 && r[|r| - 1] == PendingLine(s)
  {
    CompleteLines(s) + [PendingLine(s)]
  }

  /** A text without line feeds is all pending. */
  lemma {:induction false} NoNewlinePending(x: string)
    requires '\n' !in x
    ensures CompleteLines(x) == [] && PendingLine(x) == x
  {
    if x != [] {
      var init, c := x[..|x| - 1], x[|x| - 1];
      assert x == init + [c];
      assert '\n' !in init && c != '\n';
      NoNewlinePending(init);
    }
  }

  /** Reading `a` and then `b`: the complete lines of `a` come first, then those of its
      pending text continued by `b`; what is left pending is what that continuation leaves. */
  lemma {:induction false} LinesAppend(a: string, b: string)
    ensures CompleteLines(a + b) == CompleteLines(a) + CompleteLines(PendingLine(a) + b)
    ensures PendingLine(a + b) == PendingLine(PendingLine(a) + b)
    decreases |b|
  {
    var p := PendingLine(a);
    if b == [] {
      PendingLineSuffix(a);
      NoNewlinePending(p);
      assert a + b == a && p + b == p;
    } else {
      var b', c := b[..|b| - 1], b[|b| - 1];
      LinesAppend(a, b');
      assert (a + b)[..|a + b| - 1] == a + b' && (a + b)[|a + b| - 1] == c;
      assert (p + b)[..|p + b| - 1] == p + b' && (p + b)[|p + b| - 1] == c;
      if c == '\n' {
        assert CompleteLines(a) + CompleteLines(p + b') + [PendingLine(p + b')]
            == CompleteLines(a) + (CompleteLines(p + b') + [PendingLine(p + b')]);
      }
    }
  }

  /** Splitting a concatenation: the complete lines of the first part come first, and its
      pending text is continued by the second part. */
  lemma SplitAppend(a: string, b: string)
    ensures SplitLines(a + b) == CompleteLines(a) + SplitLines(PendingLine(a) + b)
  {
    var q := PendingLine(a) + b;
    LinesAppend(a, b);
    calc {
      SplitLines(a + b);
      CompleteLines(a + b) + [PendingLine(a + b)];
      CompleteLines(a) + CompleteLines(q) + [PendingLine(q)];
      CompleteLines(a) + (CompleteLines(q) + [PendingLine(q)]);
      CompleteLines(a) + SplitLines(q);
    }
  }

  lemma SplitNoNewline(x: string)
    requires '\n' !in x
    ensures SplitLines(x) == [x]
  {
    NoNewlinePending(x);
  }

  /** Appending one complete line to a text with nothing pending adds that line and leaves
      nothing pending. */
  lemma SplitAppendLine(a: string, x: string)
    requires PendingLine(a) == "" && '\n' !in x
    ensures CompleteLines(a + x + "\n") == CompleteLines(a) + [x]
    ensures PendingLine(a + x + "\n") == ""
  {
    assert a + x + "\n" == a + (x + "\n");
    LinesAppend(a, x + "\n");
    assert PendingLine(a) + (x + "\n") == x + "\n";
    NoNewlinePending(x);
    assert (x + "\n")[..|x|] == x;
  }

  /** Joining with one more part. */
  lemma {:induction false} JoinSnoc(ps: seq<string>, x: string, sep: string)
    requires ps != []
    ensures Join(ps + [x], sep) == Join(ps, sep) + sep + x
    decreases |ps|
  {
    if |ps| == 1 {
      assert (ps + [x])[1..] == [x];
    } else {
      assert (ps + [x])[1..] == ps[1..] + [x];
      JoinSnoc(ps[1..], x, sep);
    }
  }

  /** Joining with a longer last part. */
  lemma {:induction false} JoinExtendLast(ps: seq<string>, x: string, y: string, sep: string)
    ensures Join(ps + [x + y], sep) == Join(ps + [x], sep) + y
    decreases |ps|
  {
    if ps == [] {
      assert ps + [x + y] == [x + y] && ps + [x] == [x];
    } else {
      assert (ps + [x + y])[1..] == ps[1..] + [x + y];
      assert (ps + [x])[1..] == ps[1..] + [x];
      JoinExtendLast(ps[1..], x, y, sep);
    }
  }

  /** The inverse direction: joining the pieces with line feeds gives back the text. */
  lemma {:induction false} JoinSplitLines(s: string)
    ensures Join(SplitLines(s), "\n") == s
  {
    if s != [] {
      var init, c := s[..|s| - 1], s[|s| - 1];
      JoinSplitLines(init);
      assert s == init + [c];
      if c == '\n' {
        assert SplitLines(s) == SplitLines(init) + [""];
        JoinSnoc(SplitLines(init), "", "\n");
      } else {
        assert SplitLines(s) == CompleteLines(init) + [PendingLine(init) + [c]];
        JoinExtendLast(CompleteLines(init), PendingLine(init), [c], "\n");
      }
    }
  }

  /** The number a string of decimal digits denotes. */
  function DigitsValue(s: string): nat
    requires forall i :: 0 <= i < |s| ==> '0' <= s[i] <= '9'
  {
    if s == [] then 0 else DigitsValue(s[..|s| - 1]) * 10 + (s[|s| - 1] - '0') as nat
  }

  /** Decimal rendering of a natural number, as in a template literal: digits that denote
      `n`, with no leading zero except for zero itself. */
  function NatToString(n: nat): (r: string)
    ensures |r| >= 1
    ensures forall i :: 0 <= i < |r| ==> '0' <= r[i] <= '9'
    ensures DigitsValue(r) == n
    ensures |r| > 1 ==> r[0] != '0'
  {
    var d := ['0' + (n % 10) as char];
    if n < 10 then d else
      var high := NatToString(n / 10);
      assert (high + d)[..|high + d| - 1] == high;
      high + d
  }
}
