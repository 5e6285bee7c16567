/** src/browser/page-extractor.ts: what the discovery reads from the loaded document, the
    best-effort download of external scripts, and the selection of sign-in links. */
module PageExtractor {
  import opened Common
  import opened Text
  import opened Types
  import opened Http
  import opened NetworkInterceptor
  import opened Browser

  // ---------------------------------------------------------------------------------------
  // extractPageContent: the script partition.

  datatype PageContent = PageContent(html: string, scriptUrls: seq<string>, scriptContents: seq<string>)

  /** `scripts.map(s => s.src).filter(Boolean)`. */
  function ScriptUrls(scripts: seq<ScriptElement>): (r: seq<string>)
    ensures |r| <= |scripts|
    ensures forall k :: 0 <= k < |r| ==> r[k] != ""
  {
    if scripts == [] then []
    else (if scripts[0].src != "" then [scripts[0].src] else []) + ScriptUrls(scripts[1..])
  }

  /** `scripts.filter(s => !s.src).map(s => s.textContent ?? "")`. */
  function InlineBodies(scripts: seq<ScriptElement>): (r: seq<string>)
    ensures |r| <= |scripts|
  {
    if scripts == [] then []
    else
      (if scripts[0].src == "" then [match scripts[0].text case Some(t) => t case None => ""] else [])
      + InlineBodies(scripts[1..])
  }

  /** `extractPageContent(page)` on the document currently loaded. */
  function ExtractPageContent(doc: Document): PageContent {
    PageContent(doc.html, ScriptUrls(doc.scripts), InlineBodies(doc.scripts))
  }

  /** Every script element lands in exactly one of the two lists. */
  lemma {:induction false} PartitionCounts(scripts: seq<ScriptElement>)
    ensures |ScriptUrls(scripts)| + |InlineBodies(scripts)| == |scripts|
  {
    if scripts != [] {
      PartitionCounts(scripts[1..]);
    }
  }

  /** Both lists keep document order: the lists of a concatenation are the concatenations. */
  lemma {:induction false} PartitionAppend(a: seq<ScriptElement>, b: seq<ScriptElement>)
    ensures ScriptUrls(a + b) == ScriptUrls(a) + ScriptUrls(b)
    ensures InlineBodies(a + b) == InlineBodies(a) + InlineBodies(b)
  {
    if a == [] {
      assert a + b == b;
    } else {
      assert (a + b)[1..] == a[1..] + b;
      PartitionAppend(a[1..], b);
    }
  }

  /** A script with a source contributes its URL, one without contributes its text. */
  lemma {:induction false} ScriptLandsInItsList(scripts: seq<ScriptElement>, k: nat)
    requires k < |scripts|
    ensures scripts[k].src != "" ==> scripts[k].src in ScriptUrls(scripts)
    ensures scripts[k].src == "" ==>
      (match scripts[k].text case Some(t) => t case None => "") in InlineBodies(scripts)
  {
    if k > 0 {
      ScriptLandsInItsList(scripts[1..], k - 1);
    }
  }

  // ---------------------------------------------------------------------------------------
  // fetchExternalScripts.

  /** The outcomes of navigating, from the `n`-th navigation on, to each of `urls`. */
  function Outcomes(web: Web, n: nat, urls: seq<string>): (r: seq<NavOutcome>)
    ensures |r| == |urls|
  {
    if urls == [] then [] else Outcomes(web, n, urls[..|urls| - 1]) + [web(n + |urls| - 1, urls[|urls| - 1])]
  }

  lemma OutcomesSnoc(web: Web, n: nat, urls: seq<string>, i: nat)
    requires i < |urls|
    ensures Outcomes(web, n, urls[..i + 1]) == Outcomes(web, n, urls[..i]) + [web(n + i, urls[i])]
  {
    assert urls[..i + 1][..i] == urls[..i];
  }

  lemma OutcomesLast(web: Web, n: nat, urls: seq<string>)
    requires urls != []
    ensures Outcomes(web, n, urls)[|urls| - 1] == web(n + |urls| - 1, urls[|urls| - 1])
  {
  }

  /** The navigation settled with a response whose status is OK; `response?.ok()`. */
  predicate DeliveredOk(o: NavOutcome) {
    o.Loaded? && o.response.Some? && o.response.value.ok
  }

  /** The bodies of the OK responses, in order. */
  function OkBodies(os: seq<NavOutcome>): (r: seq<string>)
    ensures |r| <= |os|
  {
    if os == [] then []
    else
      var init := OkBodies(os[..|os| - 1]);
      var last := os[|os| - 1];
      if DeliveredOk(last) then init + [last.response.value.body] else init
  }

  /** The kept bodies are exactly those of the navigations that delivered an OK response. */
  lemma {:induction false} OkBodiesMembers(os: seq<NavOutcome>)
    ensures forall b :: b in OkBodies(os) ==>
      exists k :: 0 <= k < |os| && DeliveredOk(os[k]) && os[k].response.value.body == b
    ensures forall k :: 0 <= k < |os| && DeliveredOk(os[k]) ==> os[k].response.value.body in OkBodies(os)
  {
    if os != [] {
      var init := os[..|os| - 1];
      OkBodiesMembers(init);
      assert forall k :: 0 <= k < |init| ==> init[k] == os[k];
    }
  }

  lemma {:induction false} OkBodiesAppend(a: seq<NavOutcome>, b: seq<NavOutcome>)
    ensures OkBodies(a + b) == OkBodies(a) + OkBodies(b)
    decreases |b|
  {
    if b == [] {
      assert a + b == a;
    } else {
      assert (a + b)[..|a + b| - 1] == a + b[..|b| - 1];
      OkBodiesAppend(a, b[..|b| - 1]);
    }
  }

  /** Every request the navigations sent, in order. */
  function AllEvents(os: seq<NavOutcome>): seq<ObservedRequest> {
    if os == [] then [] else AllEvents(os[..|os| - 1]) + os[|os| - 1].events
  }

  lemma SnocUnfolds(os: seq<NavOutcome>, o: NavOutcome)
    ensures OkBodies(os + [o]) == OkBodies(os) + (if DeliveredOk(o) then [o.response.value.body] else [])
    ensures OkBodies(os + [o]) == OkBodies(os) + OkBodies([o])
    ensures AllEvents(os + [o]) == AllEvents(os) + o.events
  {
    assert (os + [o])[..|os|] == os;
    assert [o][..0] == [];
  }

  /** What one more navigation adds to the outcomes, the kept bodies and the requests. */
  lemma FetchStep<U>(web: Web, n0: nat, urls: seq<string>, i: nat, outs: seq<NavOutcome>, o: NavOutcome,
                     v0: AuthInfo<U>, wrap: string -> Option<U>)
    requires i < |urls| && outs == Outcomes(web, n0, urls[..i]) && o == web(n0 + i, urls[i])
    ensures outs + [o] == Outcomes(web, n0, urls[..i + 1])
    ensures OkBodies(outs + [o]) == OkBodies(outs) + OkBodies([o])
    ensures ApplyAll(v0, AllEvents(outs + [o]), wrap) == ApplyAll(ApplyAll(v0, AllEvents(outs), wrap), o.events, wrap)
  {
    OutcomesSnoc(web, n0, urls, i);
    SnocUnfolds(outs, o);
    ApplyAllAppend(v0, AllEvents(outs), o.events, wrap);
  }

  /** One turn of the loop of `fetchExternalScripts`, on `urls[i]`: the page navigates to
      it, and the body of an OK response is pushed on `bodies`; nothing is pushed when the
      navigation failed or its response is missing or not OK. `outs` are the outcomes of
      the earlier turns. */
  method FetchTurn<U>(page: Page, urls: seq<string>, i: nat, rec: AuthRecord<U>, wrap: string -> Option<U>,
                      bodies: seq<string>, ghost log0: seq<string>, ghost v0: AuthInfo<U>, ghost outs: seq<NavOutcome>)
    returns (bodies': seq<string>, ghost outs': seq<NavOutcome>)
    modifies page, rec
    requires i < |urls| && page.log == log0 + urls[..i]
    requires outs == Outcomes(page.web, |log0|, urls[..i]) && bodies == OkBodies(outs)
    requires rec.Value() == ApplyAll(v0, AllEvents(outs), wrap)
    ensures page.log == log0 + urls[..i + 1]
    ensures outs' == Outcomes(page.web, |log0|, urls[..i + 1]) && bodies' == OkBodies(outs')
    ensures rec.Value() == ApplyAll(v0, AllEvents(outs'), wrap)
    ensures |outs'| == i + 1 && page.current == outs'[i].doc
  {
    ghost var o := page.Next(urls[i]);
    FetchStep(page.web, |log0|, urls, i, outs, o, v0, wrap);
    assert log0 + urls[..i + 1] == page.log + [urls[i]] by {
      assert urls[..i + 1] == urls[..i] + [urls[i]];
    }
    var r := page.Goto(urls[i], rec, wrap);
    if r.Success? && r.value.Some? && r.value.value.ok {
      bodies' := bodies + [r.value.value.body];
    } else {
      bodies' := bodies;
    }
    outs' := outs + [o];
  }

  /** The document loaded after navigating to `urls` from the `n`-th navigation on, when
      `doc` was loaded before. */
  function LastDocument(web: Web, n: nat, urls: seq<string>, doc: Document): Document {
    if urls == [] then doc else web(n + |urls| - 1, urls[|urls| - 1]).doc
  }

  /** `fetchExternalScripts(page, scriptUrls)`: navigate the page to each script in turn and
      keep the bodies of the OK responses; a failed or non-OK navigation is skipped. Every
      navigation also delivers its requests to the interceptor on `rec`, and leaves its
      document loaded. */
  method FetchExternalScripts<U>(page: Page, urls: seq<string>, rec: AuthRecord<U>, wrap: string -> Option<U>)
    returns (bodies: seq<string>)
    modifies page, rec
    ensures page.log == old(page.log) + urls
    ensures bodies == OkBodies(Outcomes(page.web, |old(page.log)|, urls))
    ensures rec.Value() == ApplyAll(old(rec.Value()), AllEvents(Outcomes(page.web, |old(page.log)|, urls)), wrap)
    ensures page.current == LastDocument(page.web, |old(page.log)|, urls, old(page.current))
  {
    bodies := [];
    var i := 0;
    ghost var log0, cur0, v0 := page.log, page.current, rec.Value();
    ghost var n0 := |log0|;
    ghost var outs: seq<NavOutcome> := [];
    while i < |urls|
      invariant 0 <= i <= |urls|
      invariant page.log == log0 + urls[..i]
      invariant outs == Outcomes(page.web, n0, urls[..i])
      invariant bodies == OkBodies(outs)
      invariant rec.Value() == ApplyAll(v0, AllEvents(outs), wrap)
      invariant i == 0 ==> page.current == cur0
      invariant i > 0 ==> page.current == outs[i - 1].doc
    {
      bodies, outs := FetchTurn(page, urls, i, rec, wrap, bodies, log0, v0, outs);
      i := i + 1;
    }
    assert urls[..i] == urls;
    if urls != [] {
      OutcomesLast(page.web, n0, urls);
    }
  }

  // ---------------------------------------------------------------------------------------
  // extractAuthLinks.

  const AuthKeywords: seq<string> := ["login", "register", "signup", "sign-up", "sign-in", "signin", "auth"]

  /** The link as read in the page: its href and its lower-cased text (`""` for none). */
  function LinkText(a: Anchor): string {
    match a.text case Some(t) => Lower(t) case None => ""
  }

  /** Some keyword occurs in the lower-cased href or in the lower-cased text. */
  predicate IsAuthLink(a: Anchor) {
    exists k :: 0 <= k < |AuthKeywords| &&
      (Contains(Lower(a.href), AuthKeywords[k]) || Contains(LinkText(a), AuthKeywords[k]))
  }

  /** The hrefs of the links that pass the filter `keep`, in document order. */
  function FilterHrefs(anchors: seq<Anchor>, keep: Anchor -> bool): (r: seq<string>)
    ensures |r| <= |anchors|
  {
    if anchors == [] then []
    else
      var last := anchors[|anchors| - 1];
      FilterHrefs(anchors[..|anchors| - 1], keep) + (if keep(last) then [last.href] else [])
  }

  /** An href is selected exactly when some link with that href passes the filter. */
  lemma {:induction false} FilterHrefsSelect(anchors: seq<Anchor>, keep: Anchor -> bool)
    ensures forall h :: h in FilterHrefs(anchors, keep) <==>
      exists k :: 0 <= k < |anchors| && keep(anchors[k]) && anchors[k].href == h
  {
    if anchors != [] {
      var init, last := anchors[..|anchors| - 1], anchors[|anchors| - 1];
      FilterHrefsSelect(init, keep);
      forall h
        ensures h in FilterHrefs(anchors, keep) <==>
          exists k :: 0 <= k < |anchors| && keep(anchors[k]) && anchors[k].href == h
      {
        if h in FilterHrefs(init, keep) {
          var k :| 0 <= k < |init| && keep(init[k]) && init[k].href == h;
          assert anchors[k] == init[k];
        }
        if exists k :: 0 <= k < |anchors| && keep(anchors[k]) && anchors[k].href == h {
          var k :| 0 <= k < |anchors| && keep(anchors[k]) && anchors[k].href == h;
          if k < |init| {
            assert init[k] == anchors[k];
          }
        }
      }
    }
  }

  predicate NoDuplicates<T(==,!new)>(s: seq<T>) {
    forall i, j :: 0 <= i < j < |s| ==> s[i] != s[j]
  }

  /** `[...new Set(s)]`: each element once, at its first occurrence. */
  function Dedup<T(==,!new)>(s: seq<T>): (r: seq<T>)
    ensures NoDuplicates(r)
    ensures forall x :: x in r <==> x in s
    ensures |r| <= |s|
  {
    if s == [] then []
    else
      var init := s[..|s| - 1];
      var last := s[|s| - 1];
      assert s == init + [last];
      var d := Dedup(init);
      if last in d then d else d + [last]
  }

  /** The index of the first occurrence of `x` in `s`. */
  function FirstIndex<T(==,!new)>(s: seq<T>, x: T): (k: nat)
    requires x in s
    ensures k < |s| && s[k] == x && x !in s[..k]
  {
    if s[0] == x then 0 else 1 + FirstIndex(s[1..], x)
  }

  lemma {:induction false} FirstIndexInPrefix<T(!new)>(s: seq<T>, n: nat, x: T)
    requires n <= |s| && x in s[..n]
    ensures FirstIndex(s, x) == FirstIndex(s[..n], x)
  {
    if s[0] != x {
      assert s[1..][..n - 1] == s[..n][1..];
      FirstIndexInPrefix(s[1..], n - 1, x);
    }
  }

  /** The result of `Dedup` lists the elements in the order of their first occurrences. */
  lemma {:induction false} DedupFirstOccurrenceOrder<T(!new)>(s: seq<T>)
    ensures forall i, j :: 0 <= i < j < |Dedup(s)| ==>
      FirstIndex(s, Dedup(s)[i]) < FirstIndex(s, Dedup(s)[j])
  {
    if s != [] {
      var init := s[..|s| - 1];
      var last := s[|s| - 1];
      var d := Dedup(init);
      DedupFirstOccurrenceOrder(init);
      forall x | x in d ensures FirstIndex(s, x) == FirstIndex(init, x) && FirstIndex(s, x) < |s| - 1 {
        FirstIndexInPrefix(s, |s| - 1, x);
      }
      if last !in d {
        assert forall m :: 0 <= m < |init| ==> s[m] == init[m] && init[m] != last;
        assert FirstIndex(s, last) == |s| - 1;
      }
    }
  }

  /** Each element of `s` appears in `Dedup(s)` exactly once. */
  lemma DedupExactlyOnce<T(!new)>(s: seq<T>, x: T)
    requires x in s
    ensures multiset(Dedup(s))[x] == 1
  {
    NoDuplicatesCount(Dedup(s), x);
  }

  lemma {:induction false} NoDuplicatesCount<T(!new)>(s: seq<T>, x: T)
    requires NoDuplicates(s) && x in s
    ensures multiset(s)[x] == 1
  {
    var last := s[|s| - 1];
    var init := s[..|s| - 1];
    assert s == init + [last];
    if last == x {
      assert forall k :: 0 <= k < |init| ==> init[k] == s[k] && s[k] != s[|s| - 1];
      assert x !in init;
    } else {
      NoDuplicatesCount(init, x);
    }
  }

  /** `extractAuthLinks(page)`: the distinct hrefs of the links whose href or text names a
      sign-in keyword, in first-occurrence order. */
  function ExtractAuthLinks(doc: Document): (r: seq<string>)
    ensures NoDuplicates(r)
    ensures forall h :: h in r <==> exists k :: 0 <= k < |doc.anchors| && IsAuthLink(doc.anchors[k]) && doc.anchors[k].href == h
  {
    FilterHrefsSelect(doc.anchors, IsAuthLink);
    Dedup(FilterHrefs(doc.anchors, IsAuthLink))
  }
}
