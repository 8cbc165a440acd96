/** The snapshot builder of the content script: `normalizeText`, `isVisible`,
    the candidate query, `generateSelector` (as a specification; the loop that
    computes it is `Snapshot.GenerateSelector`) and what `collectSnapshot` returns
    and puts into the element map. */
module Snapshot {
  import opened Wrappers
  import opened Text
  import opened Dom
  import opened Protocol

  // ---------------------------------------------------------------- normalizeText

  /** White space occurs only as single ' ' characters. */
  predicate SingleSpaced(s: string) {
    && (forall i :: 0 <= i < |s| && IsSpace(s[i]) ==> s[i] == ' ')
    && (forall i :: 0 <= i < |s| - 1 ==> !(IsSpace(s[i]) && IsSpace(s[i + 1])))
  }

  /** The shape of a normalized text: single-spaced, and no white space at either end. */
  predicate Canonical(s: string) {
    (s == [] || (!IsSpace(s[0]) && !IsSpace(s[|s| - 1]))) && SingleSpaced(s)
  }

  /** The characters of `s` that are not white space, in order. */
  function NonSpace(s: string): string {
    if s == [] then [] else (if IsSpace(s[0]) then [] else [s[0]]) + NonSpace(s[1..])
  }

  lemma {:induction false} NonSpaceConcat(a: string, b: string)
    ensures NonSpace(a + b) == NonSpace(a) + NonSpace(b)
  {
    if a != [] {
      assert (a + b)[1..] == a[1..] + b;
      NonSpaceConcat(a[1..], b);
    } else {
      assert a + b == b;
    }
  }

  lemma {:induction false} NonSpaceOfSpaces(s: string)
    requires AllSpace(s)
    ensures NonSpace(s) == []
  {
    if s != [] {
      NonSpaceOfSpaces(s[1..]);
    }
  }

  /** `text.replace(/\s+/g, " ")`: every maximal run of white space becomes one ' '. */
  function Collapse(s: string): (r: string)
    ensures SingleSpaced(r)
    ensures s != [] ==> r != [] && r[0] == (if IsSpace(s[0]) then ' ' else s[0])
    ensures NonSpace(r) == NonSpace(s)
    decreases |s|
  {
    if s == [] then []
    else if IsSpace(s[0]) then
      var k := LeadingSpaces(s);
      var t := s[k..];
      assert k > 0;
      assert s == s[..k] + t;
      NonSpaceConcat(s[..k], t);
      NonSpaceOfSpaces(s[..k]);
      [' '] + Collapse(t)
    else
      assert s == [s[0]] + s[1..];
      [s[0]] + Collapse(s[1..])
  }

  /** A factor of a single-spaced text is single-spaced. */
  lemma SingleSpacedFactor(x: string, i: nat, j: nat)
    requires SingleSpaced(x) && i <= j <= |x|
    ensures SingleSpaced(x[i..j])
  {
    var r := x[i..j];
    assert forall k :: 0 <= k < |r| ==> r[k] == x[i + k];
  }

  /** Cutting white space off both ends keeps the characters that are not white space. */
  lemma NonSpaceBetweenSpaces(a: string, r: string, b: string)
    requires AllSpace(a) && AllSpace(b)
    ensures NonSpace(a + r + b) == NonSpace(r)
  {
    NonSpaceConcat(a + r, b);
    NonSpaceConcat(a, r);
    NonSpaceOfSpaces(a);
    NonSpaceOfSpaces(b);
  }

  lemma SingleSpacedTrim(x: string)
    requires SingleSpaced(x)
    ensures SingleSpaced(Trim(x)) && NonSpace(Trim(x)) == NonSpace(x)
  {
    var r := Trim(x);
    var i := LeadingSpaces(x);
    var a, b := x[..i], x[i + |r|..];
    SingleSpacedFactor(x, i, i + |r|);
    TrimCuts(x);
    assert x == a + r + b;
    NonSpaceBetweenSpaces(a, r, b);
  }

  /** `normalizeText`: the result has the canonical shape and keeps every
      character of the input that is not white space, in order. */
  function NormalizeText(text: string): (r: string)
    ensures Canonical(r)
    ensures NonSpace(r) == NonSpace(text)
  {
    var c := Collapse(text);
    SingleSpacedTrim(c);
    Trim(c)
  }

  lemma {:induction false} CollapseOfSingleSpaced(s: string)
    requires SingleSpaced(s)
    ensures Collapse(s) == s
    decreases |s|
  {
    if s != [] {
      var tail := s[1..];
      assert SingleSpaced(tail) by {
        assert forall i :: 0 <= i < |tail| ==> tail[i] == s[i + 1];
      }
      CollapseOfSingleSpaced(tail);
      if IsSpace(s[0]) {
        assert tail == [] || !IsSpace(tail[0]);
        assert LeadingSpaces(s) == 1;
      }
      assert s == [s[0]] + tail;
    }
  }

  /** A text is left unchanged by `normalizeText` exactly when it already has the canonical shape. */
  lemma NormalizeFixedPoint(s: string)
    ensures NormalizeText(s) == s <==> Canonical(s)
  {
    if Canonical(s) {
      CollapseOfSingleSpaced(s);
      TrimOfTrimmed(s);
    }
  }

  /** `normalizeText` is idempotent. */
  lemma NormalizeIdempotent(s: string)
    ensures NormalizeText(NormalizeText(s)) == NormalizeText(s)
  {
    NormalizeFixedPoint(NormalizeText(s));
  }

  /** A word: a non-empty text without white space. */
  predicate IsWord(w: string) {
    w != [] && forall j :: 0 <= j < |w| ==> !IsSpace(w[j])
  }

  /** The longest prefix of `s` without white space. */
  function WordPrefix(s: string): (w: string)
    ensures |w| <= |s| && w == s[..|w|]
    ensures s != [] && !IsSpace(s[0]) ==> IsWord(w)
    ensures |w| == |s| || IsSpace(s[|w|])
  {
    if s == [] || IsSpace(s[0]) then [] else [s[0]] + WordPrefix(s[1..])
  }

  /** The words of `s`: its maximal runs of characters other than white space, in order. */
  function Words(s: string): (ws: seq<string>)
    ensures forall k :: 0 <= k < |ws| ==> IsWord(ws[k])
    decreases |s|
  {
    if s == [] then []
    else if IsSpace(s[0]) then Words(s[1..])
    else
      var w := WordPrefix(s);
      var ws := Words(s[|w|..]);
      [w] + ws
  }

  /** White space in front has no words in it. */
  lemma {:induction false} WordsAfterSpaces(s: string, k: nat)
    requires k <= |s| && AllSpace(s[..k])
    ensures Words(s) == Words(s[k..])
  {
    if k > 0 {
      assert IsSpace(s[..k][0]);
      assert s[1..][..k - 1] == s[1..k];
      assert s[1..][k - 1..] == s[k..];
      WordsAfterSpaces(s[1..], k - 1);
    }
  }

  lemma ConsConcat(w: string, c: string)
    requires w != []
    ensures [w[0]] + (w[1..] + c) == w + c
  {
    assert w == [w[0]] + w[1..];
  }

  lemma CollapseHead(s: string)
    requires s != [] && !IsSpace(s[0])
    ensures Collapse(s) == [s[0]] + Collapse(s[1..])
  {
  }

  lemma WordsAfterLeadingSpaces(s: string)
    ensures Words(s) == Words(s[LeadingSpaces(s)..])
  {
    var k := LeadingSpaces(s);
    assert AllSpace(s[..k]) by {
      forall i | 0 <= i < k ensures IsSpace(s[..k][i]) {
        assert s[..k][i] == s[i];
      }
    }
    WordsAfterSpaces(s, k);
  }

  /** `Collapse` copies a word as it is, up to the white space or the end that follows it. */
  lemma {:induction false} CollapseWord(w: string, rest: string)
    requires forall j :: 0 <= j < |w| ==> !IsSpace(w[j])
    ensures Collapse(w + rest) == w + Collapse(rest)
  {
    if w == [] {
      assert w + rest == rest;
    } else {
      var x := w + rest;
      assert x[0] == w[0] && x[1..] == w[1..] + rest;
      CollapseHead(x);
      CollapseWord(w[1..], rest);
      ConsConcat(w, Collapse(rest));
    }
  }

  /** Leading white space changes neither the normalized text nor the words. */
  lemma NormalizeAfterSpaces(s: string)
    requires s != [] && IsSpace(s[0])
    requires var t := s[LeadingSpaces(s)..]; NormalizeText(t) == Join(Words(t), " ")
    ensures NormalizeText(s) == Join(Words(s), " ")
  {
    WordsAfterLeadingSpaces(s);
    TrimLeadingSpace(Collapse(s[LeadingSpaces(s)..]));
  }

  /** The text right after a leading word and the white space that follows it. */
  function AfterWord(s: string): string {
    var rest := s[|WordPrefix(s)|..];
    rest[LeadingSpaces(rest)..]
  }

  lemma {:induction false} WordPrefixOfWord(w: string, rest: string)
    requires forall j :: 0 <= j < |w| ==> !IsSpace(w[j])
    requires rest == [] || IsSpace(rest[0])
    ensures WordPrefix(w + rest) == w
  {
    if w == [] {
      assert w + rest == rest;
    } else {
      var x := w + rest;
      assert x[0] == w[0] && x[1..] == w[1..] + rest;
      WordPrefixOfWord(w[1..], rest);
      assert w == [w[0]] + w[1..];
    }
  }

  /** The words of a word followed by white space or nothing. */
  lemma WordsOfWordRest(w: string, rest: string)
    requires IsWord(w) && (rest == [] || IsSpace(rest[0]))
    ensures Words(w + rest) == [w] + Words(rest)
  {
    WordPrefixOfWord(w, rest);
    var x := w + rest;
    assert x[0] == w[0] && x[|w|..] == rest;
  }

  /** Joining a list that starts with `w` and has more words after it. */
  lemma JoinCons(w: string, ws: seq<string>)
    requires ws != []
    ensures Join([w] + ws, " ") == w + " " + Join(ws, " ")
  {
    assert ([w] + ws)[1..] == ws;
  }

  /** The last word, with at most one space after it. */
  /** A run of white space collapses to one space. */
  lemma CollapseOfSpaces(s: string)
    requires LeadingSpaces(s) == |s|
    ensures Collapse(s) == (if s == [] then [] else " ")
  {
    if s != [] {
      assert s[|s|..] == [];
    }
  }

  lemma NormalizeLastWord(w: string, rest: string)
    requires IsWord(w) && LeadingSpaces(rest) == |rest|
    ensures NormalizeText(w + rest) == w
  {
    CollapseOfSpaces(rest);
    CollapseWord(w, rest);
    TrimWord(w, Collapse(rest));
  }

  /** A word, white space, then a text that starts with another word. */
  lemma NormalizeWordBeforeMore(w: string, rest: string)
    requires IsWord(w) && rest != [] && IsSpace(rest[0])
    requires var t := rest[LeadingSpaces(rest)..]; t != [] && NormalizeText(t) == Join(Words(t), " ")
    ensures NormalizeText(w + rest) == w + " " + NormalizeText(rest[LeadingSpaces(rest)..])
  {
    var t := rest[LeadingSpaces(rest)..];
    CollapseWord(w, rest);
    assert Collapse(rest) == [' '] + Collapse(t);
    ConcatAssoc(w, [' '], Collapse(t));
    TrimConcat(w + [' '], Collapse(t));
  }

  /** A word followed by white space or nothing comes out first, then a space when
      more words follow. */
  lemma NormalizeWordThen(w: string, rest: string)
    requires IsWord(w) && (rest == [] || IsSpace(rest[0]))
    requires var t := rest[LeadingSpaces(rest)..]; NormalizeText(t) == Join(Words(t), " ")
    ensures NormalizeText(w + rest) == Join([w] + Words(rest), " ")
  {
    var t := rest[LeadingSpaces(rest)..];
    WordsAfterLeadingSpaces(rest);
    if t == [] {
      NormalizeLastWord(w, rest);
      assert [w] + Words(rest) == [w];
    } else {
      NormalizeWordBeforeMore(w, rest);
      JoinCons(w, Words(t));
    }
  }

  /** A leading word comes out first, followed by a space when more words follow. */
  lemma NormalizeAfterWord(s: string)
    requires s != [] && !IsSpace(s[0])
    requires NormalizeText(AfterWord(s)) == Join(Words(AfterWord(s)), " ")
    ensures NormalizeText(s) == Join(Words(s), " ")
  {
    var n := |WordPrefix(s)|;
    var w, rest := s[..n], s[n..];
    SplitAt(s, n);
    WordsOfWordRest(w, rest);
    NormalizeWordThen(w, rest);
  }

  /** `normalizeText` puts a single space between consecutive words, and nothing else:
      the result is the words of the input joined with " ". */
  lemma {:induction false} NormalizeWords(s: string)
    ensures NormalizeText(s) == Join(Words(s), " ")
    decreases |s|
  {
    if s == [] {
    } else if IsSpace(s[0]) {
      NormalizeWords(s[LeadingSpaces(s)..]);
      NormalizeAfterSpaces(s);
    } else {
      assert |WordPrefix(s)| > 0;
      NormalizeWords(AfterWord(s));
      NormalizeAfterWord(s);
    }
  }

  // ---------------------------------------------------------------- isVisible and the candidate query

  /** `isVisible`: a non-empty layout box, and not hidden by `visibility` or `display`. */
  predicate IsVisible(e: Element) {
    e.rect.width > 0 && e.rect.height > 0 && e.visibility != "hidden" && e.display != "none"
  }

  /** The type selectors of the candidate query; they match regardless of the tag name's case. */
  const CandidateTags: seq<string> := ["a", "button", "input", "textarea", "select"]

  /** Matched by `a, button, input, textarea, select, [role=button], [contenteditable=true]`. */
  predicate IsCandidate(e: Element) {
    Lower(e.tagName) in CandidateTags || e.role == Some("button") || e.contentEditableAttr == Some("true")
  }

  predicate Increasing(s: seq<nat>) {
    forall k, l :: 0 <= k < l < |s| ==> s[k] < s[l]
  }

  predicate InDocument(doc: Document, s: seq<nat>) {
    forall k :: 0 <= k < |s| ==> s[k] < |doc.nodes|
  }

  /** The candidates among the nodes below `n`, in document order (`CandidatesBelowMembers`). */
  function CandidatesBelow(doc: Document, n: nat): (r: seq<nat>)
    requires n <= |doc.nodes|
    ensures forall k :: 0 <= k < |r| ==> r[k] < n
  {
    if n == 0 then []
    else CandidatesBelow(doc, n - 1) + (if IsCandidate(doc.nodes[n - 1].element) then [n - 1] else [])
  }

  /** Appending a value above every element keeps a sequence increasing. */
  lemma IncreasingAppend(s: seq<nat>, x: nat)
    requires Increasing(s) && forall k :: 0 <= k < |s| ==> s[k] < x
    ensures Increasing(s + [x])
  {
    var t := s + [x];
    forall k, l | 0 <= k < l < |t|
      ensures t[k] < t[l]
    {
      assert t[k] == s[k];
    }
  }

  /** The nodes below `n` that are candidates, each once. */
  lemma {:induction false} CandidatesBelowMembers(doc: Document, n: nat)
    requires n <= |doc.nodes|
    ensures forall m: nat :: m in CandidatesBelow(doc, n) <==> m < n && IsCandidate(doc.nodes[m].element)
  {
    if n > 0 {
      CandidatesBelowMembers(doc, n - 1);
    }
  }

  /** The candidates below `n` come in document order. */
  lemma {:induction false} CandidatesBelowIncreasing(doc: Document, n: nat)
    requires n <= |doc.nodes|
    ensures Increasing(CandidatesBelow(doc, n))
  {
    if n > 0 {
      var front := CandidatesBelow(doc, n - 1);
      CandidatesBelowIncreasing(doc, n - 1);
      if IsCandidate(doc.nodes[n - 1].element) {
        IncreasingAppend(front, n - 1);
      }
    }
  }

  /** `document.querySelectorAll(…)`: the candidates, in document order (`CandidatesMembers`). */
  function Candidates(doc: Document): (r: seq<nat>)
    ensures InDocument(doc, r)
  {
    CandidatesBelow(doc, |doc.nodes|)
  }

  /** The query returns every candidate of the document, each once and in document order. */
  lemma CandidatesMembers(doc: Document)
    ensures var r := Candidates(doc);
      && Increasing(r)
      && forall m: nat :: m in r <==> m < |doc.nodes| && IsCandidate(doc.nodes[m].element)
  {
    CandidatesBelowMembers(doc, |doc.nodes|);
    CandidatesBelowIncreasing(doc, |doc.nodes|);
  }

  /** The visible members of `cs`, in their order: what survives the `isVisible` test in `forEach`. */
  function VisibleAmong(doc: Document, cs: seq<nat>): (r: seq<nat>)
    requires InDocument(doc, cs)
    ensures InDocument(doc, r)
  {
    if cs == [] then []
    else
      var last := cs[|cs| - 1];
      VisibleAmong(doc, cs[..|cs| - 1]) + (if IsVisible(doc.nodes[last].element) then [last] else [])
  }

  /** The members of `VisibleAmong(doc, cs)` are exactly those of `cs` whose element is visible. */
  lemma {:induction false} VisibleAmongMembers(doc: Document, cs: seq<nat>)
    requires InDocument(doc, cs)
    ensures forall m :: m in VisibleAmong(doc, cs) <==> m in cs && m < |doc.nodes| && IsVisible(doc.nodes[m].element)
  {
    if cs != [] {
      var n := |cs| - 1;
      VisibleAmongMembers(doc, cs[..n]);
      assert cs == cs[..n] + [cs[n]];
    }
  }

  /** `VisibleAmong(doc, cs)` keeps the increasing order of `cs`. */
  lemma {:induction false} VisibleAmongIncreasing(doc: Document, cs: seq<nat>)
    requires InDocument(doc, cs) && Increasing(cs)
    ensures Increasing(VisibleAmong(doc, cs))
  {
    if cs != [] {
      var n := |cs| - 1;
      var front := VisibleAmong(doc, cs[..n]);
      var last := cs[n];
      assert Increasing(cs[..n]);
      VisibleAmongIncreasing(doc, cs[..n]);
      if IsVisible(doc.nodes[last].element) {
        VisibleAmongMembers(doc, cs[..n]);
        forall k | 0 <= k < |front|
          ensures front[k] < last
        {
          assert front[k] in cs[..n];
          var i :| 0 <= i < n && cs[..n][i] == front[k];
          assert cs[i] == front[k];
        }
        IncreasingAppend(front, last);
      }
    }
  }

  /** Looking at one more candidate adds it when it is visible. */
  lemma VisibleAmongStep(doc: Document, cs: seq<nat>, i: nat)
    requires i < |cs| && InDocument(doc, cs)
    ensures InDocument(doc, cs[..i]) && InDocument(doc, cs[..i + 1])
    ensures VisibleAmong(doc, cs[..i + 1])
         == VisibleAmong(doc, cs[..i]) + (if IsVisible(doc.nodes[cs[i]].element) then [cs[i]] else [])
  {
    assert cs[..i + 1][..i] == cs[..i];
  }

  /** The candidates `collectSnapshot` describes: exactly the visible candidates, in document order. */
  function Included(doc: Document): (r: seq<nat>)
    ensures InDocument(doc, r) && Increasing(r)
    ensures forall m: nat :: m in r <==>
      m < |doc.nodes| && IsCandidate(doc.nodes[m].element) && IsVisible(doc.nodes[m].element)
  {
    var cs := Candidates(doc);
    CandidatesMembers(doc);
    VisibleAmongMembers(doc, cs);
    VisibleAmongIncreasing(doc, cs);
    VisibleAmong(doc, cs)
  }

  // ---------------------------------------------------------------- generateSelector

  /** One step of the selector path: a lower-case tag, up to two escaped classes and
      an optional 1-based `:nth-of-type`. */
  datatype SelectorPart = SelectorPart(tag: string, classes: seq<string>, nthOfType: Option<nat>)

  function Min(a: nat, b: nat): nat {
    if a < b then a else b
  }

  /** The part `generateSelector` builds for node `j`. */
  function PartOf(doc: Document, j: nat, escape: string -> string): (p: SelectorPart)
    requires j < |doc.nodes|
    ensures var e := doc.nodes[j].element;
      && p.tag == Lower(e.tagName)
      && |p.classes| == Min(2, |e.classList|)
      && (forall k :: 0 <= k < |p.classes| ==> p.classes[k] == escape(e.classList[k]))
    ensures p.nthOfType.Some? <==> doc.nodes[j].parent.Some? && |SameTagSiblings(doc, j)| > 1
    ensures p.nthOfType.Some? ==>
      var sibs := SameTagSiblings(doc, j);
      var k := p.nthOfType.value;
      1 <= k <= |sibs| && sibs[k - 1] == j && forall l :: 0 <= l < k - 1 ==> sibs[l] != j
  {
    var e := doc.nodes[j].element;
    var n := Min(2, |e.classList|);
    var nth :=
      if doc.nodes[j].parent.None? then None
      else
        var sibs := SameTagSiblings(doc, j);
        if |sibs| > 1 then Some(IndexOf(sibs, j) + 1) else None;
    SelectorPart(Lower(e.tagName), EscapeAll(e.classList[..n], escape), nth)
  }

  /** `CSS.escape` applied to each class name. */
  function EscapeAll(xs: seq<string>, escape: string -> string): (r: seq<string>)
    ensures |r| == |xs| && forall k :: 0 <= k < |xs| ==> r[k] == escape(xs[k])
  {
    if xs == [] then [] else [escape(xs[0])] + EscapeAll(xs[1..], escape)
  }

  function RenderPart(p: SelectorPart): string {
    p.tag
    + (if p.classes == [] then "" else "." + Join(p.classes, "."))
    + (match p.nthOfType
       case Some(k) => ":nth-of-type(" + NatToString(k) + ")"
       case None => "")
  }

  /** Each node of `walk` after the first is the parent of the one before it. */
  ghost predicate ParentChain(doc: Document, walk: seq<nat>)
    requires InDocument(doc, walk)
  {
    forall k, l :: 0 <= k < |walk| && 0 <= l < |walk| && l == k + 1 ==> doc.nodes[walk[k]].parent == Some(walk[l])
  }

  /** The nodes the `current = current.parentElement` walk visits from `cur` while fewer
      than `limit` parts have been built: `cur` and its ancestors, nearest first, up to
      `limit` of them, stopping early only at the root. */
  function Ancestors(doc: Document, cur: Option<nat>, limit: nat): (r: seq<nat>)
    requires cur.Some? ==> cur.value < |doc.nodes|
    ensures |r| <= limit && InDocument(doc, r)
    decreases limit
  {
    if cur.None? || limit == 0 then []
    else [cur.value] + Ancestors(doc, ParentOf(doc, cur.value), limit - 1)
  }

  /** The walk starts at `cur`, climbs one parent at a time and stops early only at the root. */
  lemma {:induction false} AncestorsShape(doc: Document, cur: Option<nat>, limit: nat)
    requires cur.Some? ==> cur.value < |doc.nodes|
    ensures var r := Ancestors(doc, cur, limit);
      && (cur.Some? && limit > 0 ==> |r| >= 1 && r[0] == cur.value)
      && (cur.None? ==> r == [])
      && ParentChain(doc, r)
      && (r != [] && |r| < limit ==> doc.nodes[r[|r| - 1]].parent.None?)
    decreases limit
  {
    if cur.Some? && limit > 0 {
      var up := ParentOf(doc, cur.value);
      AncestorsShape(doc, up, limit - 1);
      var rest := Ancestors(doc, up, limit - 1);
      var r := Ancestors(doc, cur, limit);
      assert r == [cur.value] + rest;
      if rest != [] {
        AncestorsShape(doc, up, limit - 1);
        assert up == Some(rest[0]);
      }
      forall k, l | 0 <= k < |r| && 0 <= l < |r| && l == k + 1
        ensures doc.nodes[r[k]].parent == Some(r[l])
      {
        if k > 0 {
          assert r[k] == rest[k - 1] && r[l] == rest[l - 1];
        }
      }
    }
  }

  /** The rendered parts for a walk, outermost first (the `unshift` order). */
  function RenderedTopDown(doc: Document, walk: seq<nat>, escape: string -> string): (r: seq<string>)
    requires InDocument(doc, walk)
    ensures |r| == |walk|
    decreases |walk|, 1
  {
    if walk == [] then [] else RenderedAbove(doc, walk, escape)
  }

  /** For a non-empty walk: the parts of the nodes above its first node, then that node's own part. */
  function RenderedAbove(doc: Document, walk: seq<nat>, escape: string -> string): (r: seq<string>)
    requires InDocument(doc, walk) && walk != []
    ensures |r| == |walk|
    decreases |walk|, 0
  {
    RenderedTopDown(doc, walk[1..], escape) + [RenderPart(PartOf(doc, walk[0], escape))]
  }

  /** `generateSelector(el)`: `#` and the escaped id when the element has an id,
      otherwise the parts of the element and at most three of its ancestors, outermost
      first, joined by " > ". */
  function Selector(doc: Document, i: nat, escape: string -> string): string
    requires i < |doc.nodes|
  {
    var e := doc.nodes[i].element;
    if e.id != "" then "#" + escape(e.id)
    else Join(RenderedTopDown(doc, Ancestors(doc, Some(i), 4), escape), " > ")
  }

  /** The shape of a selector: with an id, the id selector; otherwise between one and
      four parts, the last describing the element itself and each earlier one the
      parent of the next, the first being the root when fewer than four. */
  lemma SelectorShape(doc: Document, i: nat, escape: string -> string)
    requires i < |doc.nodes|
    ensures doc.nodes[i].element.id != "" ==> Selector(doc, i, escape) == "#" + escape(doc.nodes[i].element.id)
    ensures doc.nodes[i].element.id == "" ==>
      exists walk: seq<nat> ::
        && 1 <= |walk| <= 4 && InDocument(doc, walk) && walk[0] == i
        && ParentChain(doc, walk)
        && (|walk| < 4 ==> doc.nodes[walk[|walk| - 1]].parent.None?)
        && Selector(doc, i, escape) == Join(RenderedTopDown(doc, walk, escape), " > ")
  {
    if doc.nodes[i].element.id == "" {
      var walk := Ancestors(doc, Some(i), 4);
      AncestorsShape(doc, Some(i), 4);
      assert Selector(doc, i, escape) == Join(RenderedTopDown(doc, walk, escape), " > ");
    }
  }

  /** Visiting one more node puts its part in front of the parts built so far. */
  lemma {:induction false} RenderedAppend(doc: Document, walk: seq<nat>, j: nat, escape: string -> string)
    requires InDocument(doc, walk) && j < |doc.nodes|
    ensures RenderedTopDown(doc, walk + [j], escape) == [RenderPart(PartOf(doc, j, escape))] + RenderedTopDown(doc, walk, escape)
  {
    var r := RenderedAbove(doc, walk + [j], escape);
    if walk != [] {
      var q := RenderedAbove(doc, walk, escape);
      assert (walk + [j])[1..] == walk[1..] + [j];
      RenderedAppend(doc, walk[1..], j, escape);
    } else {
      assert (walk + [j])[1..] == [];
    }
  }

  /** The walk from `j` starts with `j` and continues with the walk from its parent. */
  lemma AncestorsStep(doc: Document, visited: seq<nat>, j: nat, left: nat, whole: seq<nat>)
    requires j < |doc.nodes| && left > 0
    requires visited + Ancestors(doc, Some(j), left) == whole
    ensures (visited + [j]) + Ancestors(doc, ParentOf(doc, j), left - 1) == whole
  {
    assert Ancestors(doc, Some(j), left) == [j] + Ancestors(doc, ParentOf(doc, j), left - 1);
  }

  /** The loop of `generateSelector`: parts are prepended while walking up from the
      element, until the walk passes the root or `limit` parts have been built. */
  method WalkParts(doc: Document, i: nat, limit: nat, escape: string -> string) returns (parts: seq<string>)
    requires i < |doc.nodes|
    ensures parts == RenderedTopDown(doc, Ancestors(doc, Some(i), limit), escape)
  {
    ghost var whole := Ancestors(doc, Some(i), limit);
    ghost var visited: seq<nat> := [];
    parts := [];
    var current: Option<nat> := Some(i);
    var left := limit;
    while current.Some? && left > 0
      invariant current.Some? ==> current.value < |doc.nodes|
      invariant InDocument(doc, visited)
      invariant visited + Ancestors(doc, current, left) == whole
      invariant parts == RenderedTopDown(doc, visited, escape)
    {
      var j := current.value;
      var part := RenderPart(PartOf(doc, j, escape));
      var up := ParentOf(doc, j);
      AncestorsStep(doc, visited, j, left, whole);
      RenderedAppend(doc, visited, j, escape);
      parts := [part] + parts;
      visited := visited + [j];
      current := up;
      left := left - 1;
    }
    assert Ancestors(doc, current, left) == [];
    assert visited == whole;
  }

  /** `generateSelector`. */
  method GenerateSelector(doc: Document, i: nat, escape: string -> string) returns (selector: string)
    requires i < |doc.nodes|
    ensures selector == Selector(doc, i, escape)
  {
    var e := doc.nodes[i].element;
    if e.id != "" {
      return "#" + escape(e.id);
    }
    var parts := WalkParts(doc, i, 4, escape);
    selector := Join(parts, " > ");
  }

  // ---------------------------------------------------------------- collectSnapshot

  /** The id given to the `k`-th included element: `el_${k}`. */
  function ElementId(k: nat): string {
    "el_" + NatToString(k)
  }

  lemma ElementIdInjective(k: nat, l: nat)
    requires ElementId(k) == ElementId(l)
    ensures k == l
  {
    assert NatToString(k) == ElementId(k)[3..];
    assert NatToString(l) == ElementId(l)[3..];
    NatToStringInjective(k, l);
  }

  lemma ElementIdFresh(n: nat)
    ensures forall k :: 0 <= k < n ==> ElementId(k) != ElementId(n)
  {
    forall k | 0 <= k < n
      ensures ElementId(k) != ElementId(n)
    {
      if ElementId(k) == ElementId(n) {
        ElementIdInjective(k, n);
      }
    }
  }

  /** The descriptor's text: `normalizeText(el.innerText || el.textContent || "")`. */
  function ElementText(e: Element): string {
    NormalizeText(if e.innerText != "" then e.innerText else e.textContent)
  }

  /** The descriptor of node `j` when it is the `k`-th included element. */
  function Describe(doc: Document, j: nat, k: nat, escape: string -> string): (d: Descriptor)
    requires j < |doc.nodes|
  {
    var e := doc.nodes[j].element;
    Descriptor(ElementId(k), Lower(e.tagName), e.role, ElementText(e), e.placeholder, e.name,
      e.typeAttr, e.ariaLabel, Selector(doc, j, escape), e.rect, true, !e.disabled)
  }

  /** `xs.forEach((x, k) => …)` collecting `f(x, k)`: element `k` is `f(xs[k], k)`. */
  function Numbered<T>(f: (nat, nat) --> T, xs: seq<nat>): (r: seq<T>)
    requires forall k :: 0 <= k < |xs| ==> f.requires(xs[k], k)
    ensures |r| == |xs|
    decreases |xs|, 1
  {
    if xs == [] then [] else NumberedUpTo(f, xs)
  }

  /** For a non-empty `xs`: the numbered front of `xs`, then `f` of its last element. */
  function NumberedUpTo<T>(f: (nat, nat) --> T, xs: seq<nat>): (r: seq<T>)
    requires forall k :: 0 <= k < |xs| ==> f.requires(xs[k], k)
    requires xs != []
    ensures |r| == |xs|
    decreases |xs|, 0
  {
    var n := |xs| - 1;
    assert forall k :: 0 <= k < n ==> xs[..n][k] == xs[k];
    Numbered(f, xs[..n]) + [f(xs[n], n)]
  }

  lemma {:induction false} NumberedAt<T>(f: (nat, nat) --> T, xs: seq<nat>, k: nat)
    requires forall k :: 0 <= k < |xs| ==> f.requires(xs[k], k)
    requires k < |xs|
    ensures Numbered(f, xs)[k] == f(xs[k], k)
  {
    var n := |xs| - 1;
    var r := NumberedUpTo(f, xs);
    if k < n {
      assert forall i :: 0 <= i < n ==> xs[..n][i] == xs[i];
      NumberedAt(f, xs[..n], k);
    }
  }

  lemma NumberedAppend<T>(f: (nat, nat) --> T, xs: seq<nat>, x: nat)
    requires forall k :: 0 <= k < |xs| ==> f.requires(xs[k], k)
    requires f.requires(x, |xs|)
    ensures forall k :: 0 <= k < |xs + [x]| ==> f.requires((xs + [x])[k], k)
    ensures Numbered(f, xs + [x]) == Numbered(f, xs) + [f(x, |xs|)]
  {
    assert (xs + [x])[..|xs|] == xs;
    var r := NumberedUpTo(f, xs + [x]);
  }

  /** The descriptors of the nodes `inc`, numbered in order (`DescribeAllAt`). */
  function DescribeAll(doc: Document, inc: seq<nat>, escape: string -> string): (r: seq<Descriptor>)
    requires InDocument(doc, inc)
    ensures |r| == |inc|
  {
    Numbered((node: nat, index: nat) requires node < |doc.nodes| => Describe(doc, node, index, escape), inc)
  }

  /** The `k`-th descriptor describes the `k`-th node of `inc`. */
  lemma DescribeAllAt(doc: Document, inc: seq<nat>, escape: string -> string, k: nat)
    requires InDocument(doc, inc) && k < |inc|
    ensures DescribeAll(doc, inc, escape)[k] == Describe(doc, inc[k], k, escape)
  {
    NumberedAt((node: nat, index: nat) requires node < |doc.nodes| => Describe(doc, node, index, escape), inc, k);
  }

  /** Describing one more included node appends its descriptor. */
  lemma DescribeAllAppend(doc: Document, inc: seq<nat>, j: nat, escape: string -> string)
    requires InDocument(doc, inc) && j < |doc.nodes|
    ensures InDocument(doc, inc + [j])
    ensures DescribeAll(doc, inc + [j], escape) == DescribeAll(doc, inc, escape) + [Describe(doc, j, |inc|, escape)]
  {
    NumberedAppend((node: nat, index: nat) requires node < |doc.nodes| => Describe(doc, node, index, escape), inc, j);
  }

  /** The element map after `collectSnapshot` for the included nodes `inc`: the `k`-th
      bound to `el_${k}`. */
  function IdMap(inc: seq<nat>): map<string, nat> {
    if inc == [] then map[] else IdMap(inc[..|inc| - 1])[ElementId(|inc| - 1) := inc[|inc| - 1]]
  }

  /** Numbering one more node binds the next id to it. */
  lemma IdMapAppend(inc: seq<nat>, j: nat)
    ensures IdMap(inc + [j]) == IdMap(inc)[ElementId(|inc|) := j]
  {
    assert (inc + [j])[..|inc|] == inc;
  }

  /** The map holds no id other than `el_0 … el_{n-1}`. */
  lemma {:induction false} IdMapKeys(inc: seq<nat>)
    ensures forall x :: x in IdMap(inc) ==> exists k :: 0 <= k < |inc| && x == ElementId(k)
  {
    if inc != [] {
      var n := |inc| - 1;
      IdMapKeys(inc[..n]);
      forall x | x in IdMap(inc)
        ensures exists k :: 0 <= k < |inc| && x == ElementId(k)
      {
        if x != ElementId(n) {
          assert x in IdMap(inc[..n]) && |inc[..n]| == n;
          var k :| 0 <= k < n && x == ElementId(k);
          assert 0 <= k < |inc|;
        }
      }
    }
  }

  /** `el_${k}` is bound to the `k`-th included node. */
  lemma {:induction false} IdMapValues(inc: seq<nat>)
    ensures forall k :: 0 <= k < |inc| ==> ElementId(k) in IdMap(inc) && IdMap(inc)[ElementId(k)] == inc[k]
  {
    if inc != [] {
      var n := |inc| - 1;
      IdMapValues(inc[..n]);
      ElementIdFresh(n);
      assert forall k :: 0 <= k < n ==> inc[..n][k] == inc[k];
    }
  }

  /** `s.slice(0, n)`. */
  function Take(s: string, n: nat): (r: string)
    ensures |r| == Min(n, |s|) && r == s[..|r|]
  {
    if |s| <= n then s else s[..n]
  }

  const VisibleTextLimit: nat := 4000

  /** What `collectSnapshot` returns for a page. */
  function SnapshotOf(page: Page, escape: string -> string): PageSnapshot {
    var doc := page.document;
    PageSnapshot(page.url, page.title, Take(NormalizeText(page.bodyText), VisibleTextLimit),
      DescribeAll(doc, Included(doc), escape))
  }

  /** The snapshot's ids are `el_0, el_1, …` in order, and no two are equal. */
  lemma SnapshotIdsUnique(page: Page, escape: string -> string)
    ensures var els := SnapshotOf(page, escape).elements;
      && (forall k :: 0 <= k < |els| ==> els[k].id == ElementId(k))
      && (forall k, l :: 0 <= k < |els| && 0 <= l < |els| && els[k].id == els[l].id ==> k == l)
  {
    var els := SnapshotOf(page, escape).elements;
    DescribedIds(page.document, Included(page.document), escape);
    forall k, l | 0 <= k < |els| && 0 <= l < |els| && els[k].id == els[l].id
      ensures k == l
    {
      ElementIdInjective(k, l);
    }
  }

  /** Every descriptor comes from a visible candidate, says it is visible and is enabled
      exactly when its element is not disabled; and every visible candidate has one. */
  lemma SnapshotDescribesVisibleCandidates(page: Page, escape: string -> string)
    ensures var doc := page.document; var inc := Included(doc); var els := SnapshotOf(page, escape).elements;
      && |els| == |inc|
      && (forall k :: 0 <= k < |els| ==>
            && IsCandidate(doc.nodes[inc[k]].element) && IsVisible(doc.nodes[inc[k]].element)
            && els[k].isVisible && els[k].isEnabled == !doc.nodes[inc[k]].element.disabled
            && els[k].tag == Lower(doc.nodes[inc[k]].element.tagName))
      && (forall m :: 0 <= m < |doc.nodes| && IsCandidate(doc.nodes[m].element) && IsVisible(doc.nodes[m].element)
            ==> m in inc)
  {
    var doc := page.document;
    var inc := Included(doc);
    var els := SnapshotOf(page, escape).elements;
    forall k | 0 <= k < |els|
      ensures els[k] == Describe(doc, inc[k], k, escape)
    {
      DescribeAllAt(doc, inc, escape, k);
    }
    assert forall k :: 0 <= k < |inc| ==> inc[k] in inc;
  }

  /** The ids of the descriptors of `inc` are `el_0, el_1, …`. */
  lemma DescribedIds(doc: Document, inc: seq<nat>, escape: string -> string)
    requires InDocument(doc, inc)
    ensures var els := DescribeAll(doc, inc, escape);
      forall k :: 0 <= k < |els| ==> els[k].id == ElementId(k)
  {
    var els := DescribeAll(doc, inc, escape);
    forall k | 0 <= k < |els|
      ensures els[k].id == ElementId(k)
    {
      DescribeAllAt(doc, inc, escape, k);
    }
  }

  /** A map built by `IdMap` next to descriptors numbered `el_0, el_1, …` holds exactly
      their ids, each bound to the matching node. */
  lemma IdMapCoversIds(inc: seq<nat>, els: seq<Descriptor>)
    requires |els| == |inc| && forall k :: 0 <= k < |els| ==> els[k].id == ElementId(k)
    ensures var m := IdMap(inc);
      && (forall k :: 0 <= k < |els| ==> els[k].id in m && m[els[k].id] == inc[k])
      && (forall x :: x in m ==> exists k :: 0 <= k < |els| && els[k].id == x)
  {
    var m := IdMap(inc);
    IdMapKeys(inc);
    IdMapValues(inc);
    forall x | x in m
      ensures exists k :: 0 <= k < |els| && els[k].id == x
    {
      var k :| 0 <= k < |inc| && x == ElementId(k);
      assert els[k].id == x;
    }
  }

  /** The element map built beside the snapshot holds exactly the snapshot's ids (no
      stale entries), each bound to the node the descriptor was made from. */
  lemma SnapshotMatchesMap(page: Page, escape: string -> string)
    ensures var inc := Included(page.document); var els := SnapshotOf(page, escape).elements;
      var m := IdMap(inc);
      && (forall k :: 0 <= k < |els| ==> els[k].id in m && m[els[k].id] == inc[k])
      && (forall x :: x in m ==> exists k :: 0 <= k < |els| && els[k].id == x)
  {
    var doc := page.document;
    var inc := Included(doc);
    DescribedIds(doc, inc, escape);
    IdMapCoversIds(inc, DescribeAll(doc, inc, escape));
  }

  /** `visibleText` is the start of the normalized body text, at most 4000 characters,
      and the whole of it when it is shorter. */
  lemma SnapshotVisibleText(page: Page, escape: string -> string)
    ensures var t := SnapshotOf(page, escape).visibleText; var body := NormalizeText(page.bodyText);
      && |t| <= 4000 && t == body[..|t|]
      && (|body| <= 4000 ==> t == body)
      && (|body| > 4000 ==> |t| == 4000)
  {
  }
}
