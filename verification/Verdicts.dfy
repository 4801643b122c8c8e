/** What the identity gate decides, said on the claim, the stored anchors and the earlier sightings alone. */
module Verdicts {
  import opened Evidence
  import opened Identity
  import W = Window

  // ---- White space aside ----

  predicate IsWord(w: string) {
    w != [] && forall i :: 0 <= i < |w| ==> !W.Space(w[i])
  }

  predicate AllWords(words: seq<string>) {
    forall i :: 0 <= i < |words| ==> IsWord(words[i])
  }

  lemma TokensAreWords(text: string)
    ensures AllWords(W.Tokens(text))
  {
    var from, to := W.TokensAre(text);
    var tokens := W.Tokens(text);
    forall n | 0 <= n < |tokens| ensures IsWord(tokens[n]) {
      forall i | 0 <= i < |tokens[n]| ensures !W.Space(tokens[n][i]) {
        assert from[n] <= from[n] + i < to[n];
        assert W.Within(from, to, from[n] + i);
      }
    }
  }

  lemma {:induction false} TokensWord(text: string, w: string)
    requires IsWord(w) && (text == [] || W.Space(text[|text| - 1]))
    ensures W.Tokens(text + w) == W.Tokens(text) + [w]
    decreases |w|
  {
    var n := |w| - 1;
    assert (text + w)[..|text + w| - 1] == text + w[..n];
    if n == 0 {
      assert text + w[..0] == text && w == [w[0]];
    } else {
      TokensWord(text, w[..n]);
      assert w == w[..n] + [w[n]];
      var before := W.Tokens(text + w[..n]);
      assert before[|before| - 1 := before[|before| - 1] + [w[n]]] == W.Tokens(text) + [w];
    }
  }

  lemma TokensSpace(text: string)
    ensures W.Tokens(text + " ") == W.Tokens(text)
  {
    assert (text + " ")[..|text|] == text;
  }

  lemma JoinLast(words: seq<string>)
    requires |words| > 1
    ensures Join(words) == (Join(words[..|words| - 1]) + " ") + words[|words| - 1]
  {}

  lemma {:induction false} TokensJoin(words: seq<string>)
    requires AllWords(words)
    ensures W.Tokens(Join(words)) == words
    decreases |words|
  {
    if words != [] {
      TokensJoin(words[..|words| - 1]);
      LastWord(words, words[..|words| - 1]);
    }
  }

  lemma LastWord(words: seq<string>, front: seq<string>)
    requires AllWords(words) && words != [] && front == words[..|words| - 1] && W.Tokens(Join(front)) == front
    ensures W.Tokens(Join(words)) == words
  {
    var w := words[|words| - 1];
    assert words == front + [w];
    if |words| == 1 {
      TokensWord([], w);
      assert [] + w == w;
    } else {
      TokensSpace(Join(front));
      TokensWord(Join(front) + " ", w);
      JoinLast(words);
    }
  }

  /** Normalizing changes no word and is done once and for all. */
  lemma NormalizeKeepsWords(text: string)
    ensures W.Tokens(Normalize(text)) == W.Tokens(text) && Normalize(Normalize(text)) == Normalize(text)
  {
    TokensAreWords(text);
    TokensJoin(W.Tokens(text));
  }

  // ---- Where a quote is found ----

  /** The source has the quote, white space aside. */
  ghost predicate HasQuote(frame: Frame, i: int, quote: string) {
    && 0 <= i < |frame.sources|
    && var text, part := Normalize(frame.sources[i]), Normalize(quote);
       exists k: nat :: Part(text, part, k)
  }

  predicate Part(text: string, part: string, k: nat) {
    k + |part| <= |text| && text[k..k + |part|] == part
  }

  /** The quote is where the index says, or else in the one source that has it. */
  ghost predicate Points(frame: Frame, index: nat, quote: string, at: nat) {
    && HasQuote(frame, at, quote)
    && (at == index || (!HasQuote(frame, index, quote) && forall j :: HasQuote(frame, j, quote) ==> j == at))
  }

  ghost predicate AnchorPlaced(frame: Frame, a: Current, b: Current) {
    b == a.(source := b.source) && Points(frame, a.source, a.quote, b.source)
  }

  ghost predicate AnchorsPlaced(frame: Frame, a: seq<Current>, b: seq<Current>) {
    |a| == |b| && forall i :: 0 <= i < |a| ==> AnchorPlaced(frame, a[i], b[i])
  }

  ghost predicate CitationPlaced(frame: Frame, a: Citation, b: Citation) {
    b == a.(source := b.source) && Points(frame, a.source, a.quote, b.source)
  }

  ghost predicate CitationsPlaced(frame: Frame, a: seq<Citation>, b: seq<Citation>) {
    |a| == |b| && forall i :: 0 <= i < |a| ==> CitationPlaced(frame, a[i], b[i])
  }

  /** The same claim, with every quote placed in the source it is from. */
  ghost predicate Placed(frame: Frame, a: Claim, b: Claim) {
    && b == a.(source := b.source, anchors := b.anchors, match_ := b.match_)
    && Points(frame, a.source, a.quote, b.source)
    && AnchorsPlaced(frame, a.anchors, b.anchors)
    && (a.match_.None? <==> b.match_.None?)
    && (a.match_.Some? ==>
          && b.match_.value == a.match_.value.(citations := b.match_.value.citations)
          && CitationsPlaced(frame, a.match_.value.citations, b.match_.value.citations))
  }

  lemma QuotesMeans(frame: Frame, i: int, quote: string)
    ensures Quotes(frame.sources, i, quote) <==> HasQuote(frame, i, quote)
  {
    if 0 <= i < |frame.sources| {
      var text, part := Normalize(frame.sources[i]), Normalize(quote);
      if Includes(text, part) {
        var k :| 0 <= k <= |text| - |part| && IsAt(text, part, k);
        assert Part(text, part, k);
      }
      if k: nat :| Part(text, part, k) { assert IsAt(text, part, k); }
    }
  }

  lemma {:induction false} OnlyQuoteMeans(frame: Frame, quote: string, n: nat)
    requires n <= |frame.sources|
    ensures OnlyQuote(frame.sources, quote, n).Missing? <==> forall j :: 0 <= j < n ==> !HasQuote(frame, j, quote)
    ensures forall at: nat :: OnlyQuote(frame.sources, quote, n) == At(at) <==>
              at < n && HasQuote(frame, at, quote) && forall j :: 0 <= j < n && HasQuote(frame, j, quote) ==> j == at
  {
    if n > 0 {
      OnlyQuoteMeans(frame, quote, n - 1);
      QuotesMeans(frame, n - 1, quote);
    }
  }

  lemma PointsMeans(frame: Frame, index: nat, quote: string, at: nat)
    ensures ResolveQuote(frame, index, quote) == Right(at) <==> Points(frame, index, quote, at)
  {
    QuotesMeans(frame, index, quote);
    OnlyQuoteMeans(frame, quote, |frame.sources|);
  }

  lemma {:induction false} AnchorsMean(frame: Frame, a: seq<Current>, b: seq<Current>)
    ensures ResolveAnchors(frame, a) == Right(b) <==> AnchorsPlaced(frame, a, b)
    decreases |a|
  {
    if a != [] && b != [] {
      var m, n := |a| - 1, |b| - 1;
      AnchorsMean(frame, a[..m], b[..n]);
      PointsMeans(frame, a[m].source, a[m].quote, b[n].source);
      assert b == b[..n] + [b[n]];
      if AnchorsPlaced(frame, a, b) { assert AnchorPlaced(frame, a[m], b[n]); }
      if AnchorsPlaced(frame, a[..m], b[..n]) && AnchorPlaced(frame, a[m], b[n]) {
        forall i | 0 <= i < |a| ensures AnchorPlaced(frame, a[i], b[i]) {
          if i < m { assert AnchorPlaced(frame, a[..m][i], b[..n][i]); }
        }
      }
    }
  }

  lemma {:induction false} CitationsMean(frame: Frame, a: seq<Citation>, b: seq<Citation>)
    ensures ResolveCitations(frame, a) == Right(b) <==> CitationsPlaced(frame, a, b)
    decreases |a|
  {
    if a != [] && b != [] {
      var m, n := |a| - 1, |b| - 1;
      CitationsMean(frame, a[..m], b[..n]);
      PointsMeans(frame, a[m].source, a[m].quote, b[n].source);
      assert b == b[..n] + [b[n]];
      if CitationsPlaced(frame, a, b) { assert CitationPlaced(frame, a[m], b[n]); }
      if CitationsPlaced(frame, a[..m], b[..n]) && CitationPlaced(frame, a[m], b[n]) {
        forall i | 0 <= i < |a| ensures CitationPlaced(frame, a[i], b[i]) {
          if i < m { assert CitationPlaced(frame, a[..m][i], b[..n][i]); }
        }
      }
    }
  }

  /** A claim resolves to the one claim that has every quote in its place, and not at all if there is none. */
  lemma ResolvesExactly(frame: Frame, a: Claim, b: Claim)
    ensures ResolveClaim(frame, a) == Right(b) <==> Placed(frame, a, b)
  {
    PointsMeans(frame, a.source, a.quote, b.source);
    AnchorsMean(frame, a.anchors, b.anchors);
    if a.match_.Some? && b.match_.Some? {
      CitationsMean(frame, a.match_.value.citations, b.match_.value.citations);
    }
  }

  // ---- What a citation refers to ----

  /** A claim on a candidate, every quote placed, with all there is to judge it by. */
  datatype Case = Case(frame: Frame, candidate: string, anchors: seq<Anchor>, sightings: seq<Sighting>, claim: Claim)

  predicate NamesAnchor(r: Reference, a: Anchor) {
    match r
    case ById(id) => a.id == id
    case Triple(packet, ref, index) => a.packet == packet && a.ref == ref && a.index == index
  }

  /** The one active anchor the reference names. */
  ghost predicate OneActive(c: Case, r: Reference, a: Anchor) {
    && a in c.anchors && a.active && NamesAnchor(r, a)
    && forall b :: b in c.anchors && b.active && NamesAnchor(r, b) ==> b == a
  }

  /** The reference names exactly one active anchor, which is the candidate's and from an earlier frame. */
  ghost predicate Owned(c: Case, r: Reference, a: Anchor) {
    && OneActive(c, r, a)
    && a.entity == c.candidate && a.packet != c.frame.id && a.observedAt < c.frame.capturedAt
  }

  predicate SightingAt(c: Case, r: Reference, i: int) {
    0 <= i < |c.sightings| && r.Triple? && c.sightings[i].frame.id == r.packet && c.sightings[i].ref == r.ref
  }

  /** An earlier sighting that may be the candidate, whose quotes are where it says, described the anchor cited. */
  ghost predicate SoundSighting(c: Case, s: Sighting, r: Reference) {
    && r.Triple? && s.claim.ref == r.ref && r.index < |s.claim.anchors| && c.candidate in s.candidates
    && s.frame.id != c.frame.id && s.frame.capturedAt < c.frame.capturedAt
    && HasQuote(s.frame, s.claim.source, s.claim.quote)
    && HasQuote(s.frame, s.claim.anchors[r.index].source, s.claim.anchors[r.index].quote)
  }

  /** The reference names no stored anchor but exactly one earlier sighting, which was never settled. */
  ghost predicate Open(c: Case, r: Reference) {
    && (forall a :: a in c.anchors ==> !NamesAnchor(r, a))
    && exists i ::
         SightingAt(c, r, i) && SoundSighting(c, c.sightings[i], r) && forall j :: SightingAt(c, r, j) ==> j == i
  }

  lemma {:induction false} FilterNone<T>(s: seq<T>, p: T -> bool)
    ensures Filter(s, p) == [] <==> forall i :: 0 <= i < |s| ==> !p(s[i])
  {
    if s != [] {
      FilterNone(s[..|s| - 1], p);
      assert forall i :: 0 <= i < |s| - 1 ==> s[..|s| - 1][i] == s[i];
    }
  }

  predicate OnlyAt<T>(s: seq<T>, p: T -> bool, i: int) {
    0 <= i < |s| && p(s[i]) && forall j :: 0 <= j < |s| && p(s[j]) ==> j == i
  }

  lemma {:induction false} FilterOnly<T>(s: seq<T>, p: T -> bool, i: nat)
    requires OnlyAt(s, p, i)
    ensures Filter(s, p) == [s[i]]
  {
    var n := |s| - 1;
    assert forall j :: 0 <= j < n ==> s[..n][j] == s[j];
    if i < n { FilterOnly(s[..n], p, i); } else { FilterNone(s[..n], p); }
  }

  lemma {:induction false} FilterIndex<T>(s: seq<T>, p: T -> bool) returns (i: nat)
    requires |Filter(s, p)| == 1
    ensures OnlyAt(s, p, i) && Filter(s, p) == [s[i]]
  {
    var n := |s| - 1;
    assert forall j :: 0 <= j < n ==> s[..n][j] == s[j];
    if p(s[n]) {
      FilterNone(s[..n], p);
      i := n;
    } else {
      i := FilterIndex(s[..n], p);
    }
  }

  lemma ReferredMeans(c: Case, r: Reference)
    ensures |Identity.Referred(c.anchors, r)| == 0 <==> forall a :: a in c.anchors ==> !NamesAnchor(r, a)
  {
    FilterNone(c.anchors, (a: Anchor) => Refers(r, a));
    var none := |Identity.Referred(c.anchors, r)| == 0;
    assert none <==> forall i :: 0 <= i < |c.anchors| ==> !NamesAnchor(r, c.anchors[i]);
    if none {
      forall a | a in c.anchors ensures !NamesAnchor(r, a) {
        var i :| 0 <= i < |c.anchors| && c.anchors[i] == a;
      }
    } else {
      var i :| 0 <= i < |c.anchors| && NamesAnchor(r, c.anchors[i]);
      assert c.anchors[i] in c.anchors;
    }
  }

  lemma ActiveMeans(c: Case, r: Reference, a: Anchor)
    requires UniqueIds(c.anchors)
    ensures ReferredActive(c.anchors, r) == [a] <==> OneActive(c, r, a)
  {
    var p := (x: Anchor) => Refers(r, x) && x.active;
    if Filter(c.anchors, p) == [a] {
      var i := FilterIndex(c.anchors, p);
      forall b | b in c.anchors && b.active && NamesAnchor(r, b) ensures b == a {
        var j :| 0 <= j < |c.anchors| && c.anchors[j] == b;
        assert p(c.anchors[j]);
      }
    }
    if OneActive(c, r, a) {
      var i :| 0 <= i < |c.anchors| && c.anchors[i] == a;
      forall j | 0 <= j < |c.anchors| && p(c.anchors[j]) ensures j == i {
        assert c.anchors[j] in c.anchors;
      }
      FilterOnly(c.anchors, p, i);
    }
  }

  lemma SightingMeans(c: Case, r: Reference)
    requires r.Triple?
    ensures PriorSightings(c.sightings, r) == [] <==> forall i :: !SightingAt(c, r, i)
    ensures forall i :: SightingAt(c, r, i) && (forall j :: SightingAt(c, r, j) ==> j == i) ==>
              PriorSightings(c.sightings, r) == [c.sightings[i]]
    ensures |PriorSightings(c.sightings, r)| == 1 ==>
              exists i :: SightingAt(c, r, i) && PriorSightings(c.sightings, r) == [c.sightings[i]]
                          && forall j :: SightingAt(c, r, j) ==> j == i
  {
    var p := (s: Sighting) => s.frame.id == r.packet && s.ref == r.ref;
    FilterNone(c.sightings, p);
    assert forall i :: SightingAt(c, r, i) <==> 0 <= i < |c.sightings| && p(c.sightings[i]);
    forall i | SightingAt(c, r, i) && (forall j :: SightingAt(c, r, j) ==> j == i)
      ensures PriorSightings(c.sightings, r) == [c.sightings[i]]
    {
      FilterOnly(c.sightings, p, i);
    }
    if |PriorSightings(c.sightings, r)| == 1 {
      var i := FilterIndex(c.sightings, p);
      assert SightingAt(c, r, i);
    }
  }

  lemma SoundMeans(c: Case, s: Sighting, r: Reference)
    requires r.Triple?
    ensures CheckSighting(c.frame, c.candidate, s, r).None? <==> SoundSighting(c, s, r)
  {
    QuotesMeans(s.frame, s.claim.source, s.claim.quote);
    if r.index < |s.claim.anchors| {
      QuotesMeans(s.frame, s.claim.anchors[r.index].source, s.claim.anchors[r.index].quote);
    }
  }

  function LookUp(c: Case, r: Reference): Cited {
    Look(c.frame, c.candidate, c.anchors, c.sightings, r)
  }

  lemma OwnedMeans(c: Case, r: Reference, a: Anchor)
    requires UniqueIds(c.anchors)
    ensures LookUp(c, r) == Found(a) <==> Owned(c, r, a)
  {
    ReferredMeans(c, r);
    ActiveMeans(c, r, a);
    if LookUp(c, r) == Found(a) { assert ReferredActive(c.anchors, r) == [a]; }
  }

  lemma OpenMeans(c: Case, r: Reference)
    ensures LookUp(c, r) == Unsettled <==> Open(c, r)
  {
    ReferredMeans(c, r);
    if r.Triple? {
      SightingMeans(c, r);
      forall i | SightingAt(c, r, i)
        ensures CheckSighting(c.frame, c.candidate, c.sightings[i], r).None? <==> SoundSighting(c, c.sightings[i], r)
      {
        SoundMeans(c, c.sightings[i], r);
      }
    }
  }

  // ---- What the citations show ----

  function Cited(c: Case): seq<Citation> {
    if c.claim.match_.Some? then c.claim.match_.value.citations else []
  }

  /** A current anchor of the claim is distinctive and says what the citation says, from the same source. */
  predicate Pairing(c: Case, k: int, i: int) {
    && 0 <= k < |Cited(c)| && 0 <= i < |c.claim.anchors|
    && c.claim.anchors[i].source == Cited(c)[k].source
    && Normalize(c.claim.anchors[i].quote) == Normalize(Cited(c)[k].quote)
    && !c.claim.anchors[i].kind.Generic?
  }

  /** A citation of a distinctive anchor of the candidate. */
  ghost predicate Distinctive(c: Case, k: int, a: Anchor) {
    0 <= k < |Cited(c)| && Owned(c, Cited(c)[k].anchor, a) && !a.kind.Generic?
  }

  /** The anchor is distinctive, and a current one says the same. */
  ghost predicate Backed(c: Case, k: int, a: Anchor) {
    Distinctive(c, k, a) && exists i :: Pairing(c, k, i)
  }

  ghost predicate Unbacked(c: Case, k: int) {
    (exists a :: Distinctive(c, k, a)) && forall i :: !Pairing(c, k, i)
  }

  /** Neither of the two is a mere configuration. */
  ghost predicate IntrinsicPair(c: Case, k: int) {
    exists a, i :: Distinctive(c, k, a) && Pairing(c, k, i)
                   && !a.kind.Configuration? && !c.claim.anchors[i].kind.Configuration?
  }

  ghost predicate OpenAt(c: Case, k: int) {
    0 <= k < |Cited(c)| && Open(c, Cited(c)[k].anchor)
  }

  ghost predicate OwnedAt(c: Case, k: int) {
    0 <= k < |Cited(c)| && exists a :: Owned(c, Cited(c)[k].anchor, a)
  }

  ghost predicate Settles(c: Case, k: int) {
    OpenAt(c, k) || OwnedAt(c, k)
  }

  function ScanTo(c: Case, n: nat): Identity.Scan
    requires n <= |Cited(c)|
  {
    ScanAll(c.frame, c.candidate, c.anchors, c.sightings, c.claim, Cited(c)[..n])
  }

  ghost predicate OpenBefore(c: Case, n: int) {
    exists k :: k < n && OpenAt(c, k)
  }

  ghost predicate UnbackedBefore(c: Case, n: int) {
    exists k :: k < n && Unbacked(c, k)
  }

  ghost predicate IntrinsicBefore(c: Case, n: int) {
    exists k :: k < n && IntrinsicPair(c, k)
  }

  ghost predicate BackedBefore(c: Case, n: int, a: Anchor) {
    exists k :: k < n && Backed(c, k, a)
  }

  /** What the scan of the first citations has found. */
  ghost predicate ScanTells(c: Case, n: int, s: Identity.Scan)
    requires s.Scan?
  {
    && (s.unsettled <==> OpenBefore(c, n))
    && (s.unpaired <==> UnbackedBefore(c, n))
    && (s.intrinsic <==> IntrinsicBefore(c, n))
    && (forall a :: a in s.eligible <==> BackedBefore(c, n, a))
    && UniqueIds(s.eligible)
  }

  lemma BeforeStep(c: Case, n: int)
    ensures OpenBefore(c, n + 1) <==> OpenBefore(c, n) || OpenAt(c, n)
    ensures UnbackedBefore(c, n + 1) <==> UnbackedBefore(c, n) || Unbacked(c, n)
    ensures IntrinsicBefore(c, n + 1) <==> IntrinsicBefore(c, n) || IntrinsicPair(c, n)
  {}

  lemma BackedStep(c: Case, n: int, a: Anchor)
    ensures BackedBefore(c, n + 1, a) <==> BackedBefore(c, n, a) || Backed(c, n, a)
  {}

  lemma ScanStep(c: Case, n: nat)
    requires n < |Cited(c)|
    ensures ScanTo(c, n + 1) ==
              if ScanTo(c, n).Failed? then ScanTo(c, n)
              else ScanOne(c.claim, Cited(c)[n], LookUp(c, Cited(c)[n].anchor), ScanTo(c, n))
  {
    assert Cited(c)[..n + 1][..n] == Cited(c)[..n];
  }

  ghost predicate AllSettle(c: Case, n: int) {
    forall k :: 0 <= k < n ==> Settles(c, k)
  }

  lemma AllSettleStep(c: Case, n: nat)
    ensures AllSettle(c, n + 1) <==> AllSettle(c, n) && Settles(c, n)
  {}

  ghost predicate ScanOk(c: Case, n: nat, s: Identity.Scan) {
    (s.Scan? <==> AllSettle(c, n)) && (s.Scan? ==> ScanTells(c, n, s))
  }

  lemma {:induction false} ScanMeans(c: Case, n: nat)
    requires UniqueIds(c.anchors) && n <= |Cited(c)|
    ensures ScanOk(c, n, ScanTo(c, n))
    decreases n
  {
    if n == 0 {
      NothingScanned(c);
    } else {
      ScanMeans(c, n - 1);
      OneScanned(c, n - 1, n);
    }
  }

  lemma OneScanned(c: Case, k: nat, n: nat)
    requires UniqueIds(c.anchors) && n == k + 1 <= |Cited(c)| && ScanOk(c, k, ScanTo(c, k))
    ensures ScanOk(c, n, ScanTo(c, n))
  {
    ScanStep(c, k);
    ScanOkStep(c, k, ScanTo(c, k));
  }

  lemma NothingScanned(c: Case)
    ensures ScanOk(c, 0, ScanTo(c, 0))
  {
    assert Cited(c)[..0] == [];
    assert ScanTo(c, 0) == Identity.Scan.Scan([], false, false, false);
    forall k: int | k < 0
      ensures !OpenAt(c, k) && !Unbacked(c, k) && !IntrinsicPair(c, k) && forall a :: !Backed(c, k, a)
    {}
  }

  lemma ScanOkStep(c: Case, n: nat, s: Identity.Scan)
    requires UniqueIds(c.anchors) && n < |Cited(c)| && ScanOk(c, n, s)
    ensures ScanOk(c, n + 1, if s.Failed? then s else ScanOne(c.claim, Cited(c)[n], LookUp(c, Cited(c)[n].anchor), s))
  {
    AllSettleStep(c, n);
    if s.Scan? { OneCitation(c, n, s); }
  }

  lemma OneCitation(c: Case, n: nat, s: Identity.Scan)
    requires UniqueIds(c.anchors) && n < |Cited(c)| && s.Scan? && ScanTells(c, n, s)
    ensures var t := ScanOne(c.claim, Cited(c)[n], LookUp(c, Cited(c)[n].anchor), s);
            (t.Scan? <==> Settles(c, n)) && (t.Scan? ==> ScanTells(c, n + 1, t))
  {
    SettlesMeans(c, n);
    if Settles(c, n) { TellsStep(c, n, s); }
  }

  lemma SettlesMeans(c: Case, k: nat)
    requires UniqueIds(c.anchors) && k < |Cited(c)|
    ensures Settles(c, k) <==> !LookUp(c, Cited(c)[k].anchor).Bad?
  {
    var r := Cited(c)[k].anchor;
    OpenMeans(c, r);
    forall a ensures LookUp(c, r) == Found(a) <==> Owned(c, r, a) { OwnedMeans(c, r, a); }
  }

  /** The n-th citation adds to the scan what it shows. */
  ghost predicate Adds(c: Case, n: int, s: Identity.Scan, t: Identity.Scan)
    requires s.Scan?
  {
    && t.Scan?
    && (t.unsettled <==> s.unsettled || OpenAt(c, n))
    && (t.unpaired <==> s.unpaired || Unbacked(c, n))
    && (t.intrinsic <==> s.intrinsic || IntrinsicPair(c, n))
    && (forall a :: a in t.eligible <==> a in s.eligible || Backed(c, n, a))
    && UniqueIds(t.eligible)
  }

  lemma AddsTells(c: Case, n: int, s: Identity.Scan, t: Identity.Scan)
    requires s.Scan? && ScanTells(c, n, s) && Adds(c, n, s, t)
    ensures ScanTells(c, n + 1, t)
  {
    BeforeStep(c, n);
    forall a ensures BackedBefore(c, n + 1, a) <==> BackedBefore(c, n, a) || Backed(c, n, a) { BackedStep(c, n, a); }
  }

  lemma TellsStep(c: Case, n: nat, s: Identity.Scan)
    requires UniqueIds(c.anchors) && n < |Cited(c)| && s.Scan? && ScanTells(c, n, s) && Settles(c, n)
    ensures var t := ScanOne(c.claim, Cited(c)[n], LookUp(c, Cited(c)[n].anchor), s);
            t.Scan? && ScanTells(c, n + 1, t)
  {
    var r := Cited(c)[n].anchor;
    var found := LookUp(c, r);
    SettlesMeans(c, n);
    OpenMeans(c, r);
    forall a ensures found == Found(a) <==> Owned(c, r, a) { OwnedMeans(c, r, a); }
    if found.Found? {
      FoundStep(c, n, s, found.anchor);
    } else {
      OpenStep(c, n, s);
    }
    AddsTells(c, n, s, ScanOne(c.claim, Cited(c)[n], found, s));
  }

  lemma OpenStep(c: Case, n: nat, s: Identity.Scan)
    requires n < |Cited(c)| && s.Scan? && ScanTells(c, n, s)
    requires OpenAt(c, n) && forall a :: !Owned(c, Cited(c)[n].anchor, a)
    ensures Adds(c, n, s, ScanOne(c.claim, Cited(c)[n], Unsettled, s))
  {
    assert forall a :: !Distinctive(c, n, a);
  }

  lemma FoundStep(c: Case, n: nat, s: Identity.Scan, x: Anchor)
    requires UniqueIds(c.anchors) && n < |Cited(c)| && s.Scan? && ScanTells(c, n, s)
    requires !OpenAt(c, n) && forall a :: Owned(c, Cited(c)[n].anchor, a) <==> a == x
    ensures Adds(c, n, s, ScanOne(c.claim, Cited(c)[n], Found(x), s))
  {
    PairedMeans(c, n);
    assert Owned(c, Cited(c)[n].anchor, x);
    assert Distinctive(c, n, x) <==> !x.kind.Generic?;
    assert forall a :: Distinctive(c, n, a) ==> a == x;
    if !x.kind.Generic? && Paired(c.claim, Cited(c)[n]) { RememberMeans(c, n, s.eligible, x); }
  }

  lemma RememberMeans(c: Case, n: nat, eligible: seq<Anchor>, x: Anchor)
    requires UniqueIds(c.anchors) && UniqueIds(eligible) && x in c.anchors
    requires forall a :: a in eligible ==> BackedBefore(c, n, a)
    ensures forall a :: a in Identity.Remember(eligible, x) <==> a in eligible || a == x
    ensures UniqueIds(Identity.Remember(eligible, x))
  {
    if i :| 0 <= i < |eligible| && eligible[i].id == x.id {
      assert eligible[i] in eligible;
      var k :| k < n && Backed(c, k, eligible[i]);
      OneAnchor(c, eligible[i], x);
    }
  }

  lemma OneAnchor(c: Case, a: Anchor, b: Anchor)
    requires UniqueIds(c.anchors) && a in c.anchors && b in c.anchors && a.id == b.id
    ensures a == b
  {
    var i :| 0 <= i < |c.anchors| && c.anchors[i] == a;
    var j :| 0 <= j < |c.anchors| && c.anchors[j] == b;
    assert i == j;
  }

  lemma PairedMeans(c: Case, k: nat)
    requires k < |Cited(c)|
    ensures Paired(c.claim, Cited(c)[k]) <==> exists i :: Pairing(c, k, i)
    ensures PairedIntrinsic(c.claim, Cited(c)[k]) <==>
              exists i :: Pairing(c, k, i) && !c.claim.anchors[i].kind.Configuration?
  {
    forall i | 0 <= i < |c.claim.anchors| ensures Pairs(c.claim.anchors[i], Cited(c)[k]) <==> Pairing(c, k, i) {}
  }

  // ---- The verdict ----

  /** The other entity shows a distinctive anchor, no later than the frame. */
  predicate Shows(c: Case, entity: string, b: Anchor) {
    && b in c.anchors && b.active && b.entity == entity && entity != c.candidate
    && !b.kind.Generic? && b.observedAt <= c.frame.capturedAt
  }

  predicate Alike(fold: string -> string, a: Anchor, b: Anchor) {
    a.kind == b.kind && fold(Normalize(a.quote)) == fold(Normalize(b.quote))
  }

  /** The entity shows all that backs the claim. */
  ghost predicate Rivals(fold: string -> string, c: Case, entity: string) {
    && (exists b :: Shows(c, entity, b))
    && forall k, a :: Backed(c, k, a) ==> exists b :: Shows(c, entity, b) && Alike(fold, b, a)
  }

  ghost predicate HasRival(fold: string -> string, c: Case) {
    exists entity :: Rivals(fold, c, entity)
  }

  ghost predicate HasOpen(c: Case) {
    exists k :: OpenAt(c, k)
  }

  ghost predicate HasBacked(c: Case) {
    exists k, a :: Backed(c, k, a)
  }

  ghost predicate HasUnbacked(c: Case) {
    exists k :: Unbacked(c, k)
  }

  ghost predicate HasIntrinsic(c: Case) {
    exists k :: IntrinsicPair(c, k)
  }

  /** All there is to support a match, and nothing against it. */
  ghost predicate Supports(fold: string -> string, c: Case) {
    && c.claim.match_.Some?
    && !c.claim.match_.value.possible
    && c.claim.match_.value.conflicts == [] && c.claim.match_.value.competitors == []
    && (forall k :: 0 <= k < |Cited(c)| ==> OwnedAt(c, k))
    && HasBacked(c) && HasIntrinsic(c) && !HasRival(fold, c)
  }

  /** Why a match is not supported: the first of these that is so. */
  ghost function Shortfall(fold: string -> string, c: Case): string
    requires c.claim.match_.Some?
  {
    var m := c.claim.match_.value;
    if HasOpen(c) then "earlier_candidate_anchor"
    else if m.possible then "possible_match"
    else if m.conflicts != [] then "conflicting_details"
    else if m.competitors != [] then "declared_competitors"
    else if !HasBacked(c) then
      if HasUnbacked(c) then "unpaired_current_anchor" else "insufficient_anchors"
    else if !HasIntrinsic(c) then "configuration_without_intrinsic_marker"
    else "indistinguishable_anchors"
  }

  /** The ids of the anchors that back the claim, each once. */
  ghost predicate BackedIds(c: Case, ids: seq<string>) {
    && (forall id :: id in ids <==> exists k, a :: Backed(c, k, a) && a.id == id)
    && forall i, j :: 0 <= i < j < |ids| ==> ids[i] != ids[j]
  }

  lemma RivalMeans(fold: string -> string, c: Case, eligible: seq<Anchor>)
    requires forall a :: a in eligible <==> BackedBefore(c, |Cited(c)|, a)
    ensures Indistinguishable(fold, c.frame, c.candidate, c.anchors, eligible) <==> HasRival(fold, c)
  {
    forall k, a | Backed(c, k, a) ensures a in eligible { assert BackedBefore(c, |Cited(c)|, a); }
    if Indistinguishable(fold, c.frame, c.candidate, c.anchors, eligible) {
      var x :| x in c.anchors && Competes(c.frame, c.candidate, x)
               && ShowsAll(fold, c.frame, c.candidate, c.anchors, eligible, x.entity);
      assert Shows(c, x.entity, x);
      forall k, a | Backed(c, k, a) ensures exists b :: Shows(c, x.entity, b) && Alike(fold, b, a) {
        var b :| b in c.anchors && Competes(c.frame, c.candidate, b) && b.entity == x.entity
                 && SignatureOf(fold, b) == SignatureOf(fold, a);
        assert Shows(c, x.entity, b) && Alike(fold, b, a);
      }
      assert Rivals(fold, c, x.entity);
    }
    if HasRival(fold, c) {
      var entity :| Rivals(fold, c, entity);
      var x :| Shows(c, entity, x);
      forall e | e in eligible
        ensures exists b :: b in c.anchors && Competes(c.frame, c.candidate, b) && b.entity == entity
                            && SignatureOf(fold, b) == SignatureOf(fold, e)
      {
        var k :| k < |Cited(c)| && Backed(c, k, e);
        var b :| Shows(c, entity, b) && Alike(fold, b, e);
        assert Competes(c.frame, c.candidate, b) && SignatureOf(fold, b) == SignatureOf(fold, e);
      }
      assert Competes(c.frame, c.candidate, x);
    }
  }

  lemma IdsMean(c: Case, eligible: seq<Anchor>)
    requires UniqueIds(eligible) && forall a :: a in eligible <==> BackedBefore(c, |Cited(c)|, a)
    ensures BackedIds(c, IdsOf(eligible)) && (eligible == [] <==> !HasBacked(c))
  {
    var ids := IdsOf(eligible);
    forall k, a | Backed(c, k, a) ensures a in eligible && a.id in ids {
      assert BackedBefore(c, |Cited(c)|, a);
      var i :| 0 <= i < |eligible| && eligible[i] == a;
      assert ids[i] == a.id;
    }
    forall id | id in ids ensures exists k, a :: Backed(c, k, a) && a.id == id {
      var i :| 0 <= i < |ids| && ids[i] == id;
      assert eligible[i] in eligible;
      var k :| k < |Cited(c)| && Backed(c, k, eligible[i]);
    }
    if eligible != [] {
      assert eligible[0] in eligible;
      var k :| k < |Cited(c)| && Backed(c, k, eligible[0]);
    }
  }

  lemma WithoutOpen(c: Case)
    requires AllSettle(c, |Cited(c)|)
    ensures !HasOpen(c) <==> forall k :: 0 <= k < |Cited(c)| ==> OwnedAt(c, k)
  {
    forall k | 0 <= k < |Cited(c)| ensures !OpenAt(c, k) <==> OwnedAt(c, k) {
      assert Settles(c, k);
      if OpenAt(c, k) {
        forall a ensures !Owned(c, Cited(c)[k].anchor, a) {}
      }
    }
    if HasOpen(c) {
      var k :| OpenAt(c, k);
      assert !OwnedAt(c, k);
    }
  }

  function Judged(fold: string -> string, c: Case): Outcome
    requires c.claim.match_.Some?
  {
    Judge(fold, c.frame, c.candidate, c.anchors, c.claim, ScanTo(c, |Cited(c)|))
  }

  /** A match is refused exactly when some citation neither has one active, earlier anchor of the candidate nor one
      open sighting; otherwise it is supported exactly when all is there, or else told why not. */
  lemma MatchExactly(fold: string -> string, c: Case)
    requires UniqueIds(c.anchors) && c.claim.match_.Some?
    ensures Judged(fold, c).Verdict? <==> AllSettle(c, |Cited(c)|)
    ensures Judged(fold, c).Verdict? ==>
              var v := Judged(fold, c);
              && v.claim == Some(c.claim) && BackedIds(c, v.matched)
              && v.status == (if Supports(fold, c) then Supported else Candidate)
              && v.reason == (if Supports(fold, c) then "matched_intrinsic_anchors" else Shortfall(fold, c))
  {
    ScanMeans(c, |Cited(c)|);
    var s := ScanTo(c, |Cited(c)|);
    if s.Scan? {
      RivalMeans(fold, c, s.eligible);
      IdsMean(c, s.eligible);
      WithoutOpen(c);
      WithinCited(c);
      JudgeMeans(fold, c, s);
    }
  }

  lemma JudgeMeans(fold: string -> string, c: Case, s: Identity.Scan)
    requires c.claim.match_.Some? && s.Scan?
    requires (s.unsettled <==> HasOpen(c)) && (s.unpaired <==> HasUnbacked(c)) && (s.intrinsic <==> HasIntrinsic(c))
    requires (s.eligible == [] <==> !HasBacked(c)) && BackedIds(c, IdsOf(s.eligible))
    requires Indistinguishable(fold, c.frame, c.candidate, c.anchors, s.eligible) <==> HasRival(fold, c)
    requires !HasOpen(c) <==> forall k :: 0 <= k < |Cited(c)| ==> OwnedAt(c, k)
    ensures var v := Judge(fold, c.frame, c.candidate, c.anchors, c.claim, s);
            && v.Verdict? && v.claim == Some(c.claim) && BackedIds(c, v.matched)
            && v.status == (if Supports(fold, c) then Supported else Candidate)
            && v.reason == (if Supports(fold, c) then "matched_intrinsic_anchors" else Shortfall(fold, c))
  {
    if s.eligible == [] { assert IdsOf(s.eligible) == []; }
  }

  lemma WithinCited(c: Case)
    ensures HasOpen(c) <==> OpenBefore(c, |Cited(c)|)
    ensures HasUnbacked(c) <==> UnbackedBefore(c, |Cited(c)|)
    ensures HasIntrinsic(c) <==> IntrinsicBefore(c, |Cited(c)|)
  {
    if k :| Unbacked(c, k) { var a :| Distinctive(c, k, a); }
    if k :| IntrinsicPair(c, k) { var a, i :| Distinctive(c, k, a) && Pairing(c, k, i); }
  }

  ghost predicate Resolves(frame: Frame, claim: Claim) {
    exists d :: Placed(frame, claim, d)
  }

  ghost predicate PlacedSupport(fold: string -> string, frame: Frame, candidate: string, claim: Claim,
                                anchors: seq<Anchor>, sightings: seq<Sighting>)
  {
    exists d :: Placed(frame, claim, d) && Supports(fold, Case(frame, candidate, anchors, sightings, d))
  }

  ghost predicate PlacedSettle(frame: Frame, candidate: string, claim: Claim, anchors: seq<Anchor>,
                               sightings: seq<Sighting>)
  {
    exists d :: Placed(frame, claim, d)
                && var c := Case(frame, candidate, anchors, sightings, d); AllSettle(c, |Cited(c)|)
  }

  lemma ResolvesMeans(frame: Frame, claim: Claim)
    ensures ResolveClaim(frame, claim).Right? <==> Resolves(frame, claim)
    ensures forall d :: Placed(frame, claim, d) <==> ResolveClaim(frame, claim) == Right(d)
  {
    forall d ensures Placed(frame, claim, d) <==> ResolveClaim(frame, claim) == Right(d) {
      ResolvesExactly(frame, claim, d);
    }
    if ResolveClaim(frame, claim).Right? { assert Placed(frame, claim, ResolveClaim(frame, claim).value); }
  }

  /** The gate refuses exactly stored anchors that share an id, a claim whose quotes have no one place each, a match
      without a candidate, and a match with a citation that names nothing it may. */
  lemma RejectedExactly(fold: string -> string, frame: Frame, candidate: Option<string>, claim: Option<Claim>,
                        anchors: seq<Anchor>, sightings: seq<Sighting>)
    ensures Evaluate(fold, frame, candidate, claim, anchors, sightings).Rejected? <==>
              || !UniqueIds(anchors)
              || (claim.Some?
                  && (|| !Resolves(frame, claim.value)
                      || (claim.value.match_.Some? && candidate.None?)
                      || (claim.value.match_.Some? && candidate.Some?
                          && !PlacedSettle(frame, candidate.value, claim.value, anchors, sightings))))
  {
    if UniqueIds(anchors) && claim.Some? {
      ResolvesMeans(frame, claim.value);
      if Resolves(frame, claim.value) && claim.value.match_.Some? && candidate.Some? {
        CaseMeans(fold, frame, candidate.value, claim.value, anchors, sightings);
      }
    }
  }

  lemma CaseMeans(fold: string -> string, frame: Frame, candidate: string, claim: Claim, anchors: seq<Anchor>,
                  sightings: seq<Sighting>)
    requires UniqueIds(anchors) && Resolves(frame, claim) && claim.match_.Some?
    ensures ResolveClaim(frame, claim).Right? && ResolveClaim(frame, claim).value.match_.Some?
    ensures var c := Case(frame, candidate, anchors, sightings, ResolveClaim(frame, claim).value);
            && Evaluate(fold, frame, Some(candidate), Some(claim), anchors, sightings) == Judged(fold, c)
            && (Judged(fold, c).Verdict? <==> PlacedSettle(frame, candidate, claim, anchors, sightings))
            && (Supports(fold, c) <==> PlacedSupport(fold, frame, candidate, claim, anchors, sightings))
  {
    ResolvesMeans(frame, claim);
    var d := ResolveClaim(frame, claim).value;
    assert Placed(frame, claim, d);
    var c := Case(frame, candidate, anchors, sightings, d);
    MatchExactly(fold, c);
    assert Cited(c)[..|Cited(c)|] == Cited(c);
  }

  /** The gate supports a claim exactly when it names a candidate, its quotes have a place each, and so placed it has
      all that supports a match. */
  lemma SupportedExactly(fold: string -> string, frame: Frame, candidate: Option<string>, claim: Option<Claim>,
                         anchors: seq<Anchor>, sightings: seq<Sighting>)
    ensures var out := Evaluate(fold, frame, candidate, claim, anchors, sightings);
            out.Verdict? && out.status.Supported? <==>
              && UniqueIds(anchors) && candidate.Some? && claim.Some?
              && PlacedSupport(fold, frame, candidate.value, claim.value, anchors, sightings)
  {
    if UniqueIds(anchors) && claim.Some? && candidate.Some? {
      ResolvesMeans(frame, claim.value);
      if Resolves(frame, claim.value) && claim.value.match_.Some? {
        CaseMeans(fold, frame, candidate.value, claim.value, anchors, sightings);
        SupportsSettles(fold, frame, candidate.value, claim.value, anchors, sightings);
        MatchExactly(fold, Case(frame, candidate.value, anchors, sightings, ResolveClaim(frame, claim.value).value));
      }
    }
  }

  lemma SupportsSettles(fold: string -> string, frame: Frame, candidate: string, claim: Claim, anchors: seq<Anchor>,
                        sightings: seq<Sighting>)
    ensures PlacedSupport(fold, frame, candidate, claim, anchors, sightings) ==>
              PlacedSettle(frame, candidate, claim, anchors, sightings)
  {
    if PlacedSupport(fold, frame, candidate, claim, anchors, sightings) {
      var d :| Placed(frame, claim, d) && Supports(fold, Case(frame, candidate, anchors, sightings, d));
      var c := Case(frame, candidate, anchors, sightings, d);
      forall k | 0 <= k < |Cited(c)| ensures Settles(c, k) {}
    }
  }

  /** The gate calls an object new exactly when no candidate is named and the claim, if any, resolves and makes no
      match. */
  lemma NewExactly(fold: string -> string, frame: Frame, candidate: Option<string>, claim: Option<Claim>,
                   anchors: seq<Anchor>, sightings: seq<Sighting>)
    ensures var out := Evaluate(fold, frame, candidate, claim, anchors, sightings);
            out.Verdict? && out.status.New? <==>
              && UniqueIds(anchors) && candidate.None?
              && (claim.Some? ==> Resolves(frame, claim.value) && claim.value.match_.None?)
  {
    if claim.Some? { ResolvesMeans(frame, claim.value); }
  }

  /** Whatever is neither refused, new nor supported stays a candidate, and is told why: no claim, no match, or the
      first shortfall of the match.  A verdict on a claim returns it with every quote placed, and the ids of the
      anchors that back it. */
  lemma CandidateExactly(fold: string -> string, frame: Frame, candidate: Option<string>, claim: Option<Claim>,
                         anchors: seq<Anchor>, sightings: seq<Sighting>)
    requires Evaluate(fold, frame, candidate, claim, anchors, sightings).Verdict?
    ensures var out := Evaluate(fold, frame, candidate, claim, anchors, sightings);
            && (claim.None? <==> out.claim.None?)
            && (claim.Some? ==> Placed(frame, claim.value, out.claim.value))
            && (candidate.Some? && claim.None? ==> out == Verdict(Candidate, "missing_evidence", [], None))
            && (candidate.Some? && claim.Some? && claim.value.match_.None? ==>
                  out == Verdict(Candidate, "missing_match", [], out.claim))
            && (candidate.Some? && claim.Some? && claim.value.match_.Some? ==>
                  var c := Case(frame, candidate.value, anchors, sightings, out.claim.value);
                  && BackedIds(c, out.matched)
                  && (out.status.Supported? || (out.status.Candidate? && out.reason == Shortfall(fold, c))))
  {
    if claim.Some? {
      ResolvesMeans(frame, claim.value);
      if candidate.Some? && claim.value.match_.Some? {
        CaseMeans(fold, frame, candidate.value, claim.value, anchors, sightings);
        MatchExactly(fold, Case(frame, candidate.value, anchors, sightings, ResolveClaim(frame, claim.value).value));
      }
    }
  }
}
