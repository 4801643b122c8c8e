/** The mechanical gate for claims that an object seen now is one seen before. */
module Identity {
  import opened Evidence
  import opened Sorting
  import W = Window

  datatype Kind = AttachedItem | Marking | Configuration | Damage | Generic

  datatype Current = Current(kind: Kind, source: nat, quote: string)

  datatype Reference = ById(id: string) | Triple(packet: string, ref: string, index: nat)

  datatype Citation = Citation(anchor: Reference, source: nat, quote: string)

  datatype Match = Match(possible: bool, citations: seq<Citation>, conflicts: seq<string>, competitors: seq<string>)

  datatype Claim = Claim(ref: string, source: nat, quote: string, anchors: seq<Current>, match_: Option<Match>)

  datatype Anchor = Anchor(id: string, entity: string, packet: string, ref: string, index: nat, kind: Kind,
                           quote: string,
                           observedAt: real, active: bool)

  /** A frame: its scene text and observations, numbered as sources. */
  datatype Frame = Frame(id: string, capturedAt: real, sources: seq<string>)

  datatype Sighting = Sighting(frame: Frame, ref: string, candidates: seq<string>, claim: Claim)

  datatype Status = New | Supported | Candidate

  datatype Outcome =
    | Rejected(code: string)
    | Verdict(status: Status, reason: string, matched: seq<string>, claim: Option<Claim>)

  // ---- Quotes ----

  function Join(words: seq<string>): string {
    if words == [] then ""
    else if |words| == 1 then words[0]
    else Join(words[..|words| - 1]) + " " + words[|words| - 1]
  }

  /** Trimmed, with single spaces. */
  function Normalize(text: string): string {
    Join(W.Tokens(text))
  }

  predicate Includes(text: string, part: string) {
    exists i :: 0 <= i <= |text| - |part| && IsAt(text, part, i)
  }

  predicate IsAt(text: string, part: string, i: int) {
    0 <= i <= |text| - |part| && text[i..i + |part|] == part
  }

  predicate Quotes(sources: seq<string>, index: int, quote: string) {
    0 <= index < |sources| && Includes(Normalize(sources[index]), Normalize(quote))
  }

  datatype Resolution = Missing | Ambiguous | At(index: nat)

  /** The only source that has the quote. */
  function OnlyQuote(sources: seq<string>, quote: string, n: nat): Resolution
    requires n <= |sources|
  {
    if n == 0 then Missing
    else
      var before := OnlyQuote(sources, quote, n - 1);
      if !Quotes(sources, n - 1, quote) then before
      else if before.Missing? then At(n - 1)
      else Ambiguous
  }

  datatype Resolved<T> = Wrong(code: string) | Right(value: T)

  /** An index that has the quote stands; otherwise only a unique source can replace it. */
  function ResolveQuote(frame: Frame, index: nat, quote: string): Resolved<nat> {
    if Quotes(frame.sources, index, quote) then Right(index)
    else match OnlyQuote(frame.sources, quote, |frame.sources|)
      case Missing => Wrong(if index >= |frame.sources| then "unknown_current_source" else "current_quote_mismatch")
      case Ambiguous => Wrong("ambiguous_current_quote")
      case At(i) => Right(i)
  }

  function ResolveAnchors(frame: Frame, anchors: seq<Current>): Resolved<seq<Current>> {
    if anchors == [] then Right([])
    else
      var before, a := ResolveAnchors(frame, anchors[..|anchors| - 1]), anchors[|anchors| - 1];
      if before.Wrong? then before
      else
        var i := ResolveQuote(frame, a.source, a.quote);
        if i.Wrong? then Wrong(i.code) else Right(before.value + [a.(source := i.value)])
  }

  function ResolveCitations(frame: Frame, citations: seq<Citation>): Resolved<seq<Citation>> {
    if citations == [] then Right([])
    else
      var before, c := ResolveCitations(frame, citations[..|citations| - 1]), citations[|citations| - 1];
      if before.Wrong? then before
      else
        var i := ResolveQuote(frame, c.source, c.quote);
        if i.Wrong? then Wrong(i.code) else Right(before.value + [c.(source := i.value)])
  }

  function ResolveClaim(frame: Frame, claim: Claim): Resolved<Claim> {
    var source := ResolveQuote(frame, claim.source, claim.quote);
    if source.Wrong? then Wrong(source.code)
    else
      var anchors := ResolveAnchors(frame, claim.anchors);
      if anchors.Wrong? then Wrong(anchors.code)
      else if claim.match_.None? then Right(claim.(source := source.value, anchors := anchors.value))
      else
        var citations := ResolveCitations(frame, claim.match_.value.citations);
        if citations.Wrong? then Wrong(citations.code)
        else Right(claim.(source := source.value, anchors := anchors.value,
                          match_ := Some(claim.match_.value.(citations := citations.value))))
  }

  // ---- Citations ----

  function Filter<T>(s: seq<T>, p: T -> bool): seq<T> {
    if s == [] then [] else Filter(s[..|s| - 1], p) + if p(s[|s| - 1]) then [s[|s| - 1]] else []
  }

  predicate Refers(r: Reference, a: Anchor) {
    match r
    case ById(id) => a.id == id
    case Triple(packet, ref, index) => a.packet == packet && a.ref == ref && a.index == index
  }

  function Referred(anchors: seq<Anchor>, r: Reference): seq<Anchor> {
    Filter(anchors, (a: Anchor) => Refers(r, a))
  }

  function ReferredActive(anchors: seq<Anchor>, r: Reference): seq<Anchor> {
    Filter(anchors, (a: Anchor) => Refers(r, a) && a.active)
  }

  function PriorSightings(sightings: seq<Sighting>, r: Reference): seq<Sighting> {
    if r.ById? then [] else Filter(sightings, (s: Sighting) => s.frame.id == r.packet && s.ref == r.ref)
  }

  /** A citation of an earlier sighting that was never settled. */
  function CheckSighting(frame: Frame, candidate: string, s: Sighting, r: Reference): Option<string>
    requires r.Triple?
  {
    if s.claim.ref != r.ref then Some("anchor_owner_mismatch")
    else if r.index >= |s.claim.anchors| then Some("unknown_anchor")
    else if candidate !in s.candidates then Some("anchor_owner_mismatch")
    else if s.frame.id == frame.id || s.frame.capturedAt >= frame.capturedAt then Some("non_earlier_anchor")
    else if s.claim.source >= |s.frame.sources| then Some("unknown_prior_source")
    else if !Quotes(s.frame.sources, s.claim.source, s.claim.quote) then Some("prior_quote_mismatch")
    else if s.claim.anchors[r.index].source >= |s.frame.sources| then Some("unknown_prior_source")
    else if !Quotes(s.frame.sources, s.claim.anchors[r.index].source, s.claim.anchors[r.index].quote)
      then Some("prior_quote_mismatch")
    else None
  }

  datatype Cited = Bad(code: string) | Unsettled | Found(anchor: Anchor)

  function Look(frame: Frame, candidate: string, anchors: seq<Anchor>, sightings: seq<Sighting>, r: Reference): Cited {
    var active, prior := ReferredActive(anchors, r), PriorSightings(sightings, r);
    if |Referred(anchors, r)| == 0 && prior != [] then
      if |prior| != 1 then Bad("ambiguous_anchor_reference")
      else
        var error := CheckSighting(frame, candidate, prior[0], r);
        if error.Some? then Bad(error.value) else Unsettled
    else if |Referred(anchors, r)| == 0 then Bad("unknown_anchor")
    else if |active| == 0 then Bad("inactive_anchor")
    else if |active| != 1 then Bad("ambiguous_anchor_reference")
    else if active[0].entity != candidate then Bad("anchor_owner_mismatch")
    else if active[0].packet == frame.id || active[0].observedAt >= frame.capturedAt then Bad("non_earlier_anchor")
    else Found(active[0])
  }

  /** A current anchor that says the same words from the same source, and is not generic. */
  predicate Pairs(v: Current, c: Citation) {
    v.source == c.source && Normalize(v.quote) == Normalize(c.quote) && !v.kind.Generic?
  }

  predicate Paired(claim: Claim, c: Citation) {
    exists i :: 0 <= i < |claim.anchors| && Pairs(claim.anchors[i], c)
  }

  predicate PairedIntrinsic(claim: Claim, c: Citation) {
    exists i :: 0 <= i < |claim.anchors| && Pairs(claim.anchors[i], c) && !claim.anchors[i].kind.Configuration?
  }

  datatype Scan =
    | Failed(code: string)
    | Scan(eligible: seq<Anchor>, intrinsic: bool, unsettled: bool, unpaired: bool)

  function Remember(eligible: seq<Anchor>, a: Anchor): seq<Anchor> {
    if exists i :: 0 <= i < |eligible| && eligible[i].id == a.id then eligible else eligible + [a]
  }

  function ScanOne(claim: Claim, c: Citation, found: Cited, s: Scan): Scan
    requires s.Scan?
  {
    match found
    case Bad(code) => Failed(code)
    case Unsettled => s.(unsettled := true)
    case Found(a) =>
      if a.kind.Generic? then s
      else if !Paired(claim, c) then s.(unpaired := true)
      else
        Scan(Remember(s.eligible, a), s.intrinsic || (!a.kind.Configuration? && PairedIntrinsic(claim, c)),
             s.unsettled, s.unpaired)
  }

  function ScanAll(frame: Frame, candidate: string, anchors: seq<Anchor>, sightings: seq<Sighting>, claim: Claim,
                   citations: seq<Citation>): Scan
  {
    if citations == [] then Scan([], false, false, false)
    else
      var before, c := ScanAll(frame, candidate, anchors, sightings, claim, citations[..|citations| - 1]),
        citations[|citations| - 1];
      if before.Failed? then before
      else ScanOne(claim, c, Look(frame, candidate, anchors, sightings, c.anchor), before)
  }

  // ---- Competitors ----

  datatype Signature = Signature(kind: Kind, words: string)

  function SignatureOf(fold: string -> string, a: Anchor): Signature {
    Signature(a.kind, fold(Normalize(a.quote)))
  }

  /** An active, distinctive anchor of another entity, no later than the frame. */
  predicate Competes(frame: Frame, candidate: string, a: Anchor) {
    a.active && a.entity != candidate && !a.kind.Generic? && a.observedAt <= frame.capturedAt
  }

  /** The other entity shows everything that was cited. */
  predicate ShowsAll(fold: string -> string, frame: Frame, candidate: string, anchors: seq<Anchor>,
                     eligible: seq<Anchor>, entity: string)
  {
    forall e :: e in eligible ==>
      exists a :: a in anchors && Competes(frame, candidate, a) && a.entity == entity
        && SignatureOf(fold, a) == SignatureOf(fold, e)
  }

  predicate Indistinguishable(fold: string -> string, frame: Frame, candidate: string, anchors: seq<Anchor>,
                              eligible: seq<Anchor>)
  {
    exists a :: a in anchors && Competes(frame, candidate, a)
      && ShowsAll(fold, frame, candidate, anchors, eligible, a.entity)
  }

  function IdsOf(anchors: seq<Anchor>): seq<string> {
    seq(|anchors|, i requires 0 <= i < |anchors| => anchors[i].id)
  }

  predicate UniqueIds(anchors: seq<Anchor>) {
    forall i, j :: 0 <= i < j < |anchors| ==> anchors[i].id != anchors[j].id
  }

  // ---- The verdict ----

  function Judge(fold: string -> string, frame: Frame, candidate: string, anchors: seq<Anchor>, claim: Claim,
                 s: Scan): Outcome
    requires claim.match_.Some?
  {
    if s.Failed? then Rejected(s.code)
    else
      var m, ids := claim.match_.value, IdsOf(s.eligible);
      if s.unsettled then Verdict(Candidate, "earlier_candidate_anchor", ids, Some(claim))
      else if m.possible then Verdict(Candidate, "possible_match", ids, Some(claim))
      else if m.conflicts != [] then Verdict(Candidate, "conflicting_details", ids, Some(claim))
      else if m.competitors != [] then Verdict(Candidate, "declared_competitors", ids, Some(claim))
      else if s.eligible == [] then
        Verdict(Candidate, if s.unpaired then "unpaired_current_anchor" else "insufficient_anchors", [], Some(claim))
      else if !s.intrinsic then Verdict(Candidate, "configuration_without_intrinsic_marker", ids, Some(claim))
      else if Indistinguishable(fold, frame, candidate, anchors, s.eligible)
        then Verdict(Candidate, "indistinguishable_anchors", ids, Some(claim))
      else Verdict(Supported, "matched_intrinsic_anchors", ids, Some(claim))
  }

  function Evaluate(fold: string -> string, frame: Frame, candidate: Option<string>, claim: Option<Claim>,
                    anchors: seq<Anchor>,
                    sightings: seq<Sighting>): Outcome
  {
    if !UniqueIds(anchors) then Rejected("duplicate_anchor_id")
    else if claim.None? then
      if candidate.None? then Verdict(New, "new_object", [], None) else Verdict(Candidate, "missing_evidence", [], None)
    else
      var resolved := ResolveClaim(frame, claim.value);
      if resolved.Wrong? then Rejected(resolved.code)
      else
        var c := resolved.value;
        if candidate.None? then
          if c.match_.Some? then Rejected("match_without_candidate") else Verdict(New, "new_object", [], Some(c))
        else if c.match_.None? then Verdict(Candidate, "missing_match", [], Some(c))
        else Judge(fold, frame, candidate.value, anchors, c,
                   ScanAll(frame, candidate.value, anchors, sightings, c, c.match_.value.citations))
  }

  // ---- Evaluating the resolved claim again ----

  lemma {:induction false} OnlyQuoteHas(sources: seq<string>, quote: string, n: nat)
    requires n <= |sources|
    ensures OnlyQuote(sources, quote, n).At? ==> Quotes(sources, OnlyQuote(sources, quote, n).index, quote)
  {
    if n > 0 { OnlyQuoteHas(sources, quote, n - 1); }
  }

  lemma {:induction false} AnchorsStand(frame: Frame, anchors: seq<Current>)
    requires ResolveAnchors(frame, anchors).Right?
    ensures ResolveAnchors(frame, ResolveAnchors(frame, anchors).value) == ResolveAnchors(frame, anchors)
  {
    if anchors != [] {
      var front, a := anchors[..|anchors| - 1], anchors[|anchors| - 1];
      AnchorsStand(frame, front);
      var before := ResolveAnchors(frame, front).value;
      var last := a.(source := ResolveQuote(frame, a.source, a.quote).value);
      assert (before + [last])[..|before|] == before;
    }
  }

  lemma {:induction false} CitationsStand(frame: Frame, citations: seq<Citation>)
    requires ResolveCitations(frame, citations).Right?
    ensures ResolveCitations(frame, ResolveCitations(frame, citations).value) == ResolveCitations(frame, citations)
  {
    if citations != [] {
      var front, c := citations[..|citations| - 1], citations[|citations| - 1];
      CitationsStand(frame, front);
      var before := ResolveCitations(frame, front).value;
      var last := c.(source := ResolveQuote(frame, c.source, c.quote).value);
      assert (before + [last])[..|before|] == before;
    }
  }

  lemma ClaimStands(frame: Frame, claim: Claim)
    requires ResolveClaim(frame, claim).Right?
    ensures ResolveClaim(frame, ResolveClaim(frame, claim).value) == ResolveClaim(frame, claim)
  {
    AnchorsStand(frame, claim.anchors);
    if claim.match_.Some? { CitationsStand(frame, claim.match_.value.citations); }
  }

  lemma SameResolution(fold: string -> string, frame: Frame, candidate: Option<string>, a: Claim, b: Claim,
                       anchors: seq<Anchor>,
                       sightings: seq<Sighting>)
    requires ResolveClaim(frame, a) == ResolveClaim(frame, b)
    ensures Evaluate(fold, frame, candidate, Some(a), anchors, sightings)
        == Evaluate(fold, frame, candidate, Some(b), anchors, sightings)
  {}

  /** Evaluating the claim that an evaluation returned gives the same verdict and returns the same claim. */
  lemma ReevaluationIsStable(fold: string -> string, frame: Frame, candidate: Option<string>, claim: Option<Claim>,
                             anchors: seq<Anchor>,
                             sightings: seq<Sighting>)
    requires Evaluate(fold, frame, candidate, claim, anchors, sightings).Verdict?
    ensures Evaluate(fold, frame, candidate, Evaluate(fold, frame, candidate, claim, anchors, sightings).claim, anchors,
                     sightings)
         == Evaluate(fold, frame, candidate, claim, anchors, sightings)
  {
    if claim.Some? {
      ClaimStands(frame, claim.value);
      SameResolution(fold, frame, candidate, claim.value, ResolveClaim(frame, claim.value).value, anchors, sightings);
    }
  }

  // ---- The order of the stored anchors ----

  lemma {:induction false} FilterCounts<T(!new)>(s: seq<T>, p: T -> bool)
    ensures forall x :: multiset(Filter(s, p))[x] == if p(x) then multiset(s)[x] else 0
  {
    if s != [] {
      var front, last := s[..|s| - 1], s[|s| - 1];
      FilterCounts(front, p);
      assert s == front + [last];
      assert multiset(s) == multiset(front) + multiset{last};
      assert multiset(Filter(s, p)) == multiset(Filter(front, p)) + if p(last) then multiset{last} else multiset{};
    }
  }

  lemma FilterReordered<T(!new)>(a: seq<T>, b: seq<T>, p: T -> bool)
    requires multiset(a) == multiset(b)
    ensures |Filter(a, p)| == |Filter(b, p)|
    ensures |Filter(a, p)| == 1 ==> Filter(a, p) == Filter(b, p)
  {
    var x, y := Filter(a, p), Filter(b, p);
    assert multiset(x) == multiset(y) by { SameCounts(a, b, p); }
    SameSize(x, y);
    if |x| == 1 { SameSingle(x, y); }
  }

  lemma SameSingle<T>(x: seq<T>, y: seq<T>)
    requires |x| == |y| == 1 && multiset(x) == multiset(y)
    ensures x == y
  {
    assert y[0] in multiset(y);
    assert y[0] in x;
  }

  lemma SameCounts<T(!new)>(a: seq<T>, b: seq<T>, p: T -> bool)
    requires multiset(a) == multiset(b)
    ensures multiset(Filter(a, p)) == multiset(Filter(b, p))
  {
    FilterCounts(a, p);
    FilterCounts(b, p);
    forall x ensures multiset(Filter(a, p))[x] == multiset(Filter(b, p))[x] {}
  }

  lemma LookReordered(frame: Frame, candidate: string, a: seq<Anchor>, b: seq<Anchor>, sightings: seq<Sighting>,
                      r: Reference)
    requires multiset(a) == multiset(b)
    ensures Look(frame, candidate, a, sightings, r) == Look(frame, candidate, b, sightings, r)
  {
    FilterReordered(a, b, (x: Anchor) => Refers(r, x));
    FilterReordered(a, b, (x: Anchor) => Refers(r, x) && x.active);
  }

  lemma {:induction false} ScanReordered(frame: Frame, candidate: string, a: seq<Anchor>, b: seq<Anchor>,
                                         sightings: seq<Sighting>,
                                         claim: Claim, citations: seq<Citation>)
    requires multiset(a) == multiset(b)
    ensures ScanAll(frame, candidate, a, sightings, claim, citations)
        == ScanAll(frame, candidate, b, sightings, claim, citations)
  {
    if citations != [] {
      ScanReordered(frame, candidate, a, b, sightings, claim, citations[..|citations| - 1]);
      LookReordered(frame, candidate, a, b, sightings, citations[|citations| - 1].anchor);
    }
  }

  lemma SameMembers(a: seq<Anchor>, b: seq<Anchor>)
    requires multiset(a) == multiset(b)
    ensures forall x :: x in a <==> x in b
  {
    forall x ensures x in a <==> x in b {
      assert x in a <==> x in multiset(a);
      assert x in b <==> x in multiset(b);
    }
  }

  lemma UniqueReordered(a: seq<Anchor>, b: seq<Anchor>)
    requires multiset(a) == multiset(b) && UniqueIds(a)
    ensures UniqueIds(b)
  {
    forall i, j | 0 <= i < j < |b| ensures b[i].id != b[j].id {
      if b[i].id == b[j].id { TwiceIsTwice(a, b, i, j); }
    }
  }

  /** Elements at two positions with one id would be one element occurring twice. */
  lemma TwiceIsTwice(a: seq<Anchor>, b: seq<Anchor>, i: nat, j: nat)
    requires multiset(a) == multiset(b) && i < j < |b|
    ensures b[i].id == b[j].id ==> !UniqueIds(a)
  {
    SameMembers(a, b);
    var x, y := b[i], b[j];
    assert x in b && y in b;
    var k :| 0 <= k < |a| && a[k] == x;
    var l :| 0 <= l < |a| && a[l] == y;
    if k == l {
      TwoPositions(b, i, j);
      OnePosition(a, k);
    }
  }

  lemma TwoPositions(b: seq<Anchor>, i: nat, j: nat)
    requires i < j < |b| && b[i] == b[j]
    ensures multiset(b)[b[i]] >= 2
  {
    assert b == b[..j] + [b[j]] + b[j + 1..];
    assert multiset(b) == multiset(b[..j]) + multiset{b[j]} + multiset(b[j + 1..]);
    assert b[..j][i] == b[i];
    assert b[i] in multiset(b[..j]);
  }

  lemma OnePosition(a: seq<Anchor>, k: nat)
    requires k < |a| && multiset(a)[a[k]] >= 2
    ensures !UniqueIds(a)
  {
    var x := a[k];
    assert a == a[..k] + [x] + a[k + 1..];
    assert multiset(a) == multiset(a[..k]) + multiset{x} + multiset(a[k + 1..]);
    if x in multiset(a[..k]) {
      var m :| 0 <= m < k && a[..k][m] == x;
      assert a[m].id == a[k].id;
    } else {
      assert x in multiset(a[k + 1..]);
      var m :| 0 <= m < |a[k + 1..]| && a[k + 1..][m] == x;
      assert a[k + 1 + m].id == a[k].id;
    }
  }

  /** The verdict does not depend on the order in which anchors are stored. */
  lemma OrderDoesNotMatter(fold: string -> string, frame: Frame, candidate: Option<string>, claim: Option<Claim>,
                           a: seq<Anchor>, b: seq<Anchor>,
                           sightings: seq<Sighting>)
    requires multiset(a) == multiset(b)
    ensures Evaluate(fold, frame, candidate, claim, a, sightings)
        == Evaluate(fold, frame, candidate, claim, b, sightings)
  {
    if UniqueIds(a) { UniqueReordered(a, b); }
    if UniqueIds(b) { UniqueReordered(b, a); }
    SameMembers(a, b);
    if claim.Some? && candidate.Some? && ResolveClaim(frame, claim.value).Right?
      && ResolveClaim(frame, claim.value).value.match_.Some? {
      var c := ResolveClaim(frame, claim.value).value;
      ScanReordered(frame, candidate.value, a, b, sightings, c, c.match_.value.citations);
      var s := ScanAll(frame, candidate.value, a, sightings, c, c.match_.value.citations);
    }
  }

  // ---- Anchors of other entities ----

  predicate Foreign(candidate: string, anchors: seq<Anchor>) {
    forall i :: 0 <= i < |anchors| ==> anchors[i].entity != candidate
  }

  lemma {:induction false} FilterAppend<T(!new)>(s: seq<T>, t: seq<T>, p: T -> bool)
    ensures Filter(s + t, p) == Filter(s, p) + Filter(t, p)
  {
    if t == [] {
      assert s + t == s;
    } else {
      FilterAppend(s, t[..|t| - 1], p);
      assert (s + t)[..|s + t| - 1] == s + t[..|t| - 1];
    }
  }

  lemma {:induction false} FilterIn<T(!new)>(s: seq<T>, p: T -> bool)
    ensures forall x :: x in Filter(s, p) <==> x in s && p(x)
  {
    if s != [] {
      FilterIn(s[..|s| - 1], p);
      assert s == s[..|s| - 1] + [s[|s| - 1]];
    }
  }

  lemma ActiveAppend(own: seq<Anchor>, other: seq<Anchor>, r: Reference)
    ensures ReferredActive(own + other, r) == ReferredActive(own, r) + ReferredActive(other, r)
    ensures forall x :: x in ReferredActive(other, r) ==> x in other
  {
    FilterAppend(own, other, (x: Anchor) => Refers(r, x) && x.active);
    FilterIn(other, (x: Anchor) => Refers(r, x) && x.active);
  }

  lemma ActiveIsReferred(own: seq<Anchor>, r: Reference)
    ensures forall x :: x in ReferredActive(own, r) ==> x in Referred(own, r)
  {
    FilterIn(own, (x: Anchor) => Refers(r, x));
    FilterIn(own, (x: Anchor) => Refers(r, x) && x.active);
  }

  lemma OnlyLeft<T>(u: seq<T>, v: seq<T>, a: T)
    requires u + v == [a] && a !in v
    ensures u == [a]
  {
    assert (u + v)[..|u|] == u && (u + v)[|u|..] == v;
    assert a in [a];
    if u == [] { assert false; }
  }

  /** What is found among more anchors, some of other entities, is found without them. */
  lemma LookForeign(frame: Frame, candidate: string, own: seq<Anchor>, other: seq<Anchor>, sightings: seq<Sighting>,
                    r: Reference)
    requires Foreign(candidate, other) && Look(frame, candidate, own + other, sightings, r).Found?
    ensures Look(frame, candidate, own, sightings, r) == Look(frame, candidate, own + other, sightings, r)
  {
    var all_ := ReferredActive(own + other, r);
    assert |all_| == 1 && all_ == [all_[0]] && all_[0].entity == candidate;
    ActiveAppend(own, other, r);
    OnlyLeft(ReferredActive(own, r), ReferredActive(other, r), all_[0]);
    ActiveIsReferred(own, r);
    assert all_[0] in Referred(own, r);
  }

  lemma {:induction false} ScanForeign(frame: Frame, candidate: string, own: seq<Anchor>, other: seq<Anchor>,
                                       sightings: seq<Sighting>,
                                       claim: Claim, citations: seq<Citation>)
    requires Foreign(candidate, other)
    requires var s := ScanAll(frame, candidate, own + other, sightings, claim, citations); s.Scan? && !s.unsettled
    ensures ScanAll(frame, candidate, own, sightings, claim, citations)
        == ScanAll(frame, candidate, own + other, sightings, claim, citations)
  {
    if citations != [] {
      ScanForeign(frame, candidate, own, other, sightings, claim, citations[..|citations| - 1]);
      LookForeign(frame, candidate, own, other, sightings, citations[|citations| - 1].anchor);
    }
  }

  /** Anchors of other entities can take support away but never give it. */
  lemma ForeignAnchorsNeverSupport(fold: string -> string, frame: Frame, candidate: string, claim: Option<Claim>,
                                   own: seq<Anchor>,
                                   other: seq<Anchor>, sightings: seq<Sighting>)
    requires Foreign(candidate, other)
    requires var v := Evaluate(fold, frame, Some(candidate), claim, own + other, sightings);
        v.Verdict? && v.status.Supported?
    ensures Evaluate(fold, frame, Some(candidate), claim, own, sightings)
        == Evaluate(fold, frame, Some(candidate), claim, own + other, sightings)
  {
    assert UniqueIds(own) by {
      forall i, j | 0 <= i < j < |own| ensures own[i].id != own[j].id {
        assert (own + other)[i] == own[i] && (own + other)[j] == own[j];
      }
    }
    var c := ResolveClaim(frame, claim.value).value;
    ScanForeign(frame, candidate, own, other, sightings, c, c.match_.value.citations);
    var s := ScanAll(frame, candidate, own, sightings, c, c.match_.value.citations);
  }

  // ---- The gate as the loops it is ----

  method ScanLoop(frame: Frame, candidate: string, anchors: seq<Anchor>, sightings: seq<Sighting>, claim: Claim,
                  citations: seq<Citation>)
    returns (s: Scan)
    ensures s == ScanAll(frame, candidate, anchors, sightings, claim, citations)
  {
    s := Scan([], false, false, false);
    for i := 0 to |citations|
      invariant s.Scan? && s == ScanAll(frame, candidate, anchors, sightings, claim, citations[..i])
    {
      assert citations[..i + 1][..i] == citations[..i];
      var next := ScanOne(claim, citations[i], Look(frame, candidate, anchors, sightings, citations[i].anchor), s);
      if next.Failed? {
        FailureStays(frame, candidate, anchors, sightings, claim, citations, i + 1);
        return next;
      }
      s := next;
    }
    assert citations[..|citations|] == citations;
  }

  lemma {:induction false} FailureStays(frame: Frame, candidate: string, anchors: seq<Anchor>, sightings: seq<Sighting>,
                                        claim: Claim,
                                        citations: seq<Citation>, n: nat)
    requires n <= |citations| && ScanAll(frame, candidate, anchors, sightings, claim, citations[..n]).Failed?
    ensures ScanAll(frame, candidate, anchors, sightings, claim, citations)
         == ScanAll(frame, candidate, anchors, sightings, claim, citations[..n])
    decreases |citations|
  {
    if n < |citations| {
      var front := citations[..|citations| - 1];
      assert front[..n] == citations[..n];
      FailureStays(frame, candidate, anchors, sightings, claim, front, n);
    } else {
      assert citations[..n] == citations;
    }
  }

  /** Each competitor's signatures. */
  function Competitors(fold: string -> string, frame: Frame, candidate: string, anchors: seq<Anchor>): map<string,
                       set<Signature>>
  {
    if anchors == [] then map[]
    else
      var before, a := Competitors(fold, frame, candidate, anchors[..|anchors| - 1]), anchors[|anchors| - 1];
      if !Competes(frame, candidate, a) then before
      else before[a.entity := (if a.entity in before then before[a.entity] else {}) + {SignatureOf(fold, a)}]
  }

  predicate CoversAll(fold: string -> string, signatures: set<Signature>, eligible: seq<Anchor>) {
    forall x :: x in eligible ==> SignatureOf(fold, x) in signatures
  }

  predicate Shown(fold: string -> string, frame: Frame, candidate: string, anchors: seq<Anchor>, entity: string,
                  s: Signature)
  {
    exists a :: a in anchors && Competes(frame, candidate, a) && a.entity == entity && SignatureOf(fold, a) == s
  }

  lemma {:induction false} CompetitorsAre(fold: string -> string, frame: Frame, candidate: string, anchors: seq<Anchor>,
                                          e: string)
    ensures var m := Competitors(fold, frame, candidate, anchors);
            && (e in m <==> exists a :: a in anchors && Competes(frame, candidate, a) && a.entity == e)
            && (e in m ==> forall s :: s in m[e] <==> Shown(fold, frame, candidate, anchors, e, s))
            && (e !in m ==> forall s :: !Shown(fold, frame, candidate, anchors, e, s))
  {
    if anchors != [] {
      var front, x := anchors[..|anchors| - 1], anchors[|anchors| - 1];
      CompetitorsAre(fold, frame, candidate, front, e);
      assert anchors == front + [x];
      forall s ensures Shown(fold, frame, candidate, anchors, e, s) <==>
          Shown(fold, frame, candidate, front, e, s)
            || (Competes(frame, candidate, x) && x.entity == e && SignatureOf(fold, x) == s) {}
    }
  }

  lemma CoversIsShows(fold: string -> string, frame: Frame, candidate: string, anchors: seq<Anchor>,
                      eligible: seq<Anchor>, e: string)
    ensures var m := Competitors(fold, frame, candidate, anchors);
            e in m ==> (CoversAll(fold, m[e], eligible) <==> ShowsAll(fold, frame, candidate, anchors, eligible, e))
  {
    CompetitorsAre(fold, frame, candidate, anchors, e);
    var m := Competitors(fold, frame, candidate, anchors);
    if e in m {
      forall x | x in eligible
        ensures SignatureOf(fold, x) in m[e] <==> Shown(fold, frame, candidate, anchors, e, SignatureOf(fold, x))
      {}
    }
  }

  lemma CompetitorCovers(fold: string -> string, frame: Frame, candidate: string, anchors: seq<Anchor>,
                         eligible: seq<Anchor>)
    ensures var m := Competitors(fold, frame, candidate, anchors);
            (exists e :: e in m && CoversAll(fold, m[e], eligible)) <==>
              Indistinguishable(fold, frame, candidate, anchors, eligible)
  {
    var m := Competitors(fold, frame, candidate, anchors);
    if e :| e in m && CoversAll(fold, m[e], eligible) {
      CoversIsShows(fold, frame, candidate, anchors, eligible, e);
      CompetitorsAre(fold, frame, candidate, anchors, e);
    }
    if Indistinguishable(fold, frame, candidate, anchors, eligible) {
      var a :| a in anchors && Competes(frame, candidate, a)
        && ShowsAll(fold, frame, candidate, anchors, eligible, a.entity);
      CompetitorsAre(fold, frame, candidate, anchors, a.entity);
      CoversIsShows(fold, frame, candidate, anchors, eligible, a.entity);
    }
  }

  /** Collect each competitor's signatures, then look for one that has all that were cited. */
  method FindCompetitor(fold: string -> string, frame: Frame, candidate: string, anchors: seq<Anchor>,
                        eligible: seq<Anchor>)
    returns (found: bool)
    ensures found == Indistinguishable(fold, frame, candidate, anchors, eligible)
  {
    var competitors: map<string, set<Signature>> := map[];
    for i := 0 to |anchors|
      invariant competitors == Competitors(fold, frame, candidate, anchors[..i])
    {
      assert anchors[..i + 1][..i] == anchors[..i];
      var a := anchors[i];
      if Competes(frame, candidate, a) {
        var signatures := if a.entity in competitors then competitors[a.entity] else {};
        competitors := competitors[a.entity := signatures + {SignatureOf(fold, a)}];
      }
    }
    assert anchors[..|anchors|] == anchors;
    CompetitorCovers(fold, frame, candidate, anchors, eligible);
    found := exists e :: e in competitors && CoversAll(fold, competitors[e], eligible);
  }

  /** Rewrite the source of each anchor; stop at the first quote that no source supports. */
  method RewriteAnchors(frame: Frame, anchors: seq<Current>) returns (r: Resolved<seq<Current>>)
    ensures r == ResolveAnchors(frame, anchors)
  {
    var done := [];
    for i := 0 to |anchors|
      invariant ResolveAnchors(frame, anchors[..i]) == Right(done)
    {
      assert anchors[..i + 1][..i] == anchors[..i];
      var at := ResolveQuote(frame, anchors[i].source, anchors[i].quote);
      if at.Wrong? {
        WrongStays(frame, anchors, i + 1);
        return Wrong(at.code);
      }
      done := done + [anchors[i].(source := at.value)];
    }
    assert anchors[..|anchors|] == anchors;
    return Right(done);
  }

  lemma {:induction false} WrongStays(frame: Frame, anchors: seq<Current>, n: nat)
    requires n <= |anchors| && ResolveAnchors(frame, anchors[..n]).Wrong?
    ensures ResolveAnchors(frame, anchors) == ResolveAnchors(frame, anchors[..n])
    decreases |anchors|
  {
    if n < |anchors| {
      var front := anchors[..|anchors| - 1];
      assert front[..n] == anchors[..n];
      WrongStays(frame, front, n);
    } else {
      assert anchors[..n] == anchors;
    }
  }

  method RewriteCitations(frame: Frame, citations: seq<Citation>) returns (r: Resolved<seq<Citation>>)
    ensures r == ResolveCitations(frame, citations)
  {
    var done := [];
    for i := 0 to |citations|
      invariant ResolveCitations(frame, citations[..i]) == Right(done)
    {
      assert citations[..i + 1][..i] == citations[..i];
      var at := ResolveQuote(frame, citations[i].source, citations[i].quote);
      if at.Wrong? {
        WrongCitation(frame, citations, i + 1);
        return Wrong(at.code);
      }
      done := done + [citations[i].(source := at.value)];
    }
    assert citations[..|citations|] == citations;
    return Right(done);
  }

  lemma {:induction false} WrongCitation(frame: Frame, citations: seq<Citation>, n: nat)
    requires n <= |citations| && ResolveCitations(frame, citations[..n]).Wrong?
    ensures ResolveCitations(frame, citations) == ResolveCitations(frame, citations[..n])
    decreases |citations|
  {
    if n == |citations| {
      assert citations[..n] == citations;
    } else {
      var front := citations[..|citations| - 1];
      assert front[..n] == citations[..n];
      WrongCitation(frame, front, n);
    }
  }

  /** Point the claim, its anchors and its citations to the sources that their quotes are from. */
  method Resolve(frame: Frame, claim: Claim) returns (r: Resolved<Claim>)
    ensures r == ResolveClaim(frame, claim)
  {
    var source := ResolveQuote(frame, claim.source, claim.quote);
    if source.Wrong? {
      return Wrong(source.code);
    }
    var anchors := RewriteAnchors(frame, claim.anchors);
    if anchors.Wrong? {
      return Wrong(anchors.code);
    }
    var resolved := claim.(source := source.value, anchors := anchors.value);
    if claim.match_.Some? {
      var citations := RewriteCitations(frame, claim.match_.value.citations);
      if citations.Wrong? {
        return Wrong(citations.code);
      }
      resolved := resolved.(match_ := Some(claim.match_.value.(citations := citations.value)));
    }
    return Right(resolved);
  }

  /** The gate for a claim that names a candidate. */
  method EvaluateMatch(fold: string -> string, frame: Frame, candidate: string, claim: Claim, anchors: seq<Anchor>,
                       sightings: seq<Sighting>)
    returns (r: Outcome)
    ensures r == Evaluate(fold, frame, Some(candidate), Some(claim), anchors, sightings)
  {
    if !UniqueIds(anchors) {
      return Rejected("duplicate_anchor_id");
    }
    var resolved := Resolve(frame, claim);
    if resolved.Wrong? {
      return Rejected(resolved.code);
    }
    var c := resolved.value;
    if c.match_.None? {
      return Verdict(Candidate, "missing_match", [], Some(c));
    }
    var s := ScanLoop(frame, candidate, anchors, sightings, c, c.match_.value.citations);
    if s.Failed? {
      return Rejected(s.code);
    }
    var m, ids := c.match_.value, IdsOf(s.eligible);
    if s.unsettled {
      return Verdict(Candidate, "earlier_candidate_anchor", ids, Some(c));
    }
    if m.possible {
      return Verdict(Candidate, "possible_match", ids, Some(c));
    }
    if m.conflicts != [] {
      return Verdict(Candidate, "conflicting_details", ids, Some(c));
    }
    if m.competitors != [] {
      return Verdict(Candidate, "declared_competitors", ids, Some(c));
    }
    if s.eligible == [] {
      return Verdict(Candidate, if s.unpaired then "unpaired_current_anchor" else "insufficient_anchors", [], Some(c));
    }
    if !s.intrinsic {
      return Verdict(Candidate, "configuration_without_intrinsic_marker", ids, Some(c));
    }
    var rival := FindCompetitor(fold, frame, candidate, anchors, s.eligible);
    if rival {
      return Verdict(Candidate, "indistinguishable_anchors", ids, Some(c));
    }
    return Verdict(Supported, "matched_intrinsic_anchors", ids, Some(c));
  }
}
