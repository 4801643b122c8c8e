/** The words a frame hears: the last words by spoken time of the newest revision of each segment. */
module Window {
  import opened Evidence
  import opened Sorting

  datatype Word = Word(text: string, startAt: real, endAt: real)

  datatype Id = Id(segment: string, revision: int)

  datatype Transcript = Transcript(segment: string, revision: int, final: bool, text: string, startAt: real,
                                   endAt: real,
                                   words: seq<Word>)
  {
    function Key(): Id { Id(segment, revision) }
  }

  /** A word of a transcript, and which one it is. */
  datatype Spoken = Spoken(t: Transcript, index: nat, word: Word)

  datatype Group = Group(t: Transcript, words: seq<Word>, startAt: real, endAt: real)

  datatype Audio = Audio(words: seq<Word>, segments: seq<Group>)

  datatype Frame = Frame(throughAt: real, maxWords: int, maxAge: Option<real>)

  // ---- Newest revisions ----

  function LatestOf(revisions: seq<Transcript>): map<string, Transcript> {
    if revisions == [] then map[]
    else
      var before, t := LatestOf(revisions[..|revisions| - 1]), revisions[|revisions| - 1];
      if t.segment !in before || t.revision > before[t.segment].revision then before[t.segment := t] else before
  }

  /** The segments in order of first arrival. */
  function Segments(revisions: seq<Transcript>): seq<string> {
    if revisions == [] then []
    else
      var before, t := Segments(revisions[..|revisions| - 1]), revisions[|revisions| - 1];
      if t.segment in before then before else before + [t.segment]
  }

  /** No other revision of its segment is newer. */
  predicate Newest(revisions: seq<Transcript>, t: Transcript) {
    t in revisions && forall u :: u in revisions && u.segment == t.segment ==> u.revision <= t.revision
  }

  ghost predicate RevisionsUnique(revisions: seq<Transcript>) {
    forall t, u :: t in revisions && u in revisions && t.Key() == u.Key() ==> t == u
  }

  lemma {:induction false} LatestIs(revisions: seq<Transcript>)
    ensures var m := LatestOf(revisions);
            && (forall s :: s in m ==> m[s].segment == s && Newest(revisions, m[s]))
            && (forall t :: t in revisions ==> t.segment in m)
  {
    if revisions != [] {
      var front, t := revisions[..|revisions| - 1], revisions[|revisions| - 1];
      LatestIs(front);
      assert revisions == front + [t];
      var m := LatestOf(revisions);
      forall s | s in m ensures m[s].segment == s && Newest(revisions, m[s]) {
        if s != t.segment { assert Newest(front, m[s]); }
      }
    }
  }

  lemma {:induction false} SegmentsAre(revisions: seq<Transcript>)
    ensures forall s :: s in Segments(revisions) <==> s in LatestOf(revisions)
    ensures Distinct(Segments(revisions))
  {
    if revisions != [] { SegmentsAre(revisions[..|revisions| - 1]); }
  }

  /** The same newest revisions, whatever else arrived and in whatever order. */
  lemma LatestByNewest(a: seq<Transcript>, b: seq<Transcript>)
    requires RevisionsUnique(a) && RevisionsUnique(b) && forall t :: Newest(a, t) <==> Newest(b, t)
    ensures LatestOf(a) == LatestOf(b)
  {
    var x, y := LatestOf(a), LatestOf(b);
    forall s | s in x ensures s in y && x[s] == y[s] { LatestAt(a, b, s); }
    forall s | s in y ensures s in x { LatestAt(b, a, s); }
  }

  lemma LatestAt(a: seq<Transcript>, b: seq<Transcript>, s: string)
    requires RevisionsUnique(b) && s in LatestOf(a) && (forall t :: Newest(a, t) <==> Newest(b, t))
    ensures s in LatestOf(b) && LatestOf(b)[s] == LatestOf(a)[s]
  {
    LatestIs(a);
    LatestIs(b);
    assert Newest(b, LatestOf(a)[s]);
    SameNewest(b, LatestOf(a)[s], LatestOf(b)[s]);
  }

  lemma SameNewest(revisions: seq<Transcript>, t: Transcript, u: Transcript)
    requires RevisionsUnique(revisions) && Newest(revisions, t) && Newest(revisions, u) && t.segment == u.segment
    ensures t == u
  {
    assert t.Key() == u.Key();
  }

  // ---- Words ----

  predicate Space(c: char) {
    c == ' ' || c == '\t' || c == '\n' || c == '\r'
  }

  /** The words of a text: its runs without white space. */
  function Tokens(text: string): seq<string> {
    if text == [] then []
    else More(text[..|text| - 1], text[|text| - 1], Tokens(text[..|text| - 1]))
  }

  /** A character more goes on with the last word, begins another, or ends it. */
  function More(front: string, c: char, before: seq<string>): seq<string> {
    if Space(c) then before
    else if front == [] || Space(front[|front| - 1]) || before == [] then before + [[c]]
    else before[|before| - 1 := before[|before| - 1] + [c]]
  }

  /** Spread words without times evenly over the segment. */
  function Spread(t: Transcript, tokens: seq<string>): seq<Word> {
    seq(|tokens|, i requires 0 <= i < |tokens| =>
      Word(tokens[i], Mark(t, i, |tokens|), Mark(t, i + 1, |tokens|)))
  }

  /** Where the i-th of n even parts of the segment starts. */
  function Mark(t: Transcript, i: nat, n: nat): real
    requires n > 0
  {
    t.startAt + (t.endAt - t.startAt) * (i as real) / (n as real)
  }

  ghost predicate Within(from: seq<nat>, to: seq<nat>, i: int)
    requires |from| == |to|
  {
    exists n :: 0 <= n < |from| && from[n] <= i < to[n]
  }

  /** The words of a text are its longest stretches without white space, in order: the n-th stands from `from[n]`
      up to `to[n]`, and all between them is white space. */
  ghost predicate Stretches(text: string, tokens: seq<string>, from: seq<nat>, to: seq<nat>) {
    && |tokens| == |from| == |to|
    && (forall n :: 0 <= n < |tokens| ==> from[n] < to[n] <= |text| && tokens[n] == text[from[n]..to[n]])
    && (forall m, n :: 0 <= m < n < |tokens| ==> to[m] < from[n])
    && (forall i :: 0 <= i < |text| ==> (!Space(text[i]) <==> Within(from, to, i)))
  }

  lemma {:induction false} TokensAre(text: string) returns (from: seq<nat>, to: seq<nat>)
    ensures Stretches(text, Tokens(text), from, to)
  {
    if text == [] {
      from, to := [], [];
    } else {
      var front, c := text[..|text| - 1], text[|text| - 1];
      from, to := TokensAre(front);
      from, to := StretchesStep(front, c, Tokens(front), from, to);
      assert text == front + [c];
    }
  }

  lemma StretchesStep(front: string, c: char, tokens: seq<string>, from: seq<nat>, to: seq<nat>)
    returns (a: seq<nat>, z: seq<nat>)
    requires Stretches(front, tokens, from, to)
    ensures Stretches(front + [c], More(front, c, tokens), a, z)
  {
    if Space(c) {
      OneMoreChar(front, c, tokens, from, to);
      a, z := from, to;
    } else if front != [] && !Space(front[|front| - 1]) {
      LastEnds(front, tokens, from, to);
      Lengthens(front, c, tokens, from, to);
      a, z := from, to[|tokens| - 1 := |front| + 1];
    } else {
      NoneEnds(front, tokens, from, to);
      a, z := from + [|front|], to + [|front| + 1];
      Begins(front, c, tokens, from, to, a, z);
    }
  }

  /** What stood in the front still stands in the longer text. */
  lemma OneMoreChar(front: string, c: char, tokens: seq<string>, from: seq<nat>, to: seq<nat>)
    requires Stretches(front, tokens, from, to)
    ensures forall n :: 0 <= n < |tokens| ==> tokens[n] == (front + [c])[from[n]..to[n]]
    ensures !Within(from, to, |front|)
  {}

  lemma LastEnds(front: string, tokens: seq<string>, from: seq<nat>, to: seq<nat>)
    requires Stretches(front, tokens, from, to) && front != [] && !Space(front[|front| - 1])
    ensures to != [] && to[|to| - 1] == |front|
  {
    assert Within(from, to, |front| - 1);
    var n :| 0 <= n < |from| && from[n] <= |front| - 1 < to[n];
    var k := |tokens| - 1;
    assert to[n] <= to[k];
  }

  lemma NoneEnds(front: string, tokens: seq<string>, from: seq<nat>, to: seq<nat>)
    requires Stretches(front, tokens, from, to) && (front == [] || Space(front[|front| - 1]))
    ensures forall n :: 0 <= n < |tokens| ==> to[n] < |front|
  {
    forall n | 0 <= n < |tokens| ensures to[n] < |front| {
      if to[n] == |front| { assert Within(from, to, |front| - 1); }
    }
  }

  lemma Begins(front: string, c: char, tokens: seq<string>, from: seq<nat>, to: seq<nat>, a: seq<nat>, z: seq<nat>)
    requires Stretches(front, tokens, from, to) && !Space(c) && forall n :: 0 <= n < |tokens| ==> to[n] < |front|
    requires a == from + [|front|] && z == to + [|front| + 1]
    ensures Stretches(front + [c], tokens + [[c]], a, z)
  {
    var text, all_ := front + [c], tokens + [[c]];
    OneMoreChar(front, c, tokens, from, to);
    assert all_[|tokens|] == text[a[|tokens|]..z[|tokens|]];
    forall i | 0 <= i < |text| ensures !Space(text[i]) <==> Within(a, z, i) {
      if i < |front| {
        assert text[i] == front[i];
        if Within(from, to, i) {
          var n :| 0 <= n < |from| && from[n] <= i < to[n];
          assert a[n] <= i < z[n];
        }
        if Within(a, z, i) {
          var n :| 0 <= n < |a| && a[n] <= i < z[n];
          assert from[n] <= i < to[n];
        }
      } else {
        assert a[|tokens|] <= i < z[|tokens|];
      }
    }
  }

  lemma Lengthens(front: string, c: char, tokens: seq<string>, from: seq<nat>, to: seq<nat>)
    requires Stretches(front, tokens, from, to) && !Space(c) && to != [] && to[|to| - 1] == |front|
    ensures var k := |tokens| - 1;
            Stretches(front + [c], tokens[k := tokens[k] + [c]], from, to[k := |front| + 1])
  {
    var k, text := |tokens| - 1, front + [c];
    var all_, z := tokens[k := tokens[k] + [c]], to[k := |front| + 1];
    OneMoreChar(front, c, tokens, from, to);
    assert text[from[k]..z[k]] == text[from[k]..to[k]] + [c];
    forall i | 0 <= i < |text| ensures !Space(text[i]) <==> Within(from, z, i) {
      LongerCovers(from, to, z, |front|, i);
      if i < |front| { assert text[i] == front[i]; }
    }
  }

  /** A last stretch that is one longer covers one position more. */
  lemma LongerCovers(from: seq<nat>, to: seq<nat>, z: seq<nat>, n: nat, i: nat)
    requires |from| == |to| > 0 && to[|to| - 1] == n && from[|to| - 1] < n && z == to[|to| - 1 := n + 1] && i <= n
    ensures Within(from, z, i) <==> i == n || Within(from, to, i)
  {
    if Within(from, to, i) {
      var m :| 0 <= m < |from| && from[m] <= i < to[m];
      assert from[m] <= i < z[m];
    }
    if i == n { assert from[|to| - 1] <= i < z[|to| - 1]; }
    if i < n && Within(from, z, i) {
      var m :| 0 <= m < |from| && from[m] <= i < z[m];
      assert from[m] <= i < to[m];
    }
  }

  /** Words without times of their own follow each other without a gap, all of one length, over the whole segment. */
  lemma SpreadTiles(t: Transcript, tokens: seq<string>)
    ensures var words := Spread(t, tokens);
            && |words| == |tokens|
            && (forall i :: 0 <= i < |words| ==> words[i].text == tokens[i])
            && (words != [] ==> words[0].startAt == t.startAt && words[|words| - 1].endAt == t.endAt)
            && (forall i, j :: 0 <= i < |words| && j == i + 1 < |words| ==> words[j].startAt == words[i].endAt)
            && (forall i :: 0 <= i < |words| ==>
                  words[i].endAt - words[i].startAt == (t.endAt - t.startAt) / (|words| as real))
  {
    if tokens != [] { MarkEnds(t, |tokens|); }
    forall i | 0 <= i < |tokens|
      ensures Mark(t, i + 1, |tokens|) - Mark(t, i, |tokens|) == (t.endAt - t.startAt) / (|tokens| as real)
    {
      MarkStep(t, i, |tokens|);
    }
  }

  lemma MarkStep(t: Transcript, i: nat, n: nat)
    requires n > 0
    ensures Mark(t, i + 1, n) - Mark(t, i, n) == (t.endAt - t.startAt) / (n as real)
  {
    assert (i + 1) as real == i as real + 1.0;
    Share(t.endAt - t.startAt, i as real, n as real);
  }

  lemma MarkEnds(t: Transcript, n: nat)
    requires n > 0
    ensures Mark(t, 0, n) == t.startAt && Mark(t, n, n) == t.endAt
  {}

  lemma Share(d: real, a: real, n: real)
    requires n > 0.0
    ensures d * (a + 1.0) / n - d * a / n == d / n
  {
    assert d * (a + 1.0) == d * a + d;
  }

  function WordsOf(t: Transcript): seq<Word> {
    if t.words != [] then t.words else Spread(t, Tokens(t.text))
  }

  /** A segment without word times that crosses the frame boundary cannot be split. */
  predicate Usable(f: Frame, t: Transcript) {
    t.words != [] || t.endAt <= f.throughAt
  }

  predicate InTime(f: Frame, w: Word) {
    w.endAt <= f.throughAt && (f.maxAge.Some? ==> w.endAt >= f.throughAt - f.maxAge.value)
  }

  /** The words among the first `n` of a transcript that the frame may hear. */
  function Heard(f: Frame, t: Transcript, n: nat): seq<Spoken>
    requires n <= |WordsOf(t)|
  {
    if n == 0 then []
    else Heard(f, t, n - 1) + if InTime(f, WordsOf(t)[n - 1]) then [Spoken(t, n - 1, WordsOf(t)[n - 1])] else []
  }

  function HeardOf(f: Frame, t: Transcript): seq<Spoken> {
    if Usable(f, t) then Heard(f, t, |WordsOf(t)|) else []
  }

  function Rows(f: Frame, latest: map<string, Transcript>, segments: seq<string>): seq<Spoken>
    requires forall s :: s in segments ==> s in latest
  {
    if segments == [] then []
    else Rows(f, latest, segments[..|segments| - 1]) + HeardOf(f, latest[segments[|segments| - 1]])
  }

  /** What the frame may hear of a revision: a word of it in time. */
  predicate Eligible(f: Frame, r: Spoken) {
    Usable(f, r.t) && r.index < |WordsOf(r.t)| && r.word == WordsOf(r.t)[r.index] && InTime(f, r.word)
  }

  /** A word may be heard if it ends by the frame and is not too old: one with its own times, or one of the evenly
      spread words of a segment that has none and lies before the frame. */
  lemma EligibleMeans(f: Frame, r: Spoken)
    ensures Eligible(f, r) <==>
              && r.word.endAt <= f.throughAt
              && (f.maxAge.Some? ==> f.throughAt - r.word.endAt <= f.maxAge.value)
              && (if r.t.words != [] then r.index < |r.t.words| && r.word == r.t.words[r.index]
                  else
                    && r.t.endAt <= f.throughAt && r.index < |Tokens(r.t.text)|
                    && r.word == Spread(r.t, Tokens(r.t.text))[r.index])
  {}

  lemma {:induction false} HeardIs(f: Frame, t: Transcript, n: nat)
    requires n <= |WordsOf(t)| && Usable(f, t)
    ensures forall r :: r in Heard(f, t, n) <==> r.t == t && Eligible(f, r) && r.index < n
    ensures forall i, j :: 0 <= i < j < |Heard(f, t, n)| ==> Heard(f, t, n)[i].index < Heard(f, t, n)[j].index
  {
    if n > 0 {
      HeardIs(f, t, n - 1);
      var h := Heard(f, t, n - 1);
      forall i | 0 <= i < |h| ensures h[i].index < n - 1 { assert h[i] in h; }
    }
  }

  lemma HeardOfIs(f: Frame, t: Transcript)
    ensures forall r :: r in HeardOf(f, t) <==> r.t == t && Eligible(f, r)
    ensures forall i, j :: 0 <= i < j < |HeardOf(f, t)| ==> HeardOf(f, t)[i].index < HeardOf(f, t)[j].index
  {
    if Usable(f, t) { HeardIs(f, t, |WordsOf(t)|); }
  }

  ghost predicate Distinct(segments: seq<string>) {
    forall i, j :: 0 <= i < j < |segments| ==> segments[i] != segments[j]
  }

  ghost predicate Keyed(latest: map<string, Transcript>) {
    forall s :: s in latest ==> latest[s].segment == s
  }

  /** Rows of one segment stand in the order of its words. */
  predicate InWordOrder(rows: seq<Spoken>) {
    forall i, j :: 0 <= i < j < |rows| && rows[i].t.segment == rows[j].t.segment ==>
      rows[i].t == rows[j].t && rows[i].index < rows[j].index
  }

  lemma {:induction false} RowsAre(f: Frame, latest: map<string, Transcript>, segments: seq<string>)
    requires (forall s :: s in segments ==> s in latest) && Distinct(segments) && Keyed(latest)
    ensures forall r :: r in Rows(f, latest, segments) <==>
          r.t.segment in segments && r.t == latest[r.t.segment] && Eligible(f, r)
    ensures InWordOrder(Rows(f, latest, segments))
  {
    if segments != [] {
      var front, s := segments[..|segments| - 1], segments[|segments| - 1];
      RowsAre(f, latest, front);
      HeardOfIs(f, latest[s]);
      forall i | 0 <= i < |front| ensures front[i] != s { assert segments[i] != segments[|segments| - 1]; }
      assert segments == front + [s];
      var a, b := Rows(f, latest, front), HeardOf(f, latest[s]);
      forall i | 0 <= i < |a| ensures a[i].t.segment != s { assert a[i] in a; }
      forall j | 0 <= j < |b| ensures b[j].t == latest[s] { assert b[j] in b; }
    }
  }

  // ---- The order ----

  /** The comparator: start time, then transcript key. */
  function BySpokenTime(order: (Id, Id) -> bool): (Spoken, Spoken) -> bool {
    (a, b) => Before(order, a, b)
  }

  predicate Before(order: (Id, Id) -> bool, a: Spoken, b: Spoken) {
    a.word.startAt < b.word.startAt || (a.word.startAt == b.word.startAt && order(a.t.Key(), b.t.Key()))
  }

  /** ... and then the position in the transcript. */
  predicate StrictlyBefore(order: (Id, Id) -> bool, a: Spoken, b: Spoken) {
    a.word.startAt < b.word.startAt
    || (a.word.startAt == b.word.startAt && a.t.Key() != b.t.Key() && order(a.t.Key(), b.t.Key()))
    || (a.word.startAt == b.word.startAt && a.t.Key() == b.t.Key() && a.index <= b.index)
  }

  function ByPosition(order: (Id, Id) -> bool): (Spoken, Spoken) -> bool {
    (a, b) => StrictlyBefore(order, a, b)
  }

  function Ordered(f: Frame, order: (Id, Id) -> bool, revisions: seq<Transcript>): seq<Spoken> {
    SegmentsAre(revisions);
    Sort(BySpokenTime(order), Rows(f, LatestOf(revisions), Segments(revisions)))
  }

  function Count(f: Frame): nat {
    if f.maxWords > 1 then f.maxWords else 1
  }

  function LastOf<T>(s: seq<T>, n: nat): seq<T> {
    if |s| <= n then s else s[|s| - n..]
  }

  function Selected(f: Frame, order: (Id, Id) -> bool, revisions: seq<Transcript>): seq<Spoken> {
    LastOf(Ordered(f, order, revisions), Count(f))
  }

  /** The newest revisions decide which rows there are; their order is the order of spoken time. */
  lemma OrderedIs(f: Frame, order: (Id, Id) -> bool, revisions: seq<Transcript>)
    requires TotalOrder(order)
    ensures var rows := Ordered(f, order, revisions); var latest := LatestOf(revisions);
            && Sorted(ByPosition(order), rows)
            && (forall r :: r in rows <==> r.t.segment in latest && r.t == latest[r.t.segment] && Eligible(f, r))
            && (forall r :: multiset(rows)[r] <= 1)
  {
    LatestIs(revisions);
    SegmentsAre(revisions);
    var latest, segments := LatestOf(revisions), Segments(revisions);
    var rows := Rows(f, latest, segments);
    RowsAre(f, latest, segments);
    SortSorted(BySpokenTime(order), ByPosition(order), rows);
    SortHolds(BySpokenTime(order), rows);
    OnceEach(rows);
  }

  lemma {:induction false} OnceEach(rows: seq<Spoken>)
    requires InWordOrder(rows)
    ensures forall r :: multiset(rows)[r] == if r in rows then 1 else 0
  {
    if rows != [] {
      var front := rows[..|rows| - 1];
      OnceEach(front);
      assert rows == front + [rows[|rows| - 1]];
      forall i | 0 <= i < |front| ensures front[i] != rows[|rows| - 1] {
        assert front[i] == rows[i];
      }
    }
  }

  /** Neither the order of arrival nor superseded revisions matter: two histories with the same newest revisions
      give the same window. */
  lemma ArrivalDoesNotMatter(f: Frame, order: (Id, Id) -> bool, a: seq<Transcript>, b: seq<Transcript>)
    requires TotalOrder(order) && RevisionsUnique(a) && RevisionsUnique(b) && forall t :: Newest(a, t) <==> Newest(b, t)
    ensures TranscriptWindow(f, order, a) == TranscriptWindow(f, order, b)
  {
    LatestByNewest(a, b);
    OrderedIs(f, order, a);
    OrderedIs(f, order, b);
    var x, y := Ordered(f, order, a), Ordered(f, order, b);
    forall r ensures multiset(x)[r] == multiset(y)[r] {
      assert r in multiset(x) <==> r in x;
      assert r in multiset(y) <==> r in y;
    }
    assert multiset(x) == multiset(y);
    forall r, q | r in x && q in x && Tied(ByPosition(order), r, q) ensures r == q {
      assert r.t.Key() == q.t.Key() && r.index == q.index;
    }
    SortedUnique(ByPosition(order), x, y);
  }

  /** A reordering of a history has the same newest revisions. */
  lemma ReorderingKeepsNewest(a: seq<Transcript>, b: seq<Transcript>)
    requires multiset(a) == multiset(b)
    ensures forall t :: Newest(a, t) <==> Newest(b, t)
    ensures RevisionsUnique(a) <==> RevisionsUnique(b)
  {
    forall t ensures t in a <==> t in b {
      assert t in a <==> t in multiset(a);
      assert t in b <==> t in multiset(b);
    }
  }

  // ---- Groups ----

  function WordsWith(selected: seq<Spoken>, key: Id): seq<Word> {
    if selected == [] then []
    else WordsWith(selected[..|selected| - 1], key) +
         if selected[|selected| - 1].t.Key() == key then [selected[|selected| - 1].word] else []
  }

  function FindGroup(groups: seq<Group>, key: Id): (i: int)
    ensures i >= 0 ==> i < |groups| && groups[i].t.Key() == key
    ensures i < 0 ==> forall j :: 0 <= j < |groups| ==> groups[j].t.Key() != key
  {
    if groups == [] then -1
    else if groups[|groups| - 1].t.Key() == key then |groups| - 1
    else FindGroup(groups[..|groups| - 1], key)
  }

  function Add(groups: seq<Group>, r: Spoken): seq<Group> {
    var i := FindGroup(groups, r.t.Key());
    if i < 0 then groups + [Group(r.t, [r.word], r.word.startAt, r.word.endAt)]
    else
      var g := groups[i];
      groups[i := g.(words := g.words + [r.word], endAt := if g.endAt >= r.word.endAt then g.endAt else r.word.endAt)]
  }

  function Groups(selected: seq<Spoken>): seq<Group> {
    if selected == [] then [] else Add(Groups(selected[..|selected| - 1]), selected[|selected| - 1])
  }

  function Texts(selected: seq<Spoken>): seq<Word> {
    seq(|selected|, i requires 0 <= i < |selected| => selected[i].word)
  }

  function TranscriptWindow(f: Frame, order: (Id, Id) -> bool, revisions: seq<Transcript>): Audio {
    var selected := Selected(f, order, revisions);
    Audio(Texts(selected), Groups(selected))
  }

  predicate Contains(selected: seq<Spoken>, key: Id) {
    exists i :: 0 <= i < |selected| && selected[i].t.Key() == key
  }

  lemma ContainsStep(front: seq<Spoken>, r: Spoken, key: Id)
    ensures Contains(front + [r], key) <==> Contains(front, key) || r.t.Key() == key
  {
    if Contains(front, key) {
      var i :| 0 <= i < |front| && front[i].t.Key() == key;
      assert (front + [r])[i].t.Key() == key;
    }
    if r.t.Key() == key { assert (front + [r])[|front|].t.Key() == key; }
  }

  ghost predicate Partition(groups: seq<Group>, selected: seq<Spoken>) {
    && (forall i, j :: 0 <= i < j < |groups| ==> groups[i].t.Key() != groups[j].t.Key())
    && (forall i :: 0 <= i < |groups| ==>
          groups[i].words == WordsWith(selected, groups[i].t.Key()) && groups[i].words != [])
    && (forall k :: Contains(selected, k) <==> FindGroup(groups, k) >= 0)
  }

  /** One group for each transcript with selected words, holding those words in order; nothing else. */
  lemma {:induction false} GroupsPartition(selected: seq<Spoken>)
    ensures Partition(Groups(selected), selected)
  {
    if selected != [] {
      var front, r := selected[..|selected| - 1], selected[|selected| - 1];
      GroupsPartition(front);
      AddPartition(Groups(front), front, r);
      assert selected == front + [r];
    }
  }

  lemma AddPartition(groups: seq<Group>, front: seq<Spoken>, r: Spoken)
    requires Partition(groups, front)
    ensures Partition(Add(groups, r), front + [r])
  {
    var g, at := Add(groups, r), FindGroup(groups, r.t.Key());
    forall k ensures Contains(front + [r], k) <==> FindGroup(g, k) >= 0 {
      ContainsStep(front, r, k);
      AddFinds(groups, r, k);
    }
    if at < 0 { NoneWith(front, r.t.Key()); }
    forall i | 0 <= i < |g| ensures g[i].words == WordsWith(front + [r], g[i].t.Key()) && g[i].words != [] {
    }
  }

  lemma AddFinds(groups: seq<Group>, r: Spoken, key: Id)
    ensures FindGroup(Add(groups, r), key) >= 0 <==> FindGroup(groups, key) >= 0 || r.t.Key() == key
  {
    var i, g := FindGroup(groups, r.t.Key()), Add(groups, r);
    if FindGroup(groups, key) >= 0 { assert g[FindGroup(groups, key)].t.Key() == key; }
    if r.t.Key() == key { assert g[if i < 0 then |groups| else i].t.Key() == key; }
    var at := FindGroup(g, key);
    if at >= 0 && at < |groups| { assert groups[at].t.Key() == key; }
  }

  lemma {:induction false} NoneWith(selected: seq<Spoken>, key: Id)
    requires !Contains(selected, key)
    ensures WordsWith(selected, key) == []
  {
    if selected != [] {
      var front := selected[..|selected| - 1];
      ContainsStep(front, selected[|selected| - 1], key);
      assert selected == front + [selected[|selected| - 1]];
      NoneWith(front, key);
    }
  }

  /** A group spans its words: from the start of the first to the latest end. */
  predicate Spans(g: Group) {
    && g.words != [] && g.startAt == g.words[0].startAt
    && (forall i :: 0 <= i < |g.words| ==> g.words[i].endAt <= g.endAt)
    && exists i :: 0 <= i < |g.words| && g.words[i].endAt == g.endAt
  }

  lemma {:induction false} GroupsSpan(selected: seq<Spoken>)
    ensures forall i :: 0 <= i < |Groups(selected)| ==> Spans(Groups(selected)[i])
  {
    if selected != [] {
      var n := |selected| - 1;
      var before, r := Groups(selected[..n]), selected[n];
      GroupsSpan(selected[..n]);
      var at := FindGroup(before, r.t.Key());
      if at >= 0 { SpanGrows(before[at], r.word); } else { OneSpans(Group(r.t, [r.word], r.word.startAt, r.word.endAt)); }
    }
  }

  lemma OneSpans(g: Group)
    requires |g.words| == 1 && g.startAt == g.words[0].startAt && g.endAt == g.words[0].endAt
    ensures Spans(g)
  {}

  lemma SpanGrows(g: Group, w: Word)
    requires Spans(g)
    ensures Spans(g.(words := g.words + [w], endAt := if g.endAt >= w.endAt then g.endAt else w.endAt))
  {
    var more := g.words + [w];
    var i :| 0 <= i < |g.words| && g.words[i].endAt == g.endAt;
    assert more[i].endAt == g.endAt && more[|g.words|] == w;
  }

  /** The group is the transcript's of the selected word at the position, the first of its key. */
  predicate FirstOf(g: Group, selected: seq<Spoken>, p: nat) {
    && p < |selected| && selected[p].t == g.t
    && forall q :: 0 <= q < p ==> selected[q].t.Key() != g.t.Key()
  }

  ghost predicate InOrderOf(groups: seq<Group>, selected: seq<Spoken>, at: seq<nat>) {
    && |at| == |groups| && (forall i :: 0 <= i < |groups| ==> FirstOf(groups[i], selected, at[i]))
    && forall i, j :: 0 <= i < j < |at| ==> at[i] < at[j]
  }

  /** The groups stand in the order in which their transcripts are first heard. */
  lemma {:induction false} GroupsInOrder(selected: seq<Spoken>) returns (at: seq<nat>)
    ensures InOrderOf(Groups(selected), selected, at)
  {
    if selected == [] {
      at := [];
    } else {
      var n := |selected| - 1;
      var front, r := selected[..n], selected[n];
      at := GroupsInOrder(front);
      GroupsPartition(front);
      assert selected == front + [r];
      OrderGrows(Groups(front), front, r, at);
      if FindGroup(Groups(front), r.t.Key()) < 0 { at := at + [n]; }
    }
  }

  lemma OrderGrows(groups: seq<Group>, front: seq<Spoken>, r: Spoken, at: seq<nat>)
    requires InOrderOf(groups, front, at) && Partition(groups, front)
    ensures InOrderOf(Add(groups, r), front + [r], if FindGroup(groups, r.t.Key()) < 0 then at + [|front|] else at)
  {
    var more, i := front + [r], FindGroup(groups, r.t.Key());
    forall j | 0 <= j < |groups| ensures FirstOf(groups[j], more, at[j]) {
      assert FirstOf(groups[j], front, at[j]);
    }
    if i < 0 {
      forall q | 0 <= q < |front| ensures more[q].t.Key() != r.t.Key() {
        assert Contains(front, front[q].t.Key());
      }
      assert FirstOf(Add(groups, r)[|groups|], more, |front|);
    } else {
      assert FirstOf(Add(groups, r)[i], more, at[i]);
    }
  }

  function TotalWords(groups: seq<Group>): nat {
    if groups == [] then 0 else TotalWords(groups[..|groups| - 1]) + |groups[|groups| - 1].words|
  }

  lemma {:induction false} GroupGrows(groups: seq<Group>, i: nat, g: Group)
    requires i < |groups|
    ensures TotalWords(groups[i := g]) == TotalWords(groups) - |groups[i].words| + |g.words|
    decreases |groups|
  {
    var front := groups[..|groups| - 1];
    if i < |front| {
      GroupGrows(front, i, g);
      assert groups[i := g][..|groups| - 1] == front[i := g];
    } else {
      assert groups[i := g][..|groups| - 1] == front;
    }
  }

  /** No word is lost or doubled in the groups. */
  lemma {:induction false} GroupsLoseNothing(selected: seq<Spoken>)
    ensures TotalWords(Groups(selected)) == |selected|
  {
    if selected != [] {
      var front, r := selected[..|selected| - 1], selected[|selected| - 1];
      GroupsLoseNothing(front);
      var b := Groups(front);
      var i := FindGroup(b, r.t.Key());
      if i >= 0 {
        GroupGrows(b, i, Add(b, r)[i]);
      } else {
        assert Add(b, r)[..|b|] == b;
      }
    }
  }

  /** The window is the last words, by spoken time, that end by the frame: as many as asked for, or all there are;
      each is a word of the newest revision of its segment, and no eligible word that was left out comes after a
      selected one. */
  lemma WindowIsTheLastWords(f: Frame, order: (Id, Id) -> bool, revisions: seq<Transcript>)
    requires TotalOrder(order)
    ensures var all_, sel := Ordered(f, order, revisions), Selected(f, order, revisions);
            && |sel| == (if |all_| <= Count(f) then |all_| else Count(f))
            && |TranscriptWindow(f, order, revisions).words| == |sel|
              == TotalWords(TranscriptWindow(f, order, revisions).segments)
            && (forall i :: 0 <= i < |sel| ==> TranscriptWindow(f, order, revisions).words[i] == sel[i].word)
            && Sorted(ByPosition(order), sel)
            && (forall r :: r in sel ==> Newest(revisions, r.t) && Eligible(f, r) && r.word.endAt <= f.throughAt)
            && (forall r: Spoken ::
                  Newest(revisions, r.t) && RevisionsUnique(revisions) && Eligible(f, r) && r !in sel ==>
                  forall q :: q in sel ==> StrictlyBefore(order, r, q))
  {
    var all_, sel := Ordered(f, order, revisions), Selected(f, order, revisions);
    OrderedIs(f, order, revisions);
    LatestIs(revisions);
    GroupsLoseNothing(sel);
    forall r | r in sel ensures Newest(revisions, r.t) && Eligible(f, r) { assert r in all_; }
    forall r: Spoken, q: Spoken | Newest(revisions, r.t) && RevisionsUnique(revisions) && Eligible(f, r) && r !in sel
      && q in sel
      ensures StrictlyBefore(order, r, q)
    {
      assert LatestOf(revisions)[r.t.segment].Key() == r.t.Key();
    }
  }

  // ---- The signature of what was said for good ----

  datatype Signed = Signed(key: Id, words: seq<Word>)

  /** Final segments only: a partial that is revised does not change it. */
  function Signature(groups: seq<Group>): seq<Signed> {
    if groups == [] then []
    else Signature(groups[..|groups| - 1]) +
         if groups[|groups| - 1].t.final then [Signed(groups[|groups| - 1].t.Key(), groups[|groups| - 1].words)] else []
  }

  predicate At(at: seq<nat>, i: nat) {
    exists j :: 0 <= j < |at| && at[j] == i
  }

  /** The positions, in order, of the groups whose transcript is final. */
  ghost predicate FinalAt(groups: seq<Group>, at: seq<nat>) {
    && (forall j :: 0 <= j < |at| ==> at[j] < |groups| && groups[at[j]].t.final)
    && (forall i, j :: 0 <= i < j < |at| ==> at[i] < at[j])
    && (forall i: nat :: i < |groups| && groups[i].t.final ==> At(at, i))
  }

  lemma {:induction false} FinalExist(groups: seq<Group>) returns (at: seq<nat>)
    ensures FinalAt(groups, at)
  {
    if groups == [] {
      at := [];
    } else {
      var n := |groups| - 1;
      at := FinalExist(groups[..n]);
      if groups[n].t.final {
        FinalAppend(groups, at);
        at := at + [n];
      }
    }
  }

  lemma FinalAppend(groups: seq<Group>, at: seq<nat>)
    requires groups != [] && groups[|groups| - 1].t.final && FinalAt(groups[..|groups| - 1], at)
    ensures FinalAt(groups, at + [|groups| - 1])
  {
    var n := |groups| - 1;
    var more := at + [n];
    forall i: nat | i < |groups| && groups[i].t.final ensures At(more, i) {
      if i < n {
        assert groups[..n][i].t.final;
        var j :| 0 <= j < |at| && at[j] == i;
        assert more[j] == i;
      } else {
        assert more[|at|] == i;
      }
    }
  }

  lemma FinalFront(groups: seq<Group>, at: seq<nat>)
    requires groups != [] && FinalAt(groups, at)
    ensures !groups[|groups| - 1].t.final ==> FinalAt(groups[..|groups| - 1], at)
    ensures groups[|groups| - 1].t.final ==>
              at != [] && at[|at| - 1] == |groups| - 1 && FinalAt(groups[..|groups| - 1], at[..|at| - 1])
  {
    var n := |groups| - 1;
    var front := groups[..n];
    if groups[n].t.final {
      var m := |at| - 1;
      assert At(at, n);
      var j :| 0 <= j < |at| && at[j] == n;
      assert at[j] <= at[m];
      forall i: nat | i < |front| && front[i].t.final ensures At(at[..m], i) {
        assert groups[i].t.final;
        var k :| 0 <= k < |at| && at[k] == i;
        assert at[..m][k] == i;
      }
    }
  }

  lemma FirstFinal(groups: seq<Group>, at: seq<nat>)
    requires FinalAt(groups, at)
    ensures at == [] || groups != []
  {
    if at != [] { assert at[0] < |groups|; }
  }

  predicate SignedAt(groups: seq<Group>, at: seq<nat>, signature: seq<Signed>) {
    && |signature| == |at|
    && forall j :: 0 <= j < |at| ==>
         at[j] < |groups| && signature[j] == Signed(groups[at[j]].t.Key(), groups[at[j]].words)
  }

  /** A group contributes its key and words exactly when its transcript is final, in the order of the groups. */
  lemma {:induction false} SignatureIs(groups: seq<Group>, at: seq<nat>)
    requires FinalAt(groups, at)
    ensures SignedAt(groups, at, Signature(groups))
    decreases |groups|
  {
    if groups == [] {
      FirstFinal(groups, at);
    } else {
      var n := |groups| - 1;
      FinalFront(groups, at);
      if groups[n].t.final {
        SignatureIs(groups[..n], at[..|at| - 1]);
        SignedMore(groups, at, Signature(groups[..n]));
      } else {
        SignatureIs(groups[..n], at);
        SignedWider(groups, at, Signature(groups[..n]));
      }
    }
  }

  lemma SignedMore(groups: seq<Group>, at: seq<nat>, before: seq<Signed>)
    requires groups != [] && at != [] && at[|at| - 1] == |groups| - 1
    requires SignedAt(groups[..|groups| - 1], at[..|at| - 1], before)
    ensures SignedAt(groups, at, before + [Signed(groups[|groups| - 1].t.Key(), groups[|groups| - 1].words)])
  {
    forall j | 0 <= j < |before|
      ensures at[j] < |groups| && before[j] == Signed(groups[at[j]].t.Key(), groups[at[j]].words)
    {
      assert at[..|at| - 1][j] == at[j];
    }
  }

  lemma SignedWider(groups: seq<Group>, at: seq<nat>, before: seq<Signed>)
    requires groups != [] && SignedAt(groups[..|groups| - 1], at, before)
    ensures SignedAt(groups, at, before + [])
  {
    assert before + [] == before;
  }

  /** The groups at some positions agree in key and words, one by one. */
  ghost predicate Agree(a: seq<Group>, p: seq<nat>, b: seq<Group>, q: seq<nat>)
    requires FinalAt(a, p) && FinalAt(b, q)
  {
    |p| == |q| && forall j :: 0 <= j < |p| ==> a[p[j]].t.Key() == b[q[j]].t.Key() && a[p[j]].words == b[q[j]].words
  }

  /** The same final transcripts with the same words, in the same order. */
  ghost predicate SameFinals(a: seq<Group>, b: seq<Group>) {
    exists p: seq<nat>, q: seq<nat> :: FinalAt(a, p) && FinalAt(b, q) && Agree(a, p, b, q)
  }

  /** Two windows have equal signatures exactly when their final groups agree in key and words. */
  lemma SignaturesAgree(a: seq<Group>, b: seq<Group>)
    ensures Signature(a) == Signature(b) <==> SameFinals(a, b)
  {
    if SameFinals(a, b) {
      var p: seq<nat>, q: seq<nat> :| FinalAt(a, p) && FinalAt(b, q) && Agree(a, p, b, q);
      AgreeMeans(a, p, b, q);
    }
    if Signature(a) == Signature(b) {
      var p := FinalExist(a);
      var q := FinalExist(b);
      AgreeMeans(a, p, b, q);
    }
  }

  lemma AgreeMeans(a: seq<Group>, p: seq<nat>, b: seq<Group>, q: seq<nat>)
    requires FinalAt(a, p) && FinalAt(b, q)
    ensures Signature(a) == Signature(b) <==> Agree(a, p, b, q)
  {
    SignatureIs(a, p);
    SignatureIs(b, q);
    var x, y := Signature(a), Signature(b);
    if Agree(a, p, b, q) {
      forall j | 0 <= j < |x| ensures x[j] == y[j] {}
    }
    if x == y {
      forall j | 0 <= j < |p| ensures a[p[j]].t.Key() == b[q[j]].t.Key() && a[p[j]].words == b[q[j]].words {
        assert x[j] == y[j];
      }
    }
  }

  // ---- The loops ----

  method CollectLatest(revisions: seq<Transcript>) returns (latest: map<string, Transcript>, segments: seq<string>)
    ensures latest == LatestOf(revisions) && segments == Segments(revisions)
  {
    latest, segments := map[], [];
    for i := 0 to |revisions|
      invariant latest == LatestOf(revisions[..i]) && segments == Segments(revisions[..i])
    {
      assert revisions[..i + 1][..i] == revisions[..i];
      SegmentsAre(revisions[..i]);
      var t := revisions[i];
      if t.segment !in latest {
        segments := segments + [t.segment];
      }
      if t.segment !in latest || t.revision > latest[t.segment].revision {
        latest := latest[t.segment := t];
      }
    }
    assert revisions[..|revisions|] == revisions;
  }

  method BuildWindow(f: Frame, order: (Id, Id) -> bool, revisions: seq<Transcript>) returns (audio: Audio)
    ensures audio == TranscriptWindow(f, order, revisions)
  {
    var latest, segments := CollectLatest(revisions);
    SegmentsAre(revisions);
    var rows := [];
    for i := 0 to |segments|
      invariant rows == Rows(f, latest, segments[..i])
    {
      assert segments[..i + 1][..i] == segments[..i];
      rows := rows + HeardOf(f, latest[segments[i]]);
    }
    assert segments[..|segments|] == segments;
    var selected := LastOf(Sort(BySpokenTime(order), rows), Count(f));
    var groups := GroupWords(selected);
    audio := Audio(Texts(selected), groups);
  }

  method GroupWords(selected: seq<Spoken>) returns (groups: seq<Group>)
    ensures groups == Groups(selected)
  {
    groups := [];
    for i := 0 to |selected|
      invariant groups == Groups(selected[..i])
    {
      assert selected[..i + 1][..i] == selected[..i];
      groups := Add(groups, selected[i]);
    }
    assert selected[..|selected|] == selected;
  }
}
