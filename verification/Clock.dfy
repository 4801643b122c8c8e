/** Mapping a client's clock to the server's from timed exchanges, and relating two events whose times are only
    known within bounds. */
module Clock {
  import opened Evidence
  import opened Sorting

  /** One exchange: client times are fractional, server stamps are whole milliseconds. */
  datatype Sample = Sample(clientSent: real, serverReceived: int, serverSent: int, clientReceived: real)

  datatype Estimate = Estimate(lo: real, hi: real, at: real)
  {
    function Width(): real { hi - lo }
  }

  datatype Mapping = Mapping(offset: real, uncertainty: real, measuredAt: real, drift: real)

  datatype Capture = Capture(start: real, end: real, uncertainty: real)

  const MAX_AGE: real := 60000.0

  function Abs(x: real): real {
    if x < 0.0 then -x else x
  }

  function Max(a: real, b: real): real {
    if a < b then b else a
  }

  // ---- The mapping ----

  function EstimateOf(s: Sample): Estimate {
    Estimate(s.serverSent as real - s.clientReceived - 1.0, s.serverReceived as real - s.clientSent + 1.0,
             s.clientReceived)
  }

  predicate ValidSample(s: Sample) {
    s.clientReceived >= s.clientSent && s.serverSent >= s.serverReceived && EstimateOf(s).lo <= EstimateOf(s).hi
  }

  function ByWidth(): (Estimate, Estimate) -> bool {
    (a: Estimate, b: Estimate) => a.Width() <= b.Width()
  }

  function Estimates(samples: seq<Sample>): seq<Estimate> {
    seq(|samples|, i requires 0 <= i < |samples| => EstimateOf(samples[i]))
  }

  function MapClock(samples: seq<Sample>, drift: real): Option<Mapping> {
    if samples == [] || drift < 0.0 || exists i :: 0 <= i < |samples| && !ValidSample(samples[i]) then None
    else
      SortHolds(ByWidth(), Estimates(samples));
      SameSize(Sort(ByWidth(), Estimates(samples)), Estimates(samples));
      var best := Sort(ByWidth(), Estimates(samples))[0];
      Some(Mapping((best.lo + best.hi) / 2.0, (best.hi - best.lo) / 2.0, best.at, drift))
  }

  function Age(m: Mapping, start: real, end: real): real {
    Max(Abs(start - m.measuredAt), Abs(end - m.measuredAt))
  }

  function MapCapture(m: Mapping, start: real, end: real, sourceError: real): Option<Capture> {
    if end < start || sourceError < 0.0 || Age(m, start, end) > MAX_AGE then None
    else Some(Capture(start + m.offset, end + m.offset, m.uncertainty + Age(m, start, end) * m.drift + sourceError))
  }

  // ---- What really happened ----

  /** The server took the request at client time `received` and answered at `sent`; the offsets are what the server
      clock was ahead of the client clock then, and at the time of interest. */
  datatype Truth = Truth(received: real, sent: real, atReceived: real, atSent: real, atCapture: real)

  predicate Stamped(stamp: int, at: real) {
    stamp as real <= at < stamp as real + 1.0
  }

  /** Transit is not negative, the server cuts its stamps to whole milliseconds, and the offset changes by at most
      the drift rate. */
  predicate Consistent(s: Sample, x: real, drift: real, t: Truth) {
    && s.clientSent <= t.received <= t.sent <= s.clientReceived
    && Stamped(s.serverReceived, t.received + t.atReceived)
    && Stamped(s.serverSent, t.sent + t.atSent)
    && Abs(t.atSent - t.atReceived) <= drift * (t.sent - t.received)
    && Abs(t.atCapture - t.atReceived) <= drift * Abs(x - t.received)
    && Abs(t.atCapture - t.atSent) <= drift * Abs(x - t.sent)
  }

  /** The exchange can have happened with such a drift. */
  ghost predicate Explained(s: Sample, x: real, drift: real) {
    exists t :: Consistent(s, x, drift, t)
  }

  /** The reported bound holds for everything that may have happened. */
  ghost predicate BoundHolds(s: Sample, x: real, drift: real, offset: real, bound: real) {
    forall t :: Consistent(s, x, drift, t) ==> Abs(t.atCapture - offset) <= bound
  }

  lemma Scale(d: real, a: real, b: real)
    requires d >= 0.0 && a <= b
    ensures d * a <= d * b
  {}

  lemma Distribute(d: real, a: real, b: real)
    ensures d * (a - b) == d * a - d * b
    ensures d * (a + b) == d * a + d * b
  {}

  /** A point between two others is no farther than the farther of them. */
  lemma Between(x: real, a: real, p: real, b: real)
    requires a <= p <= b
    ensures Abs(x - p) <= Max(Abs(x - a), Abs(x - b))
  {}

  lemma DriftCovered(s: Sample, x: real, drift: real, age: real, err: real, p: real)
    requires drift >= 0.0 && err >= 0.0 && s.clientSent <= p <= s.clientReceived && Abs(x - s.clientReceived) <= age
    requires drift * (Abs(x - s.clientSent) - age) <= err
    ensures drift * Abs(x - p) <= drift * age + err
  {
    Between(x, s.clientSent, p, s.clientReceived);
    Distribute(drift, Abs(x - s.clientSent), age);
    if Abs(x - p) <= age {
      Scale(drift, Abs(x - p), age);
    } else {
      Scale(drift, Abs(x - p), Abs(x - s.clientSent));
    }
  }

  lemma CoveredIsSound(s: Sample, x: real, drift: real, age: real, err: real, t: Truth)
    requires Consistent(s, x, drift, t) && drift >= 0.0 && err >= 0.0 && Abs(x - s.clientReceived) <= age
    requires drift * (Abs(x - s.clientSent) - age) <= err
    ensures EstimateOf(s).lo - (drift * age + err) <= t.atCapture <= EstimateOf(s).hi + (drift * age + err)
  {
    var taken, answered, margin := Margins(s, x, drift, age, err, t);
    Cover(s, t, taken, answered, margin);
  }

  /** What the drift can have done since the request was taken and since it was answered. */
  lemma Margins(s: Sample, x: real, drift: real, age: real, err: real, t: Truth)
    returns (taken: real, answered: real, margin: real)
    requires Consistent(s, x, drift, t) && drift >= 0.0 && err >= 0.0 && Abs(x - s.clientReceived) <= age
    requires drift * (Abs(x - s.clientSent) - age) <= err
    ensures margin == drift * age + err
    ensures Abs(t.atCapture - t.atReceived) <= taken <= margin && Abs(t.atCapture - t.atSent) <= answered <= margin
  {
    margin := drift * age + err;
    taken, answered := BothDrifts(s, x, drift, age, err, t.received, t.sent, margin);
  }

  lemma BothDrifts(s: Sample, x: real, drift: real, age: real, err: real, p: real, q: real, margin: real)
    returns (d: real, e: real)
    requires drift >= 0.0 && err >= 0.0 && s.clientSent <= p <= q <= s.clientReceived
        && Abs(x - s.clientReceived) <= age
    requires drift * (Abs(x - s.clientSent) - age) <= err && margin == drift * age + err
    ensures d == drift * Abs(x - p) && d <= margin && e == drift * Abs(x - q) && e <= margin
  {
    d := DriftSince(s, x, drift, age, err, p, margin);
    e := DriftSince(s, x, drift, age, err, q, margin);
  }

  lemma DriftSince(s: Sample, x: real, drift: real, age: real, err: real, p: real, margin: real) returns (d: real)
    requires drift >= 0.0 && err >= 0.0 && s.clientSent <= p <= s.clientReceived && Abs(x - s.clientReceived) <= age
    requires drift * (Abs(x - s.clientSent) - age) <= err && margin == drift * age + err
    ensures d == drift * Abs(x - p) && d <= margin
  {
    DriftCovered(s, x, drift, age, err, p);
    d := drift * Abs(x - p);
  }

  /** The bounds in terms of the drift since the request was taken and since it was answered. */
  lemma Cover(s: Sample, t: Truth, taken: real, answered: real, margin: real)
    requires s.clientSent <= t.received <= t.sent <= s.clientReceived
    requires Stamped(s.serverReceived, t.received + t.atReceived) && Stamped(s.serverSent, t.sent + t.atSent)
    requires Abs(t.atCapture - t.atReceived) <= taken <= margin && Abs(t.atCapture - t.atSent) <= answered <= margin
    ensures EstimateOf(s).lo - margin <= t.atCapture <= EstimateOf(s).hi + margin
  {}

  /** What the server clock can advance during the round trip. */
  function RoomOf(s: Sample, drift: real): real {
    (1.0 + drift) * (s.clientReceived - s.clientSent)
  }

  /** The server time that a consistent exchange leaves room for. */
  lemma Room(s: Sample, x: real, drift: real, t: Truth)
    requires Consistent(s, x, drift, t) && drift >= 0.0
    ensures s.serverSent as real < s.serverReceived as real + 1.0 + RoomOf(s, drift)
  {
    var wait, moved := Waited(s, x, drift, t);
    StretchFits(s, drift, wait, moved);
    RoomFor(s, t, moved, RoomOf(s, drift));
  }

  /** How long the server kept the request, and how far the offset can have moved meanwhile. */
  lemma Waited(s: Sample, x: real, drift: real, t: Truth) returns (wait: real, moved: real)
    requires Consistent(s, x, drift, t) && drift >= 0.0
    ensures wait == t.sent - t.received && moved == drift * wait && wait <= s.clientReceived - s.clientSent
    ensures Abs(t.atSent - t.atReceived) <= moved
    ensures Stamped(s.serverReceived, t.received + t.atReceived) && Stamped(s.serverSent, t.sent + t.atSent)
  {
    wait, moved := t.sent - t.received, drift * (t.sent - t.received);
  }

  lemma StretchFits(s: Sample, drift: real, wait: real, moved: real)
    requires drift >= 0.0 && wait <= s.clientReceived - s.clientSent && moved == drift * wait
    ensures wait + moved <= RoomOf(s, drift)
  {
    var again := Stretch(s, drift, wait);
  }

  /** A wait and the drift during it fit the round trip and the drift during that. */
  lemma Stretch(s: Sample, drift: real, wait: real) returns (moved: real)
    requires drift >= 0.0 && wait <= s.clientReceived - s.clientSent
    ensures moved == drift * wait && wait + moved <= RoomOf(s, drift)
  {
    moved := drift * wait;
    Scale(drift, wait, s.clientReceived - s.clientSent);
    Expand(drift, s.clientReceived - s.clientSent);
  }

  lemma Expand(drift: real, span: real)
    ensures (1.0 + drift) * span == span + drift * span
  {}

  lemma RoomFor(s: Sample, t: Truth, moved: real, room: real)
    requires Stamped(s.serverReceived, t.received + t.atReceived) && Stamped(s.serverSent, t.sent + t.atSent)
    requires Abs(t.atSent - t.atReceived) <= moved && t.sent - t.received + moved <= room
    ensures s.serverSent as real < s.serverReceived as real + 1.0 + room
  {}

  /** The latest the request can have been stamped: on sending, just before the next millisecond, with the offset
      growing at the drift rate from then on. */
  function Worst(s: Sample, x: real, drift: real, e: real): Truth
    requires drift >= 0.0
  {
    var first := s.serverReceived as real + 1.0 - s.clientSent - e;
    var wait := if s.serverSent == s.serverReceived then 0.0
                else (s.serverSent as real - s.serverReceived as real - 1.0 + e) / (1.0 + drift);
    Truth(s.clientSent, s.clientSent + wait, first, first + drift * wait, first + drift * (x - s.clientSent))
  }

  lemma WaitFits(s: Sample, drift: real, e: real)
    requires drift >= 0.0 && ValidSample(s) && 0.0 < e <= 1.0 && s.serverSent > s.serverReceived
    requires e <= s.serverReceived as real + 1.0 + RoomOf(s, drift) - s.serverSent as real
    ensures var n := s.serverSent as real - s.serverReceived as real - 1.0 + e; var wait := n / (1.0 + drift);
            0.0 <= wait <= s.clientReceived - s.clientSent && wait + drift * wait == n
  {
    var n, rate := s.serverSent as real - s.serverReceived as real - 1.0 + e, 1.0 + drift;
    var wait := n / rate;
    assert wait * rate == n;
    Distribute(wait, 1.0, -drift);
    if wait > s.clientReceived - s.clientSent { Strict(rate, s.clientReceived - s.clientSent, wait); }
    if wait < 0.0 { Strict(rate, wait, 0.0); }
  }

  lemma Strict(d: real, a: real, b: real)
    requires d > 0.0 && a < b
    ensures d * a < d * b
  {}

  lemma AbsScale(d: real, a: real)
    requires d >= 0.0
    ensures Abs(d * a) == d * Abs(a)
  {}

  lemma WorstStamps(s: Sample, x: real, drift: real, e: real)
    requires drift >= 0.0 && ValidSample(s) && 0.0 < e <= 1.0
    requires e <= s.serverReceived as real + 1.0 + RoomOf(s, drift) - s.serverSent as real
    ensures var t := Worst(s, x, drift, e);
            && s.clientSent <= t.received <= t.sent <= s.clientReceived
            && Stamped(s.serverReceived, t.received + t.atReceived)
            && Stamped(s.serverSent, t.sent + t.atSent)
  {
    if s.serverSent > s.serverReceived { WaitFits(s, drift, e); }
  }

  /** Offsets that grow at the drift rate differ by no more than the drift. */
  lemma Growing(drift: real, x: real, p: real, q: real)
    requires drift >= 0.0
    ensures Abs(drift * (x - p) - drift * (q - p)) <= drift * Abs(x - q)
  {
    Distribute(drift, x - p, q - p);
    AbsScale(drift, x - q);
  }

  lemma WorstDrifts(s: Sample, x: real, drift: real, e: real)
    requires drift >= 0.0 && Worst(s, x, drift, e).sent >= s.clientSent
    ensures var t := Worst(s, x, drift, e);
            && Abs(t.atSent - t.atReceived) <= drift * (t.sent - t.received)
            && Abs(t.atCapture - t.atReceived) <= drift * Abs(x - t.received)
            && Abs(t.atCapture - t.atSent) <= drift * Abs(x - t.sent)
  {
    var t := Worst(s, x, drift, e);
    var first := t.atReceived;
    assert t.atSent == first + drift * (t.sent - t.received);
    assert t.atCapture == first + drift * (x - t.received);
    WorstDriftsOf(drift, x, t, first);
  }

  lemma WorstDriftsOf(drift: real, x: real, t: Truth, first: real)
    requires drift >= 0.0 && t.sent >= t.received && t.atReceived == first
    requires t.atSent == first + drift * (t.sent - t.received) && t.atCapture == first + drift * (x - t.received)
    ensures Abs(t.atSent - t.atReceived) <= drift * (t.sent - t.received)
    ensures Abs(t.atCapture - t.atReceived) <= drift * Abs(x - t.received)
    ensures Abs(t.atCapture - t.atSent) <= drift * Abs(x - t.sent)
  {
    Grown(drift, first, t.atSent, t.sent - t.received);
    Grown(drift, first, t.atCapture, x - t.received);
    Growing(drift, x, t.received, t.sent);
  }

  lemma Grown(drift: real, first: real, at: real, span: real)
    requires drift >= 0.0 && at == first + drift * span
    ensures Abs(at - first) <= drift * Abs(span)
    ensures span >= 0.0 ==> Abs(at - first) <= drift * span
  {
    AbsScale(drift, span);
  }

  lemma WorstIsConsistent(s: Sample, x: real, drift: real, e: real)
    requires drift >= 0.0 && ValidSample(s) && 0.0 < e <= 1.0
    requires e <= s.serverReceived as real + 1.0 + RoomOf(s, drift) - s.serverSent as real
    ensures Consistent(s, x, drift, Worst(s, x, drift, e))
  {
    WorstStamps(s, x, drift, e);
    WorstDrifts(s, x, drift, e);
  }

  /** The drift since the request was sent exceeds that over the age by no more than the source error. */
  predicate DriftAccounted(s: Sample, x: real, drift: real, age: real, err: real) {
    drift * (Abs(x - s.clientSent) - age) <= err
  }

  /** The reported uncertainty covers everything that may have happened exactly when the drift from the sending of
      the request, in place of its answer, still fits: the drift during the round trip is not accounted for. */
  lemma ReportedBoundIsSoundExactly(s: Sample, x: real, drift: real, age: real, err: real, offset: real, bound: real)
    requires ValidSample(s) && drift >= 0.0 && err >= 0.0 && Abs(x - s.clientReceived) <= age
    requires Explained(s, x, drift)
    requires offset == (EstimateOf(s).lo + EstimateOf(s).hi) / 2.0
        && bound == EstimateOf(s).Width() / 2.0 + age * drift + err
    ensures BoundHolds(s, x, drift, offset, bound) <==> DriftAccounted(s, x, drift, age, err)
  {
    if DriftAccounted(s, x, drift, age, err) {
      CoveredHolds(s, x, drift, age, err, offset, bound);
    } else {
      var some_ :| Consistent(s, x, drift, some_);
      UncoveredFails(s, x, drift, age, err, some_);
    }
  }

  lemma CoveredHolds(s: Sample, x: real, drift: real, age: real, err: real, offset: real, bound: real)
    requires drift >= 0.0 && err >= 0.0 && Abs(x - s.clientReceived) <= age && DriftAccounted(s, x, drift, age, err)
    requires offset == (EstimateOf(s).lo + EstimateOf(s).hi) / 2.0
        && bound == EstimateOf(s).Width() / 2.0 + age * drift + err
    ensures BoundHolds(s, x, drift, offset, bound)
  {
    forall t | Consistent(s, x, drift, t) ensures Abs(t.atCapture - offset) <= bound {
      CoveredIsSound(s, x, drift, age, err, t);
      Centre(EstimateOf(s).lo, EstimateOf(s).hi, t.atCapture, drift * age + err);
    }
  }

  lemma UncoveredFails(s: Sample, x: real, drift: real, age: real, err: real, some_: Truth)
    requires ValidSample(s) && drift >= 0.0 && err >= 0.0 && Abs(x - s.clientReceived) <= age
    requires Consistent(s, x, drift, some_) && !DriftAccounted(s, x, drift, age, err)
    ensures !BoundHolds(s, x, drift, (EstimateOf(s).lo + EstimateOf(s).hi) / 2.0,
                        EstimateOf(s).Width() / 2.0 + age * drift + err)
  {
    var e := Leeway(s, x, drift, age, err, some_);
    WorstIsConsistent(s, x, drift, e);
    WorstExceeds(s, x, drift, age, err, e);
  }

  /** How far before the next millisecond the request must have been stamped. */
  lemma Leeway(s: Sample, x: real, drift: real, age: real, err: real, some_: Truth) returns (e: real)
    requires drift >= 0.0 && Consistent(s, x, drift, some_) && !DriftAccounted(s, x, drift, age, err)
    ensures 0.0 < e <= 1.0 && e <= s.serverReceived as real + 1.0 + RoomOf(s, drift) - s.serverSent as real
    ensures Within(s, x, drift, age, err, e)
  {
    Room(s, x, drift, some_);
    var room, excess := s.serverReceived as real + 1.0 + RoomOf(s, drift) - s.serverSent as real,
      Excess(s, x, drift, age, err);
    e := Below(room, excess);
  }

  function Excess(s: Sample, x: real, drift: real, age: real, err: real): real {
    drift * (Abs(x - s.clientSent) - age) - err
  }

  lemma Below(room: real, excess: real) returns (e: real)
    requires room > 0.0 && excess > 0.0
    ensures 0.0 < e <= 1.0 && e <= room && e < excess
  {
    e := Least(1.0, room, excess / 2.0);
  }

  predicate Within(s: Sample, x: real, drift: real, age: real, err: real, e: real) {
    e < Excess(s, x, drift, age, err)
  }

  lemma WorstExceeds(s: Sample, x: real, drift: real, age: real, err: real, e: real)
    requires ValidSample(s) && drift >= 0.0 && err >= 0.0 && Abs(x - s.clientReceived) <= age
    requires 0.0 < e && Within(s, x, drift, age, err, e)
    ensures Abs(Worst(s, x, drift, e).atCapture - (EstimateOf(s).lo + EstimateOf(s).hi) / 2.0)
            > EstimateOf(s).Width() / 2.0 + age * drift + err
  {
    SentBefore(s, x, drift, age, err);
    var grown, aged := Split(drift, x - s.clientSent, age);
    Exceeds(s, Worst(s, x, drift, e).atCapture, grown, aged, err, e);
  }

  lemma ScaledDown(drift: real, y: real)
    requires drift >= 0.0 && y <= 0.0
    ensures drift * y <= 0.0
  {
    Scale(drift, y, 0.0);
    assert drift * 0.0 == 0.0;
  }

  lemma PositiveFactor(drift: real, y: real, err: real)
    requires drift >= 0.0 && err >= 0.0 && drift * y - err > 0.0
    ensures y > 0.0
  {
    if y <= 0.0 { ScaledDown(drift, y); }
  }

  /** Uncovered drift means that the request was sent before the time of interest. */
  lemma SentBefore(s: Sample, x: real, drift: real, age: real, err: real)
    requires ValidSample(s) && drift >= 0.0 && err >= 0.0 && Abs(x - s.clientReceived) <= age
    requires drift * (Abs(x - s.clientSent) - age) - err > 0.0
    ensures x > s.clientSent
  {
    PositiveFactor(drift, Abs(x - s.clientSent) - age, err);
  }

  lemma Split(drift: real, span: real, age: real) returns (grown: real, aged: real)
    ensures grown == drift * span && aged == age * drift && drift * (span - age) == grown - aged
  {
    grown, aged := drift * span, age * drift;
    Distribute(drift, span, age);
  }

  lemma Exceeds(s: Sample, at: real, grown: real, aged: real, err: real, e: real)
    requires at == s.serverReceived as real + 1.0 - s.clientSent - e + grown && e < grown - aged - err
    ensures Abs(at - (EstimateOf(s).lo + EstimateOf(s).hi) / 2.0) > EstimateOf(s).Width() / 2.0 + aged + err
  {}

  function Least(a: real, b: real, c: real): (m: real)
    ensures m <= a && m <= b && m <= c && (a > 0.0 && b > 0.0 && c > 0.0 ==> m > 0.0)
  {
    if a <= b && a <= c then a else if b <= c then b else c
  }

  /** Widening the bound by the drift over the round trip makes it sound for every capture time. */
  lemma RoundTripMargin(s: Sample, x: real, drift: real, age: real, err: real, wide: real, t: Truth)
    requires Consistent(s, x, drift, t) && drift >= 0.0 && err >= 0.0 && Abs(x - s.clientReceived) <= age
    requires wide == age + (s.clientReceived - s.clientSent)
    ensures Abs(t.atCapture - (EstimateOf(s).lo + EstimateOf(s).hi) / 2.0) <= EstimateOf(s).Width() / 2.0
        + drift * wide + err
  {
    WideCovers(s, x, drift, age, err, wide);
    MarginIsSound(s, x, drift, wide, err, t);
  }

  lemma WideCovers(s: Sample, x: real, drift: real, age: real, err: real, wide: real)
    requires drift >= 0.0 && err >= 0.0 && Abs(x - s.clientReceived) <= age
        && wide == age + (s.clientReceived - s.clientSent)
    requires s.clientSent <= s.clientReceived
    ensures Abs(x - s.clientReceived) <= wide && drift * (Abs(x - s.clientSent) - wide) <= err
  {
    Scale(drift, Abs(x - s.clientSent) - wide, 0.0);
  }

  lemma MarginIsSound(s: Sample, x: real, drift: real, wide: real, err: real, t: Truth)
    requires Consistent(s, x, drift, t) && drift >= 0.0 && err >= 0.0 && Abs(x - s.clientReceived) <= wide
    requires drift * (Abs(x - s.clientSent) - wide) <= err
    ensures Abs(t.atCapture - (EstimateOf(s).lo + EstimateOf(s).hi) / 2.0) <= EstimateOf(s).Width() / 2.0
        + drift * wide + err
  {
    CoveredIsSound(s, x, drift, wide, err, t);
    Centre(EstimateOf(s).lo, EstimateOf(s).hi, t.atCapture, drift * wide + err);
  }

  lemma Centre(lo: real, hi: real, c: real, margin: real)
    ensures lo - margin <= c <= hi + margin <==> Abs(c - (lo + hi) / 2.0) <= (hi - lo) / 2.0 + margin
  {}

  /** The mapping of several exchanges is that of the tightest. */
  lemma BestSample(samples: seq<Sample>, drift: real) returns (i: nat)
    requires MapClock(samples, drift).Some?
    ensures i < |samples| && ValidSample(samples[i])
    ensures var m, e := MapClock(samples, drift).value, EstimateOf(samples[i]);
            && m.offset == (e.lo + e.hi) / 2.0 && m.uncertainty == e.Width() / 2.0
              && m.measuredAt == samples[i].clientReceived
            && m.drift == drift >= 0.0
    ensures forall j :: 0 <= j < |samples| ==> EstimateOf(samples[i]).Width() <= EstimateOf(samples[j]).Width()
  {
    var all_ := Estimates(samples);
    SortHolds(ByWidth(), all_);
    SameSize(Sort(ByWidth(), all_), all_);
    var best := Sort(ByWidth(), all_)[0];
    assert best in all_;
    i :| 0 <= i < |samples| && all_[i] == best;
    forall j | 0 <= j < |samples| ensures best.Width() <= EstimateOf(samples[j]).Width() {
      assert all_[j] in all_;
      HeadIsLeast(all_, all_[j]);
    }
  }

  lemma HeadIsLeast(all_: seq<Estimate>, e: Estimate)
    requires e in all_
    ensures |Sort(ByWidth(), all_)| > 0 && Sort(ByWidth(), all_)[0].Width() <= e.Width()
  {
    var sorted := Sort(ByWidth(), all_);
    SortHolds(ByWidth(), all_);
    SortSorted(ByWidth(), ByWidth(), all_);
    var k :| 0 <= k < |sorted| && sorted[k] == e;
    assert k > 0 ==> ByWidth()(sorted[0], sorted[k]);
  }

  /** What the capture's age and bound are made of. */
  lemma CaptureParts(s: Sample, m: Mapping, start: real, end: real, err: real, x: real, age: real, bound: real)
    requires MapCapture(m, start, end, err).Some? && start <= x <= end
    requires m.uncertainty == EstimateOf(s).Width() / 2.0 && m.measuredAt == s.clientReceived
    requires age == Age(m, start, end) && bound == MapCapture(m, start, end, err).value.uncertainty
    ensures err >= 0.0 && Abs(x - s.clientReceived) <= age && bound == EstimateOf(s).Width() / 2.0 + age * m.drift + err
  {
    AgeCovers(m, start, end, x);
  }

  /** End to end: at any client time within a capture, the true server time lies within the reported uncertainty of
      the mapped time, for everything that may have happened in the tightest exchange, exactly when the drift since
      the sending of its request is accounted for. */
  lemma MappedCaptureIsSoundExactly(samples: seq<Sample>, drift: real, start: real, end: real, err: real, x: real,
                                    age: real, bound: real)
    returns (s: Sample, offset: real)
    requires MapClock(samples, drift).Some? && MapCapture(MapClock(samples, drift).value, start, end, err).Some?
    requires start <= x <= end && forall s :: s in samples ==> Explained(s, x, drift)
    requires age == Age(MapClock(samples, drift).value, start, end)
    requires bound == MapCapture(MapClock(samples, drift).value, start, end, err).value.uncertainty
    ensures s in samples && forall o :: o in samples ==> EstimateOf(s).Width() <= EstimateOf(o).Width()
    ensures offset == MapClock(samples, drift).value.offset
    ensures BoundHolds(s, x, drift, offset, bound) <==> DriftAccounted(s, x, drift, age, err)
  {
    var i := BestSample(samples, drift);
    s, offset := samples[i], MapClock(samples, drift).value.offset;
    assert err >= 0.0 && Abs(x - s.clientReceived) <= age
      && bound == EstimateOf(s).Width() / 2.0 + age * drift + err by {
      CaptureParts(s, MapClock(samples, drift).value, start, end, err, x, age, bound);
    }
    ReportedBoundIsSoundExactly(s, x, drift, age, err, offset, bound);
  }

  const LATE := Sample(0.0, 1000, 1000, 100.0)

  /** A round trip of 100, and a capture 100 after its answer, at a drift of one in a hundred and a source error of a
      half: the reported bound misses something that may have happened. */
  lemma DriftOnTheWayIsMissed() returns (offset: real, bound: real)
    ensures MapClock([LATE], 0.01).Some? && MapCapture(MapClock([LATE], 0.01).value, 200.0, 200.0, 0.5).Some?
    ensures offset == MapClock([LATE], 0.01).value.offset
    ensures bound == MapCapture(MapClock([LATE], 0.01).value, 200.0, 200.0, 0.5).value.uncertainty
    ensures exists t :: Consistent(LATE, 200.0, 0.01, t) && Abs(t.atCapture - offset) > bound
  {
    var t := Truth(50.0, 50.0, 950.0, 950.0, 950.0);
    assert Consistent(LATE, 200.0, 0.01, t);
    offset, bound := OneExchange(LATE, 0.01, 200.0, 0.5);
    ReportedBoundIsSoundExactly(LATE, 200.0, 0.01, 100.0, 0.5, offset, bound);
    assert Abs(200.0 - LATE.clientSent) - 100.0 == 100.0;
    assert !DriftAccounted(LATE, 200.0, 0.01, 100.0, 0.5);
  }

  /** One exchange and a capture of one moment. */
  lemma OneExchange(s: Sample, drift: real, at: real, err: real) returns (offset: real, bound: real)
    requires ValidSample(s) && drift >= 0.0 && err >= 0.0 && Abs(at - s.clientReceived) <= MAX_AGE
    ensures MapClock([s], drift).Some? && MapCapture(MapClock([s], drift).value, at, at, err).Some?
    ensures offset == MapClock([s], drift).value.offset == (EstimateOf(s).lo + EstimateOf(s).hi) / 2.0
    ensures bound == MapCapture(MapClock([s], drift).value, at, at, err).value.uncertainty
    ensures bound == EstimateOf(s).Width() / 2.0 + Abs(at - s.clientReceived) * drift + err
  {
    var i := BestSample([s], drift);
    offset := MapClock([s], drift).value.offset;
    bound := MapCapture(MapClock([s], drift).value, at, at, err).value.uncertainty;
  }

  lemma AgeCovers(m: Mapping, start: real, end: real, x: real)
    requires start <= x <= end
    ensures Abs(x - m.measuredAt) <= Age(m, start, end)
  {}

  // ---- Overlap ----

  datatype Timed = Timed(start: real, end: real, uncertainty: Option<real>)

  datatype Relation = Relation(possible: bool, certain: bool, known: bool)

  function ErrorOf(e: Timed): real {
    if e.uncertainty.Some? then e.uncertainty.value else 0.0
  }

  function RelateTime(a: Timed, b: Timed): Relation {
    var known := a.uncertainty.Some? && b.uncertainty.Some?;
    Relation(
      a.start - ErrorOf(a) <= b.end + ErrorOf(b) && b.start - ErrorOf(b) <= a.end + ErrorOf(a),
      known && a.start + ErrorOf(a) <= b.end - ErrorOf(b) && b.start + ErrorOf(b) <= a.end - ErrorOf(a),
      known)
  }

  predicate ValidTimed(e: Timed) {
    e.start <= e.end && ErrorOf(e) >= 0.0
  }

  /** An interval the event may really have had. */
  predicate Possible(e: Timed, start: real, end: real) {
    start <= end && Abs(start - e.start) <= ErrorOf(e) && Abs(end - e.end) <= ErrorOf(e)
  }

  predicate Overlap(s: real, t: real, u: real, v: real) {
    s <= v && u <= t
  }

  /** Overlap is called possible exactly when some true intervals overlap, and certain exactly when both bounds are
      known and all of them do. */
  lemma VerdictsAreExact(a: Timed, b: Timed)
    requires ValidTimed(a) && ValidTimed(b)
    ensures RelateTime(a, b).possible <==>
              exists s, t, u, v :: Possible(a, s, t) && Possible(b, u, v) && Overlap(s, t, u, v)
    ensures RelateTime(a, b).certain <==>
              a.uncertainty.Some? && b.uncertainty.Some? &&
              forall s, t, u, v :: Possible(a, s, t) && Possible(b, u, v) ==> Overlap(s, t, u, v)
  {
    var e, f := ErrorOf(a), ErrorOf(b);
    if RelateTime(a, b).possible {
      assert Possible(a, a.start - e, a.end + e) && Possible(b, b.start - f, b.end + f);
      assert Overlap(a.start - e, a.end + e, b.start - f, b.end + f);
    }
    if forall s, t, u, v :: Possible(a, s, t) && Possible(b, u, v) ==> Overlap(s, t, u, v) {
      assert Possible(a, a.start + e, a.end + e)
        && Possible(b, b.start - f, if b.end - f >= b.start - f then b.end - f else b.start - f);
      assert Overlap(a.start + e, a.end + e, b.start - f, b.end - f);
      assert Possible(a, a.start - e, a.end - e) && Possible(b, b.start + f, b.end + f);
      assert Overlap(a.start - e, a.end - e, b.start + f, b.end + f);
    }
  }

  predicate OverlapShifted(a: Timed, b: Timed, d: real, e: real) {
    Overlap(a.start + d, a.end + d, b.start + e, b.end + e)
  }

  /** The same verdicts are exact when each event is shifted as a whole, as an error of its clock shifts it. */
  lemma VerdictsAreExactForClockErrors(a: Timed, b: Timed)
    requires ValidTimed(a) && ValidTimed(b)
    ensures RelateTime(a, b).possible <==>
              exists d, e :: Abs(d) <= ErrorOf(a) && Abs(e) <= ErrorOf(b) && OverlapShifted(a, b, d, e)
    ensures RelateTime(a, b).certain <==>
              a.uncertainty.Some? && b.uncertainty.Some? &&
              forall d, e :: Abs(d) <= ErrorOf(a) && Abs(e) <= ErrorOf(b) ==> OverlapShifted(a, b, d, e)
  {
    var x, y := ErrorOf(a), ErrorOf(b);
    if RelateTime(a, b).possible {
      var d, e := Align(a, b);
    }
    if forall d, e :: Abs(d) <= x && Abs(e) <= y ==> OverlapShifted(a, b, d, e) {
      assert OverlapShifted(a, b, x, -y) && OverlapShifted(a, b, -x, y);
    }
  }

  /** Shifts within the errors that make the intervals overlap. */
  lemma Align(a: Timed, b: Timed) returns (d: real, e: real)
    requires ValidTimed(a) && ValidTimed(b) && RelateTime(a, b).possible
    ensures Abs(d) <= ErrorOf(a) && Abs(e) <= ErrorOf(b) && OverlapShifted(a, b, d, e)
  {
    var x, y := ErrorOf(a), ErrorOf(b);
    if b.start > a.end {
      d := if b.start - a.end <= x then b.start - a.end else x;
      e := d - (b.start - a.end);
    } else if a.start > b.end {
      d := if a.start - b.end <= x then b.end - a.start else -x;
      e := d + (a.start - b.end);
    } else {
      d, e := 0.0, 0.0;
    }
  }

  // ---- The checks as a loop ----

  method CheckSamples(samples: seq<Sample>) returns (estimates: Option<seq<Estimate>>)
    ensures estimates == if exists i :: 0 <= i < |samples| && !ValidSample(samples[i]) then None
                         else Some(Estimates(samples))
  {
    var found := [];
    for i := 0 to |samples|
      invariant forall j :: 0 <= j < i ==> ValidSample(samples[j])
      invariant found == Estimates(samples[..i])
    {
      if !ValidSample(samples[i]) {
        return None;
      }
      found := found + [EstimateOf(samples[i])];
    }
    assert samples[..|samples|] == samples;
    return Some(found);
  }

  /** The mapping as it is computed: check every exchange, then take the first of the sorted estimates. */
  method Calibrate(samples: seq<Sample>, drift: real) returns (m: Option<Mapping>)
    ensures m == MapClock(samples, drift)
    ensures m.Some? ==> exists i :: 0 <= i < |samples| && m.value.uncertainty == EstimateOf(samples[i]).Width() / 2.0
                                    && forall j :: 0 <= j < |samples| ==>
                                      m.value.uncertainty <= EstimateOf(samples[j]).Width() / 2.0
  {
    if samples == [] || drift < 0.0 {
      return None;
    }
    var estimates := CheckSamples(samples);
    if estimates.None? {
      return None;
    }
    var sorted := Sort(ByWidth(), estimates.value);
    SameSize(sorted, estimates.value) by { SortHolds(ByWidth(), estimates.value); }
    var best := sorted[0];
    m := Some(Mapping((best.lo + best.hi) / 2.0, (best.hi - best.lo) / 2.0, best.at, drift));
    ghost var i := BestSample(samples, drift);
  }
}
