/** The hourly transcript files: every ingest or deletion of a transcript raises the version of its hour, and a
    file is stamped with the version it was selected at. */
module Export {
  import opened Evidence
  import opened Sorting

  const HOUR: nat := 3600000

  datatype Bucket = Bucket(owner: string, hour: int)

  /** A file being written: the rows selected for it, and the version they were selected at. */
  datatype Job = Job(bucket: Bucket, version: nat, body: seq<Row>, written: bool)

  datatype State = State(rows: seq<Row>, version: map<Bucket, nat>, exported: map<Bucket, nat>,
                         files: map<Bucket, seq<Row>>, job: Option<Job>)

  function BucketOf(r: Row): Bucket {
    Bucket(r.key.owner, r.receivedAt / HOUR)
  }

  predicate IsTranscript(r: Row) {
    r.payload.Some? && r.payload.value.kind.Transcript?
  }

  predicate InBucket(b: Bucket, r: Row) {
    IsTranscript(r) && BucketOf(r) == b
  }

  function Matching(rows: seq<Row>, b: Bucket): seq<Row> {
    if rows == [] then []
    else Matching(rows[..|rows| - 1], b) + if InBucket(b, rows[|rows| - 1]) then [rows[|rows| - 1]] else []
  }

  /** The order of an export: receipt time, id, revision. */
  predicate Earlier(order: (string, string) -> bool, a: Row, b: Row) {
    a.receivedAt < b.receivedAt
    || (a.receivedAt == b.receivedAt && a.key.id != b.key.id && order(a.key.id, b.key.id))
    || (a.receivedAt == b.receivedAt && a.key.id == b.key.id && a.revision <= b.revision)
  }

  function ByTime(order: (string, string) -> bool): (Row, Row) -> bool {
    (a, b) => Earlier(order, a, b)
  }

  /** What the query for a file returns. */
  function Lines(order: (string, string) -> bool, rows: seq<Row>, b: Bucket): seq<Row> {
    Sort(ByTime(order), Matching(rows, b))
  }

  // ---- Steps ----

  datatype Op =
    | Append(row: Row)
    | Delete(keys: set<Key>)
    | Prune
    | Select(bucket: Bucket)
    | Write
    | Stamp
    | Crash
    | Restart

  /** Raise the version of an hour, or start it at one. */
  function Dirty(version: map<Bucket, nat>, b: Bucket): map<Bucket, nat> {
    version[b := if b in version then version[b] + 1 else 1]
  }

  /** One raise for every undeleted transcript row of the deleted events. */
  function DirtyAll(version: map<Bucket, nat>, rows: seq<Row>, keys: set<Key>): map<Bucket, nat> {
    if rows == [] then version
    else
      var r := rows[|rows| - 1];
      var before := DirtyAll(version, rows[..|rows| - 1], keys);
      if r.key in keys && IsTranscript(r) then Dirty(before, BucketOf(r)) else before
  }

  function Undeleted(rows: seq<Row>): seq<Row> {
    if rows == [] then []
    else Undeleted(rows[..|rows| - 1]) + if rows[|rows| - 1].payload.Some? then [rows[|rows| - 1]] else []
  }

  /** Hours found at start-up that were never entered. */
  function Enter(version: map<Bucket, nat>, rows: seq<Row>): map<Bucket, nat> {
    if rows == [] then version
    else
      var r := rows[|rows| - 1];
      var before := Enter(version, rows[..|rows| - 1]);
      if IsTranscript(r) && BucketOf(r) !in before then before[BucketOf(r) := 1] else before
  }

  function Exported(s: State, b: Bucket): nat {
    if b in s.exported then s.exported[b] else 0
  }

  predicate Behind(s: State, b: Bucket) {
    b in s.version && s.version[b] > Exported(s, b)
  }

  function Step(order: (string, string) -> bool, s: State, op: Op): State {
    match op
    case Append(row) =>
      s.(rows := s.rows + [row], version := if IsTranscript(row) then Dirty(s.version, BucketOf(row)) else s.version)
    case Delete(keys) => s.(rows := Erase(s.rows, keys), version := DirtyAll(s.version, s.rows, keys))
    case Prune => s.(rows := Undeleted(s.rows))
    case Select(b) =>
      if s.job.None? && Behind(s, b) then s.(job := Some(Job(b, s.version[b], Lines(order, s.rows, b), false))) else s
    case Write =>
      if s.job.Some? && !s.job.value.written
      then s.(files := s.files[s.job.value.bucket := s.job.value.body], job := Some(s.job.value.(written := true)))
      else s
    case Stamp =>
      if s.job.Some? && s.job.value.written
      then s.(exported := s.exported[s.job.value.bucket := s.job.value.version], job := None)
      else s
    case Crash => s.(job := None)
    case Restart => if s.job.None? then s.(version := Enter(s.version, s.rows)) else s
  }

  ghost predicate Run(order: (string, string) -> bool, states: seq<State>, ops: seq<Op>) {
    |states| == |ops| + 1 && forall i :: 0 <= i < |ops| ==> states[i + 1] == Step(order, states[i], ops[i])
  }

  /** An hour whose file was stamped with the current version has an exact file; a selection made at the current
      version is exact; and so is the file of an hour that is being written. */
  ghost predicate Exact(order: (string, string) -> bool, s: State) {
    && (forall b :: b in s.version && Exported(s, b) == s.version[b] ==>
          b in s.files && s.files[b] == Lines(order, s.rows, b))
    && (forall b :: b in s.exported ==> b in s.version && s.exported[b] <= s.version[b])
    && (forall b :: b in s.version ==> s.version[b] > 0)
    && (s.job.Some? ==>
          && s.job.value.bucket in s.version && s.job.value.version <= s.version[s.job.value.bucket]
          && (s.job.value.version == s.version[s.job.value.bucket] ==>
            s.job.value.body == Lines(order, s.rows, s.job.value.bucket))
          && (s.job.value.written ==> s.job.value.bucket in s.files && s.files[s.job.value.bucket] == s.job.value.body)
          && Exported(s, s.job.value.bucket) < s.job.value.version)
  }

  /** Every hour with an undeleted transcript is entered. */
  ghost predicate Entered(s: State) {
    forall r :: r in s.rows && IsTranscript(r) ==> BucketOf(r) in s.version
  }

  /** The rows of an hour are the same, and its version; or its version went up. */
  ghost predicate Tracked(s: State, after: State) {
    && s.version.Keys <= after.version.Keys
    && (forall b :: b in s.version ==> after.version[b] >= s.version[b])
    && (forall b :: b in s.version && after.version[b] == s.version[b] ==>
      Matching(after.rows, b) == Matching(s.rows, b))
  }

  lemma {:induction false} DirtyAllIs(version: map<Bucket, nat>, rows: seq<Row>, keys: set<Key>, b: Bucket)
    requires forall b :: b in version ==> version[b] > 0
    ensures var v := DirtyAll(version, rows, keys);
            && version.Keys <= v.Keys && (forall x :: x in v ==> v[x] > 0)
            && (b in version ==> v[b] >= version[b])
            && (b in version && v[b] == version[b] ==> Matching(Erase(rows, keys), b) == Matching(rows, b))
  {
    if rows != [] {
      var front := rows[..|rows| - 1];
      DirtyAllIs(version, front, keys, b);
      assert Erase(rows, keys)[..|rows| - 1] == Erase(front, keys);
    }
  }

  lemma {:induction false} UndeletedMatching(rows: seq<Row>, b: Bucket)
    ensures Matching(Undeleted(rows), b) == Matching(rows, b)
  {
    if rows != [] {
      var front, r := rows[..|rows| - 1], rows[|rows| - 1];
      UndeletedMatching(front, b);
      if r.payload.Some? {
      } else {
        assert Undeleted(rows) == Undeleted(front) && Matching(rows, b) == Matching(front, b);
      }
    }
  }

  lemma {:induction false} EnterIs(version: map<Bucket, nat>, rows: seq<Row>)
    requires forall b :: b in version ==> version[b] > 0
    ensures var v := Enter(version, rows);
            && (forall b :: b in v ==> v[b] > 0)
            && (forall b :: b in version ==> b in v && v[b] == version[b])
            && (forall b :: b in v && b !in version ==> v[b] == 1)
            && (forall r :: r in rows && IsTranscript(r) ==> BucketOf(r) in v)
  {
    if rows != [] {
      EnterIs(version, rows[..|rows| - 1]);
      assert rows == rows[..|rows| - 1] + [rows[|rows| - 1]];
    }
  }

  lemma ChangeTracked(order: (string, string) -> bool, s: State, op: Op)
    requires Exact(order, s) && (op.Append? || op.Delete? || op.Prune? || op.Restart?)
    ensures var after := Step(order, s, op);
            Tracked(s, after) && after == s.(rows := after.rows, version := after.version)
            && forall b :: b in after.version ==> after.version[b] > 0
  {
    var after := Step(order, s, op);
    if op.Restart? { EnterIs(s.version, s.rows); }
    if op.Delete? { DirtyAllIs(s.version, s.rows, op.keys, Bucket("", 0)); }
    forall b | b in s.version
      ensures b in after.version && after.version[b] >= s.version[b]
      ensures after.version[b] == s.version[b] ==> Matching(after.rows, b) == Matching(s.rows, b)
    {
      if op.Delete? { DirtyAllIs(s.version, s.rows, op.keys, b); }
      if op.Prune? { UndeletedMatching(s.rows, b); }
    }
  }

  lemma StepKeeps(order: (string, string) -> bool, s: State, op: Op)
    requires Exact(order, s)
    ensures Exact(order, Step(order, s, op))
  {
    if op.Append? || op.Delete? || op.Prune? || op.Restart? {
      ChangeTracked(order, s, op);
    }
  }

  /** The journal of a new installation: rows may be there already, but no hour was ever entered or stamped. */
  predicate Starts(s: State) {
    s.version == map[] && s.exported == map[] && s.job.None?
  }

  /** Whatever happens during a write, and wherever a crash falls: an hour whose stamp equals its version has a file
      with exactly its undeleted transcript revisions. */
  lemma {:induction false} StampedFilesAreExact(order: (string, string) -> bool, states: seq<State>, ops: seq<Op>,
                                                i: nat)
    requires Run(order, states, ops) && Starts(states[0]) && i < |states|
    ensures Exact(order, states[i])
  {
    if i > 0 {
      StampedFilesAreExact(order, states, ops, i - 1);
      StepKeeps(order, states[i - 1], ops[i - 1]);
    }
  }

  lemma EnteredKept(order: (string, string) -> bool, s: State, op: Op)
    requires Exact(order, s) && (Entered(s) || (op.Restart? && s.job.None?))
    ensures Entered(Step(order, s, op))
  {
    var after := Step(order, s, op);
    if op.Restart? { EnterIs(s.version, s.rows); }
    if op.Delete? {
      DirtyAllIs(s.version, s.rows, op.keys, Bucket("", 0));
      forall r | r in after.rows && IsTranscript(r) ensures BucketOf(r) in after.version {
        var k :| 0 <= k < |after.rows| && after.rows[k] == r;
        assert s.rows[k] in s.rows;
      }
    }
    if op.Prune? { forall r | r in after.rows ensures r in s.rows { UndeletedIn(s.rows, r); } }
  }

  lemma {:induction false} UndeletedIn(rows: seq<Row>, r: Row)
    requires r in Undeleted(rows)
    ensures r in rows
  {
    var front := rows[..|rows| - 1];
    if r in Undeleted(front) { UndeletedIn(front, r); }
  }

  /** From the first start on, every hour with an undeleted transcript is entered. */
  lemma {:induction false} StartedEntersAll(order: (string, string) -> bool, states: seq<State>, ops: seq<Op>, k: nat,
                                            i: nat)
    requires Run(order, states, ops) && Starts(states[0]) && k < i < |states|
    requires ops[k].Restart? && states[k].job.None?
    ensures Entered(states[i])
    decreases i
  {
    StampedFilesAreExact(order, states, ops, i - 1);
    if k < i - 1 { StartedEntersAll(order, states, ops, k, i - 1); }
    EnteredKept(order, states[i - 1], ops[i - 1]);
  }

  /** In every state after the first start in which a drain finds nothing behind, every undeleted transcript is in
      the file of its hour. */
  lemma DrainedIsComplete(order: (string, string) -> bool, states: seq<State>, ops: seq<Op>, k: nat, i: nat, r: Row)
    requires Run(order, states, ops) && Starts(states[0]) && k < i < |states|
    requires ops[k].Restart? && states[k].job.None?
    requires (forall b :: !Behind(states[i], b)) && r in states[i].rows && IsTranscript(r)
    ensures BucketOf(r) in states[i].files && r in states[i].files[BucketOf(r)]
  {
    StampedFilesAreExact(order, states, ops, i);
    StartedEntersAll(order, states, ops, k, i);
    UpToDate(order, states[i], r);
  }

  lemma UpToDate(order: (string, string) -> bool, s: State, r: Row)
    requires Exact(order, s) && Entered(s) && !Behind(s, BucketOf(r)) && r in s.rows && IsTranscript(r)
    ensures BucketOf(r) in s.files && r in s.files[BucketOf(r)]
  {
    MatchingIs(s.rows, BucketOf(r));
    SortHolds(ByTime(order), Matching(s.rows, BucketOf(r)));
  }

  // ---- What a file holds ----

  lemma {:induction false} MatchingIs(rows: seq<Row>, b: Bucket)
    ensures forall r :: r in Matching(rows, b) <==> r in rows && InBucket(b, r)
    ensures multiset(Matching(rows, b)) <= multiset(rows)
  {
    if rows != [] {
      MatchingIs(rows[..|rows| - 1], b);
      assert rows == rows[..|rows| - 1] + [rows[|rows| - 1]];
    }
  }

  /** A file holds the undeleted transcript revisions of its hour, each as often as the table does, ordered by
      receipt time, then id, then revision. */
  lemma LinesAre(order: (string, string) -> bool, rows: seq<Row>, b: Bucket)
    requires TotalOrder(order)
    ensures forall r :: r in Lines(order, rows, b) <==>
          && r in rows && r.payload.Some? && r.payload.value.kind.Transcript? && r.key.owner == b.owner
          && b.hour * HOUR <= r.receivedAt < (b.hour + 1) * HOUR
    ensures multiset(Lines(order, rows, b)) == multiset(Matching(rows, b))
    ensures forall i, j :: 0 <= i < j < |Lines(order, rows, b)| ==>
          Earlier(order, Lines(order, rows, b)[i], Lines(order, rows, b)[j])
  {
    MatchingIs(rows, b);
    SortHolds(ByTime(order), Matching(rows, b));
    LinesSorted(order, Matching(rows, b));
  }

  lemma LinesSorted(order: (string, string) -> bool, rows: seq<Row>)
    requires TotalOrder(order)
    ensures forall i, j :: 0 <= i < j < |Sort(ByTime(order), rows)| ==>
              Earlier(order, Sort(ByTime(order), rows)[i], Sort(ByTime(order), rows)[j])
  {
    SortSorted(ByTime(order), ByTime(order), rows);
  }

  // ---- The drain ----

  predicate Due(s: State, before: Option<int>, b: Bucket) {
    Behind(s, b) && (before.None? || b.hour < before.value)
  }

  ghost predicate Earliest(s: State, before: Option<int>, b: Bucket) {
    Due(s, before, b) && forall c :: Due(s, before, c) ==> b.hour <= c.hour
  }

  class Archive {
    const order: (string, string) -> bool
    var s: State

    constructor (order: (string, string) -> bool, s: State)
      ensures this.order == order && this.s == s
    {
      this.order := order;
      this.s := s;
    }

    /** Rows are tombstoned one event at a time, and each transcript revision raises its hour. */
    method DeleteEvent(key: Key)
      modifies this
      ensures s == Step(order, old(s), Delete({key}))
    {
      for i := 0 to |s.rows|
        invariant s == old(s).(version := DirtyAll(old(s).version, old(s).rows[..i], {key}))
      {
        assert old(s).rows[..i + 1][..i] == old(s).rows[..i];
        var r := s.rows[i];
        if r.key == key && IsTranscript(r) {
          s := s.(version := Dirty(s.version, BucketOf(r)));
        }
      }
      assert old(s).rows[..|old(s).rows|] == old(s).rows;
      s := s.(rows := Erase(s.rows, {key}));
    }

    /** Take the earliest hour before the bound that is behind; `found` is false when the drain is done. */
    method SelectNext(before: Option<int>) returns (found: bool)
      requires s.job.None?
      modifies this
      ensures !found ==> s == old(s) && forall b :: !Due(s, before, b)
      ensures found ==> exists b :: Earliest(old(s), before, b) && s == Step(order, old(s), Select(b))
    {
      var todo, best := s.version.Keys, None;
      while todo != {}
        invariant todo <= s.version.Keys
        invariant best.Some? ==> Due(s, before, best.value)
        invariant forall b :: Due(s, before, b) ==> b in todo || (best.Some? && best.value.hour <= b.hour)
        decreases |todo|
      {
        var b :| b in todo;
        todo := todo - {b};
        if Due(s, before, b) && (best.None? || b.hour < best.value.hour) {
          best := Some(b);
        }
      }
      found := best.Some?;
      if found {
        var body := Lines(order, s.rows, best.value);
        assert Earliest(s, before, best.value);
        s := s.(job := Some(Job(best.value, s.version[best.value], body, false)));
      }
    }

    method WriteFile()
      requires s.job.Some? && !s.job.value.written
      modifies this
      ensures s == Step(order, old(s), Write)
    {
      var job := s.job.value;
      s := s.(files := s.files[job.bucket := job.body]);
      s := s.(job := Some(job.(written := true)));
    }

    method StampVersion()
      requires s.job.Some? && s.job.value.written
      modifies this
      ensures s == Step(order, old(s), Stamp)
    {
      s := s.(exported := s.exported[s.job.value.bucket := s.job.value.version]);
      s := s.(job := None);
    }
  }
}
