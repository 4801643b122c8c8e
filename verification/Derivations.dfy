/** Derivation cycles: when an operation closes one, over single steps and over every run.  Without one every
    deletion and every superseding revision ends. */
module Derivations {
  import opened Evidence
  import opened Cascade
  import opened LedgerOps
  import opened LedgerSafety
  import opened LedgerRuns

  ghost predicate CycleFree(db: Db) {
    forall k :: !Reaches(db, k, k)
  }

  // ---- Adding derivations of one event ----

  /** `after` has, beside the derivations of `db`, those of one live event from some sources. */
  ghost predicate LinksInto(db: Db, after: Db, key: Key, sources: set<Key>) {
    Live(db.evidence, key)
    && forall from, to :: Edge(after, from, to) <==> Edge(db, from, to) || (to == key && from in sources)
  }

  /** One of the sources is the event itself, or was derived from it. */
  ghost predicate Consequence(db: Db, key: Key, sources: set<Key>) {
    exists s :: s in sources && (s == key || Reaches(db, key, s))
  }

  /** A path from `from` to `to` that enters the event through one of its new sources. */
  ghost predicate CutAt(db: Db, after: Db, key: Key, sources: set<Key>, from: Key, to: Key, s: Key) {
    s in sources && (from == s || Reaches(db, from, s)) && (to == key || Reaches(after, key, to))
  }

  /** A path of the extended derivations either avoids the new ones or can be cut at the first of them. */
  lemma {:induction false} CutPath(db: Db, after: Db, key: Key, sources: set<Key>, from: Key, via: seq<Key>, to: Key)
    requires LinksInto(db, after, key, sources) && Path(after, from, via, to)
    ensures Reaches(db, from, to) || exists s :: CutAt(db, after, key, sources, from, to, s)
    decreases |via|
  {
    var next := if via == [] then to else via[0];
    if via != [] { assert Path(after, next, via[1..], to); }
    if Edge(db, from, next) {
      if via == [] {
        ReachStep(db, from, to, to);
      } else {
        CutPath(db, after, key, sources, next, via[1..], to);
        if Reaches(db, next, to) {
          ReachStep(db, from, next, to);
        } else {
          var s :| CutAt(db, after, key, sources, next, to, s);
          ReachStep(db, from, next, s);
          assert CutAt(db, after, key, sources, from, to, s);
        }
      }
    } else {
      assert CutAt(db, after, key, sources, from, to, from);
    }
  }

  lemma CutReach(db: Db, after: Db, key: Key, sources: set<Key>, from: Key, to: Key)
    requires LinksInto(db, after, key, sources) && Reaches(after, from, to)
    ensures Reaches(db, from, to) || exists s :: CutAt(db, after, key, sources, from, to, s)
  {
    var via :| Path(after, from, via, to);
    CutPath(db, after, key, sources, from, via, to);
  }

  lemma {:induction false} EdgesKeepPath(db: Db, after: Db, from: Key, via: seq<Key>, to: Key)
    requires (forall x, y :: Edge(db, x, y) ==> Edge(after, x, y)) && Path(db, from, via, to)
    ensures Path(after, from, via, to)
    decreases |via|
  {
    if via != [] { EdgesKeepPath(db, after, via[0], via[1..], to); }
  }

  lemma EdgesKeepReach(db: Db, after: Db, from: Key, to: Key)
    requires (forall x, y :: Edge(db, x, y) ==> Edge(after, x, y)) && Reaches(db, from, to)
    ensures Reaches(after, from, to)
  {
    var via :| Path(db, from, via, to);
    EdgesKeepPath(db, after, from, via, to);
  }

  lemma FewerEdges(db: Db, after: Db)
    requires CycleFree(db) && forall x, y :: Edge(after, x, y) ==> Edge(db, x, y)
    ensures CycleFree(after)
  {
    forall k ensures !Reaches(after, k, k) {
      if Reaches(after, k, k) { EdgesKeepReach(after, db, k, k); }
    }
  }

  lemma ConsequenceClosesCycle(db: Db, after: Db, key: Key, sources: set<Key>)
    requires LinksInto(db, after, key, sources) && Consequence(db, key, sources)
    ensures Reaches(after, key, key)
  {
    var s :| s in sources && (s == key || Reaches(db, key, s));
    assert Edge(after, s, key);
    ReachStep(after, s, key, key);
    if s != key {
      EdgesKeepReach(db, after, key, s);
      ReachTrans(after, key, s, key);
    }
  }

  lemma CycleNeedsConsequence(db: Db, after: Db, key: Key, sources: set<Key>, k: Key)
    requires CycleFree(db) && LinksInto(db, after, key, sources) && Reaches(after, k, k)
    ensures Consequence(db, key, sources)
  {
    CutReach(db, after, key, sources, k, k);
    var s :| CutAt(db, after, key, sources, k, k, s);
    if k != key {
      CutReach(db, after, key, sources, key, k);
      if Reaches(db, key, k) && k != s { ReachTrans(db, key, k, s); }
    }
  }

  /** New derivations of an event close a cycle exactly when one of their sources is a consequence of it. */
  lemma LinkingClosesCycle(db: Db, after: Db, key: Key, sources: set<Key>)
    requires CycleFree(db) && LinksInto(db, after, key, sources)
    ensures CycleFree(after) <==> !Consequence(db, key, sources)
  {
    if Consequence(db, key, sources) {
      ConsequenceClosesCycle(db, after, key, sources);
    } else {
      forall k ensures !Reaches(after, k, k) {
        if Reaches(after, k, k) { CycleNeedsConsequence(db, after, key, sources, k); }
      }
    }
  }

  // ---- Repeating the record of a tool result ----

  function CitedKeys(db: Db, task: Parent, owner: string, e: Event): set<Key> {
    set r | r in RefsOf(db.deps, TaskDep, task.id) && r.eventId != e.id :: Key(owner, r.eventId)
  }

  /** The task cites something that was itself derived from the tool result. */
  ghost predicate CitesOwnConsequence(db: Db, task: Parent, owner: string, e: Event) {
    exists r :: r in RefsOf(db.deps, TaskDep, task.id) && r.eventId != e.id
                && Reaches(db, Key(owner, e.id), Key(owner, r.eventId))
  }

  lemma CitedConsequence(db: Db, task: Parent, owner: string, e: Event)
    ensures CitesOwnConsequence(db, task, owner, e) <==>
          Consequence(db, Key(owner, e.id), CitedKeys(db, task, owner, e))
  {
    if CitesOwnConsequence(db, task, owner, e) {
      var r :| r in RefsOf(db.deps, TaskDep, task.id) && r.eventId != e.id
               && Reaches(db, Key(owner, e.id), Key(owner, r.eventId));
      assert Key(owner, r.eventId) in CitedKeys(db, task, owner, e);
    }
  }

  lemma ResultLinks(db: Db, task: Parent, owner: string, e: Event)
    requires Live(db.evidence, Key(owner, e.id))
    ensures LinksInto(db, LinkToolResult(db, task, owner, e), Key(owner, e.id), CitedKeys(db, task, owner, e))
  {
    var after, key, cited := LinkToolResult(db, task, owner, e), Key(owner, e.id), CitedKeys(db, task, owner, e);
    forall from, to ensures Edge(after, from, to) <==> Edge(db, from, to) || (to == key && from in cited) {
      if Edge(after, from, to) && !Edge(db, from, to) {
        var rev: nat :| Dep(DerivedDep, to.id, from.owner, from.id, rev) in after.deps;
        assert Ref(from.id, rev) in RefsOf(db.deps, TaskDep, task.id);
      }
      if to == key && from in cited {
        var r :| r in RefsOf(db.deps, TaskDep, task.id) && r.eventId != e.id && from == Key(owner, r.eventId);
        assert Dep(DerivedDep, e.id, owner, r.eventId, r.revision) in after.deps;
      }
    }
  }

  /** Recording the result of a call again, as a restart does when it repeats a call that is safe to repeat,
      closes a derivation cycle exactly when the task meanwhile cites something derived from that result.
      From then on the result, and everything on the cycle, can no longer be deleted. */
  lemma RepeatedResultClosesCycle(db: Db, task: Parent, owner: string, e: Event)
    requires CycleFree(db) && Live(db.evidence, Key(owner, e.id))
    ensures CycleFree(LinkToolResult(db, task, owner, e)) <==> !CitesOwnConsequence(db, task, owner, e)
  {
    ResultLinks(db, task, owner, e);
    CitedConsequence(db, task, owner, e);
    LinkingClosesCycle(db, LinkToolResult(db, task, owner, e), Key(owner, e.id), CitedKeys(db, task, owner, e));
  }

  lemma ResultClosesCycle(db: Db, task: Parent, owner: string, e: Event)
    requires Live(db.evidence, Key(owner, e.id)) && CitesOwnConsequence(db, task, owner, e)
    ensures !Acyclic(LinkToolResult(db, task, owner, e), Key(owner, e.id))
  {
    ResultLinks(db, task, owner, e);
    CitedConsequence(db, task, owner, e);
    ConsequenceClosesCycle(db, LinkToolResult(db, task, owner, e), Key(owner, e.id), CitedKeys(db, task, owner, e));
  }

  // ---- Which events derivations and citations name ----

  /** The event has a row or a tombstone: it was stored at some time. */
  ghost predicate Known(db: Db, key: Key) {
    Top(db.evidence, key).Some? || key in db.tombs
  }

  /** Nothing is derived before it is stored. */
  ghost predicate Rooted(db: Db) {
    RowsOk(db) && forall d :: d in db.deps && d.kind == DerivedDep ==> Known(db, Key(d.owner, d.subject))
  }

  /** Nothing is cited, for a task or as a source, before it is stored; tasks cite under their own owner. */
  ghost predicate Grounded(db: Db, owners: string -> string) {
    forall d :: d in db.deps ==>
      && (d.kind == DerivedDep ==> Known(db, d.Source()))
      && (d.kind == TaskDep ==> Known(db, d.Source()) && d.owner == owners(d.subject))
  }

  /** Events stay known: rows are added or blanked, and dropped only when there is a tombstone. */
  ghost predicate KeepsKnown(db: Db, after: Db) {
    RowsOk(after) && forall k :: Known(db, k) ==> Known(after, k)
  }

  lemma SameRows(db: Db, after: Db)
    requires RowsOk(db) && after.evidence == db.evidence && after.tombs == db.tombs
    ensures KeepsKnown(db, after)
  {}

  lemma AppliedRows(db: Db, soft: set<Target>, hard: set<Target>, killed: set<Key>)
    requires RowsOk(db)
    ensures KeepsKnown(db, Apply(db, soft, hard, killed))
  {
    EraseRows(db, killed, soft, hard);
    forall k | Known(db, k) ensures Known(Apply(db, soft, hard, killed), k) { TopErase(db.evidence, killed, k); }
  }

  lemma StoredKnown(db: Db, owner: string, e: Event, at: int)
    requires RowsOk(db) && !Conflicts(db, owner, e) && !Duplicate(db, owner, e)
    ensures KeepsKnown(db, Stored(db, owner, e, at)) && Known(Stored(db, owner, e, at), Key(owner, e.id))
  {
    StoredRows(db, owner, e, at);
    forall k ensures Known(db, k) || k == Key(owner, e.id) ==> Known(Stored(db, owner, e, at), k) {
      TopAppend(db.evidence, Row(Key(owner, e.id), e.revision, Some(e), at), k);
    }
  }

  /** Storing a revision records no dependency, and leaves the event live. */
  lemma IngestKnown(db: Db, owner: string, e: Event, at: int)
    requires RowsOk(db) && IngestSpec(db, owner, e, at).Some?
    ensures var after := IngestSpec(db, owner, e, at).value;
            KeepsKnown(db, after) && after.deps == db.deps && Known(after, Key(owner, e.id))
            && Live(after.evidence, Key(owner, e.id))
  {
    LatestOfUndeleted(db, Key(owner, e.id));
    if !Duplicate(db, owner, e) {
      StoredKnown(db, owner, e, at);
      StoredLatest(db, owner, e, at);
      if Supersedes(db, owner, e) { SupersedingKnown(db, owner, e, at); }
    } else {
      assert Find(db.evidence, Key(owner, e.id), e.revision).value in db.evidence;
    }
  }

  lemma SupersedingKnown(db: Db, owner: string, e: Event, at: int)
    requires RowsOk(db) && IngestSpec(db, owner, e, at).Some? && !Duplicate(db, owner, e) && Supersedes(db, owner, e)
    ensures var after := IngestSpec(db, owner, e, at).value;
            KeepsKnown(db, after) && after.deps == db.deps && Live(after.evidence, Key(owner, e.id))
  {
    var key, stored := Key(owner, e.id), Stored(db, owner, e, at);
    LatestOfUndeleted(db, key);
    StoredKnown(db, owner, e, at);
    StoredLatest(db, owner, e, at);
    var below := Below(stored, key);
    AppliedRows(stored, TargetsOf(stored.deps, below + {key}), TargetsOf(stored.deps, below), below);
    LatestErase(stored.evidence, below, key);
    InBelow(stored, key, key);
    SameRows(InvalidateSpec(stored, key), IndexEvent(InvalidateSpec(stored, key), key, e));
  }

  lemma {:induction false} RemainingKnown(db: Db, expired: set<string>)
    requires RowsOk(db)
    ensures KeepsKnown(db, MaintainSpec(db, expired))
  {
    RemainingUnique(db.evidence);
    forall k | Known(db, k) ensures Known(MaintainSpec(db, expired), k) {
      if k !in db.tombs { RemainingTop(db.evidence, k); }
    }
  }

  // ---- Storing an event makes no old derivation live ----

  lemma StoredEdges(db: Db, owner: string, e: Event, at: int)
    requires Rooted(db) && !Conflicts(db, owner, e) && !Duplicate(db, owner, e)
    ensures forall x, y :: Edge(Stored(db, owner, e, at), x, y) ==> Edge(db, x, y)
  {
    StoredLatest(db, owner, e, at);
    LatestOfUndeleted(db, Key(owner, e.id));
  }

  lemma AppliedEdges(db: Db, soft: set<Target>, hard: set<Target>, killed: set<Key>)
    ensures forall x, y :: Edge(Apply(db, soft, hard, killed), x, y) ==> Edge(db, x, y)
  {
    forall x, y | Edge(Apply(db, soft, hard, killed), x, y)
      ensures Edge(db, x, y)
    {
      LatestErase(db.evidence, killed, y);
    }
  }

  lemma IngestCycleFree(db: Db, owner: string, e: Event, at: int)
    requires Rooted(db) && CycleFree(db) && IngestSpec(db, owner, e, at).Some?
    ensures CycleFree(IngestSpec(db, owner, e, at).value)
  {
    if !Duplicate(db, owner, e) {
      var key, stored := Key(owner, e.id), Stored(db, owner, e, at);
      StoredEdges(db, owner, e, at);
      FewerEdges(db, stored);
      if Supersedes(db, owner, e) {
        var below := Below(stored, key);
        AppliedEdges(stored, TargetsOf(stored.deps, below + {key}), TargetsOf(stored.deps, below), below);
        FewerEdges(stored, InvalidateSpec(stored, key));
        FewerEdges(InvalidateSpec(stored, key), IndexEvent(InvalidateSpec(stored, key), key, e));
      }
    }
  }

  /** Without a cycle nothing but a conflict refuses a revision. */
  lemma CycleFreeIngestEnds(db: Db, owner: string, e: Event, at: int)
    requires Rooted(db) && CycleFree(db)
    ensures IngestSpec(db, owner, e, at).None? <==> Conflicts(db, owner, e)
  {
    if !Conflicts(db, owner, e) && !Duplicate(db, owner, e) {
      StoredEdges(db, owner, e, at);
      FewerEdges(db, Stored(db, owner, e, at));
    }
  }

  // ---- The operations that record derivations ----

  predicate Deriving(op: Op) {
    op.Record? || op.CutRecord? || op.CreateReminder? || op.Derive?
  }

  function EventKey(op: Op): Key
    requires Deriving(op)
  {
    Key(op.owner, op.event.id)
  }

  /** The tables when the event of the operation is stored and its derivations are not yet recorded. */
  ghost function Midway(db: Db, op: Op): Option<Db>
    requires Deriving(op)
  {
    match op
    case Record(_, owner, e, at) =>
      if Live(db.evidence, Key(owner, e.id)) then Some(db) else IngestSpec(db, owner, e, at)
    case CutRecord(_, owner, e, at, _) =>
      if Live(db.evidence, Key(owner, e.id)) then Some(db) else IngestSpec(db, owner, e, at)
    case CreateReminder(id, owner, task, text, refs, e, at) =>
      if id in db.reminders || !Valid(db.evidence, owner, refs) then None
      else IngestSpec(ArmedReminder(db, id, owner, task, text, refs), owner, e, at)
    case Derive(owner, refs, e, at) =>
      if !Valid(db.evidence, owner, refs) then None else IngestSpec(db, owner, e, at)
  }

  function SourcesOf(db: Db, op: Op): set<Key>
    requires Deriving(op)
  {
    match op
    case Record(task, owner, e, _) => CitedKeys(db, task, owner, e)
    case CutRecord(task, owner, e, _, linked) =>
      set r | r in RefsOf(db.deps, TaskDep, task.id) && r in linked && r.eventId != e.id :: Key(owner, r.eventId)
    case CreateReminder(_, owner, _, _, refs, _, _) => set r | r in refs :: Key(owner, r.eventId)
    case Derive(owner, refs, _, _) => set r | r in refs :: Key(owner, r.eventId)
  }

  /** The event is derived from itself or from one of its own consequences. */
  ghost predicate ClosesCycle(db: Db, op: Op) {
    Deriving(op) && Midway(db, op).Some? && Consequence(Midway(db, op).value, EventKey(op), SourcesOf(db, op))
  }

  lemma DependLinks(mid: Db, id: string, owner: string, refs: seq<Ref>)
    requires Live(mid.evidence, Key(owner, id))
    ensures LinksInto(mid, mid.(deps := Depend(mid.deps, DerivedDep, id, owner, refs)), Key(owner, id),
                      set r | r in refs :: Key(owner, r.eventId))
  {
    var after, key := mid.(deps := Depend(mid.deps, DerivedDep, id, owner, refs)), Key(owner, id);
    var sources := set r | r in refs :: Key(owner, r.eventId);
    forall from, to ensures Edge(after, from, to) <==> Edge(mid, from, to) || (to == key && from in sources) {
      if Edge(after, from, to) && !Edge(mid, from, to) {
        var rev: nat :| Dep(DerivedDep, to.id, from.owner, from.id, rev) in after.deps;
        assert Ref(from.id, rev) in refs;
      }
      if to == key && from in sources {
        var r :| r in refs && from == Key(owner, r.eventId);
        assert Dep(DerivedDep, id, owner, r.eventId, r.revision) in after.deps;
      }
    }
  }

  /** Midway nothing is lost, no cycle is closed, and no new derivation or task citation is recorded. */
  lemma MidwayKeeps(db: Db, op: Op)
    requires RowsOk(db) && Deriving(op) && Midway(db, op).Some?
    ensures var mid := Midway(db, op).value;
            KeepsKnown(db, mid) && Live(mid.evidence, EventKey(op)) && Known(mid, EventKey(op))
            && forall d: Dep :: d.kind == DerivedDep || d.kind == TaskDep ==> (d in mid.deps <==> d in db.deps)
  {
    match op
    case Record(_, owner, e, at) => if !Live(db.evidence, Key(owner, e.id)) { IngestKnown(db, owner, e, at); }
    case CutRecord(_, owner, e, at, _) => if !Live(db.evidence, Key(owner, e.id)) { IngestKnown(db, owner, e, at); }
    case CreateReminder(id, owner, task, text, refs, e, at) =>
      var armed := ArmedReminder(db, id, owner, task, text, refs);
      SameRows(db, armed);
      IngestKnown(armed, owner, e, at);
    case Derive(owner, refs, e, at) => IngestKnown(db, owner, e, at);
  }

  lemma MidwayCycleFree(db: Db, op: Op)
    requires Rooted(db) && CycleFree(db) && Deriving(op) && Midway(db, op).Some?
    ensures CycleFree(Midway(db, op).value)
  {
    match op
    case Record(_, owner, e, at) => if !Live(db.evidence, Key(owner, e.id)) { IngestCycleFree(db, owner, e, at); }
    case CutRecord(_, owner, e, at, _) => if !Live(db.evidence, Key(owner, e.id)) { IngestCycleFree(db, owner, e, at); }
    case CreateReminder(id, owner, task, text, refs, e, at) =>
      var armed := ArmedReminder(db, id, owner, task, text, refs);
      FewerEdges(db, armed);
      IngestCycleFree(armed, owner, e, at);
    case Derive(owner, refs, e, at) => IngestCycleFree(db, owner, e, at);
  }

  /** The rest of the operation: the event's derivations are recorded. */
  ghost predicate Completed(db: Db, op: Op, after: Db)
    requires Deriving(op) && Midway(db, op).Some?
  {
    var mid := Midway(db, op).value;
    match op
    case Record(task, owner, e, _) => after == LinkToolResult(mid, task, owner, e)
    case CutRecord(task, owner, e, _, linked) =>
      after == mid.(deps := mid.deps + SomeDerived(mid, task, owner, e, linked))
    case CreateReminder(_, owner, _, _, refs, e, _) =>
      after == mid.(deps := Depend(mid.deps, DerivedDep, e.id, owner, refs))
    case Derive(owner, refs, e, _) => after == mid.(deps := Depend(mid.deps, DerivedDep, e.id, owner, refs))
  }

  lemma CompletedIs(db: Db, op: Op, after: Db)
    requires Deriving(op) && Allowed(op) && Completes(db, op, after)
    ensures if Midway(db, op).None? then after == db else Completed(db, op, after)
  {
    match op
    case Record(_, _, _, _) =>
    case CutRecord(_, _, _, _, _) =>
    case CreateReminder(_, _, _, _, _, _, _) =>
    case Derive(_, _, _, _) =>
  }

  lemma DerivingStep(db: Db, op: Op, after: Db)
    requires Rooted(db) && Deriving(op) && Midway(db, op).Some? && Completed(db, op, after)
    ensures Rooted(after) && LinksInto(Midway(db, op).value, after, EventKey(op), SourcesOf(db, op))
  {
    var mid := Midway(db, op).value;
    MidwayKeeps(db, op);
    SameRows(mid, after);
    StillRooted(db, mid, op, after);
    match op
    case Record(task, owner, e, at) =>
      ResultLinks(mid, task, owner, e);
      assert RefsOf(mid.deps, TaskDep, task.id) == RefsOf(db.deps, TaskDep, task.id);
    case CutRecord(task, owner, e, at, linked) => SomeLinks(db, mid, task, owner, e, linked);
    case CreateReminder(_, owner, _, _, refs, e, _) => DependLinks(mid, e.id, owner, refs);
    case Derive(owner, refs, e, at) => DependLinks(mid, e.id, owner, refs);
  }

  lemma SomeLinks(db: Db, mid: Db, task: Parent, owner: string, e: Event, linked: set<Ref>)
    requires Live(mid.evidence, Key(owner, e.id))
    requires forall d: Dep :: d.kind == TaskDep ==> (d in mid.deps <==> d in db.deps)
    ensures LinksInto(mid, mid.(deps := mid.deps + SomeDerived(mid, task, owner, e, linked)), Key(owner, e.id),
                      set r | r in RefsOf(db.deps, TaskDep, task.id) && r in linked
                        && r.eventId != e.id :: Key(owner, r.eventId))
  {
    var after, key := mid.(deps := mid.deps + SomeDerived(mid, task, owner, e, linked)), Key(owner, e.id);
    assert RefsOf(mid.deps, TaskDep, task.id) == RefsOf(db.deps, TaskDep, task.id);
    var sources := set r | r in RefsOf(db.deps, TaskDep, task.id) && r in linked
      && r.eventId != e.id :: Key(owner, r.eventId);
    forall from, to ensures Edge(after, from, to) <==> Edge(mid, from, to) || (to == key && from in sources) {
      if Edge(after, from, to) && !Edge(mid, from, to) {
        var rev: nat :| Dep(DerivedDep, to.id, from.owner, from.id, rev) in after.deps;
        assert Ref(from.id, rev) in RefsOf(mid.deps, TaskDep, task.id) && Ref(from.id, rev) in linked;
      }
      if to == key && from in sources {
        var r :| r in RefsOf(mid.deps, TaskDep, task.id) && r in linked && r.eventId != e.id
          && from == Key(owner, r.eventId);
        assert Dep(DerivedDep, e.id, owner, r.eventId, r.revision) in after.deps;
      }
    }
  }

  lemma StillRooted(db: Db, mid: Db, op: Op, after: Db)
    requires Rooted(db) && Deriving(op) && Midway(db, op) == Some(mid) && Completed(db, op, after)
    ensures Rooted(after)
  {
    MidwayKeeps(db, op);
    SameRows(mid, after);
    forall d | d in after.deps && d.kind == DerivedDep ensures Known(after, Key(d.owner, d.subject)) {
      if d in db.deps {
        assert Known(mid, Key(d.owner, d.subject));
      } else {
        assert Key(d.owner, d.subject) == EventKey(op);
      }
    }
  }

  // ---- The other operations ----

  /** No event becomes live, none is forgotten, and no derivation is recorded. */
  ghost predicate NoNewEdges(db: Db, after: Db) {
    Rooted(after) && forall x, y :: Edge(after, x, y) ==> Edge(db, x, y)
  }

  lemma IngestStep(db: Db, owner: string, e: Event, at: int)
    requires Rooted(db) && IngestSpec(db, owner, e, at).Some?
    ensures Rooted(IngestSpec(db, owner, e, at).value)
  {
    IngestKnown(db, owner, e, at);
  }

  lemma AppliedStep(db: Db, soft: set<Target>, hard: set<Target>, killed: set<Key>)
    requires Rooted(db)
    ensures NoNewEdges(db, Apply(db, soft, hard, killed)) && KeepsKnown(db, Apply(db, soft, hard, killed))
  {
    AppliedRows(db, soft, hard, killed);
    AppliedEdges(db, soft, hard, killed);
  }

  lemma MaintainStep(db: Db, expired: set<string>)
    requires Rooted(db)
    ensures NoNewEdges(db, MaintainSpec(db, expired))
  {
    RemainingKnown(db, expired);
    RemainingLive(db, expired);
  }

  lemma RemainingLive(db: Db, expired: set<string>)
    requires RowsOk(db)
    ensures forall k :: Live(MaintainSpec(db, expired).evidence, k) ==> Live(db.evidence, k)
  {
    forall k | Live(MaintainSpec(db, expired).evidence, k) ensures Live(db.evidence, k) {
      var t := Top(Remaining(db.evidence), k);
      assert t.value in db.evidence && k !in db.tombs;
      RemainingTop(db.evidence, k);
    }
  }

  /** Operations that record no derivation and change evidence, if at all, by deleting it. */
  lemma PlainStep(db: Db, op: Op, after: Db)
    requires Rooted(db) && Allowed(op) && Completes(db, op, after) && !Deriving(op) && !op.Ingest?
    ensures NoNewEdges(db, after)
  {
    match op
    case Delete(key) =>
      var dead := Below(db, key) + {key};
      AppliedStep(db, TargetsOf(db.deps, dead), TargetsOf(db.deps, dead), dead);
    case Maintain(expired) => MaintainStep(db, expired);
    case _ =>
      SameEvents(db, op, after);
      SameRows(db, after);
  }

  lemma SameEvents(db: Db, op: Op, after: Db)
    requires Allowed(op) && Completes(db, op, after) && !Deriving(op) && !op.Ingest? && !op.Delete? && !op.Maintain?
    ensures after.evidence == db.evidence && after.tombs == db.tombs
    ensures forall d: Dep :: d.kind == DerivedDep ==> (d in after.deps <==> d in db.deps)
  {
    match op
    case Forget(owner, id) =>
      if Recallable(db, owner, id) { NothingErased(db); }
    case CutForget(owner, id) =>
      if Recallable(db, owner, id) { NothingErased(db); }
    case _ =>
  }

  /** Each operation leaves derivations free of cycles, unless it derives an event from its own consequence. */
  lemma StepCycles(db: Db, op: Op, after: Db)
    requires Rooted(db) && Allowed(op) && Completes(db, op, after)
    ensures Rooted(after)
    ensures CycleFree(db) ==> (CycleFree(after) <==> !ClosesCycle(db, op))
  {
    if Deriving(op) {
      CompletedIs(db, op, after);
      if Midway(db, op).Some? {
        DerivingStep(db, op, after);
        if CycleFree(db) {
          MidwayCycleFree(db, op);
          LinkingClosesCycle(Midway(db, op).value, after, EventKey(op), SourcesOf(db, op));
        }
      }
    } else if op.Ingest? {
      if IngestSpec(db, op.owner, op.event, op.at).Some? {
        IngestStep(db, op.owner, op.event, op.at);
        if CycleFree(db) { IngestCycleFree(db, op.owner, op.event, op.at); }
      }
    } else {
      PlainStep(db, op, after);
      if CycleFree(db) { FewerEdges(db, after); }
    }
  }

  // ---- An event stored for the first time has no consequence ----

  /** The owner under which a task cites is its own and its root's. */
  predicate UnderOwner(op: Op, owners: string -> string) {
    match op
    case CutCreateTask(id, owner, _, _, parent, _, _) =>
      owners(id) == owner && (parent.Some? ==> owners(parent.value.root) == owner)
    case CutRecord(task, owner, _, _, _) => owners(task.id) == owner
    case CreateTask(id, owner, _, _, parent) =>
      owners(id) == owner && (parent.Some? ==> owners(parent.value.root) == owner)
    case Bind(task, owner, _) => owners(task.id) == owner && owners(task.root) == owner
    case Record(task, owner, _, _) => owners(task.id) == owner && owners(task.root) == owner
    case _ => true
  }

  lemma ValidKnown(db: Db, owner: string, refs: seq<Ref>)
    requires Valid(db.evidence, owner, refs)
    ensures forall r :: r in refs ==> Known(db, Key(owner, r.eventId))
  {
    forall r | r in refs ensures Known(db, Key(owner, r.eventId)) { assert Current(db.evidence, owner, r); }
  }

  /** The sources of what is derived were stored before. */
  lemma SourcesKnown(db: Db, op: Op, owners: string -> string, s: Key)
    requires Grounded(db, owners) && UnderOwner(op, owners) && Deriving(op) && Midway(db, op).Some?
        && s in SourcesOf(db, op)
    ensures Known(db, s)
  {
    if op.Record? || op.CutRecord? {
      var r :| r in RefsOf(db.deps, TaskDep, op.task.id) && r.eventId != op.event.id && s == Key(op.owner, r.eventId);
      var d :| d in db.deps && d.kind == TaskDep && d.subject == op.task.id && Ref(d.eventId, d.revision) == r;
      assert d.Source() == s;
    } else {
      ValidKnown(db, op.owner, op.refs);
    }
  }

  /** Nothing was derived from an event that was never stored. */
  lemma NothingFollows(db: Db, mid: Db, owners: string -> string, key: Key, s: Key)
    requires Grounded(db, owners) && !Known(db, key)
    requires forall d: Dep :: d.kind == DerivedDep ==> (d in mid.deps <==> d in db.deps)
    ensures !Reaches(mid, key, s)
  {
    forall next ensures !Edge(mid, key, next) {
      forall rev: nat ensures Dep(DerivedDep, next.id, key.owner, key.id, rev) !in mid.deps {
        assert Dep(DerivedDep, next.id, key.owner, key.id, rev).Source() == key;
      }
    }
    if Reaches(mid, key, s) {
      var next := ReachFirst(mid, key, s);
    }
  }

  lemma FirstHasNoConsequence(db: Db, op: Op, owners: string -> string)
    requires RowsOk(db) && Grounded(db, owners) && UnderOwner(op, owners)
    requires Deriving(op) && !Known(db, EventKey(op))
    ensures !ClosesCycle(db, op)
  {
    if ClosesCycle(db, op) {
      var mid, key := Midway(db, op).value, EventKey(op);
      var s :| s in SourcesOf(db, op) && (s == key || Reaches(mid, key, s));
      SourcesKnown(db, op, owners, s);
      MidwayKeeps(db, op);
      NothingFollows(db, mid, owners, key, s);
    }
  }

  lemma GroundedStep(db: Db, op: Op, after: Db, owners: string -> string)
    requires Rooted(db) && Grounded(db, owners) && Allowed(op) && UnderOwner(op, owners) && Completes(db, op, after)
    ensures Grounded(after, owners)
  {
    StepKnown(db, op, after);
    forall d | d in after.deps && (d.kind == DerivedDep || d.kind == TaskDep) && d !in db.deps
      ensures Known(after, d.Source()) && (d.kind == TaskDep ==> d.owner == owners(d.subject))
    {
      NewDepKnown(db, op, after, owners, d);
    }
  }

  /** Nothing known is forgotten. */
  lemma StepKnown(db: Db, op: Op, after: Db)
    requires Rooted(db) && Allowed(op) && Completes(db, op, after)
    ensures KeepsKnown(db, after)
  {
    if Deriving(op) {
      CompletedIs(db, op, after);
      if Midway(db, op).Some? {
        MidwayKeeps(db, op);
        SameRows(Midway(db, op).value, after);
      }
    } else {
      match op
      case Ingest(owner, e, at) => if IngestSpec(db, owner, e, at).Some? { IngestKnown(db, owner, e, at); }
      case Delete(key) =>
        var dead := Below(db, key) + {key};
        AppliedRows(db, TargetsOf(db.deps, dead), TargetsOf(db.deps, dead), dead);
      case Maintain(expired) => RemainingKnown(db, expired);
      case _ =>
        SameEvents(db, op, after);
        SameRows(db, after);
    }
  }

  lemma NewDepKnown(db: Db, op: Op, after: Db, owners: string -> string, d: Dep)
    requires Rooted(db) && Grounded(db, owners) && Allowed(op) && UnderOwner(op, owners) && Completes(db, op, after)
    requires KeepsKnown(db, after)
    requires d in after.deps && (d.kind == DerivedDep || d.kind == TaskDep) && d !in db.deps
    ensures Known(after, d.Source()) && (d.kind == TaskDep ==> d.owner == owners(d.subject))
  {
    if Deriving(op) {
      CompletedIs(db, op, after);
      if Midway(db, op).Some? { NewDerivation(db, op, after, owners, d); }
    } else {
      PlainDep(db, op, after, d);
      if op.Bind? { ValidKnown(db, op.owner, op.refs); }
      if op.CreateTask? || op.CutCreateTask? { ValidKnown(db, op.owner, op.refs); }
    }
  }

  lemma PlainDep(db: Db, op: Op, after: Db, d: Dep)
    requires Allowed(op) && Completes(db, op, after) && !Deriving(op)
    requires d in after.deps && (d.kind == DerivedDep || d.kind == TaskDep) && d !in db.deps
    ensures op.Bind? || op.CreateTask? || op.CutCreateTask?
    ensures Valid(db.evidence, op.owner, op.refs) && Ref(d.eventId, d.revision) in op.refs && d.owner == op.owner
    ensures op.Bind? ==> d.kind == TaskDep && (d.subject == op.task.id || d.subject == op.task.root)
    ensures op.CreateTask? || op.CutCreateTask? ==>
          d.kind == TaskDep && (d.subject == op.id || (op.parent.Some? && d.subject == op.parent.value.root))
  {
    match op
    case Ingest(owner, e, at) =>
    case Remember(owner, key, text, refs, id) =>
    case Forget(owner, id) =>
    case _ =>
  }

  lemma NewDerivation(db: Db, op: Op, after: Db, owners: string -> string, d: Dep)
    requires RowsOk(db) && Grounded(db, owners) && UnderOwner(op, owners) && Deriving(op)
    requires Midway(db, op).Some? && Completed(db, op, after)
    requires d in after.deps && (d.kind == DerivedDep || d.kind == TaskDep) && d !in db.deps
    ensures Known(after, d.Source()) && (d.kind == TaskDep ==> d.owner == owners(d.subject))
  {
    var mid := Midway(db, op).value;
    MidwayKeeps(db, op);
    assert after.evidence == mid.evidence && after.tombs == mid.tombs;
    if d.kind == DerivedDep {
      NewSource(db, op, after, d);
      SourcesKnown(db, op, owners, d.Source());
      assert Known(mid, d.Source());
    } else {
      assert op.Record?;
      ResultCited(mid, op, after, d);
    }
  }

  lemma ResultCited(mid: Db, op: Op, after: Db, d: Dep)
    requires op.Record? && after == LinkToolResult(mid, op.task, op.owner, op.event)
    requires d in after.deps && d.kind == TaskDep && d !in mid.deps
    ensures d.Source() == EventKey(op) && d.owner == op.owner && (d.subject == op.task.id || d.subject == op.task.root)
  {}

  lemma NewSource(db: Db, op: Op, after: Db, d: Dep)
    requires RowsOk(db) && Deriving(op) && Midway(db, op).Some? && Completed(db, op, after)
    requires d in after.deps && d.kind == DerivedDep && d !in db.deps
    ensures d.Source() in SourcesOf(db, op)
  {
    MidwayKeeps(db, op);
    var mid := Midway(db, op).value;
    if op.Record? || op.CutRecord? {
      assert RefsOf(mid.deps, TaskDep, op.task.id) == RefsOf(db.deps, TaskDep, op.task.id);
      assert Ref(d.eventId, d.revision) in RefsOf(db.deps, TaskDep, op.task.id);
    } else {
      assert Ref(d.eventId, d.revision) in op.refs;
    }
  }

  // ---- Over every run ----

  /** An operation derives an event stored before from its own consequence: a tool call repeated, or a client that
      stored an event under an id the agent was to use. */
  ghost predicate RepeatsConsequence(db: Db, op: Op) {
    Deriving(op) && Known(db, EventKey(op)) && ClosesCycle(db, op)
  }

  ghost predicate Traced(db: Db, owners: string -> string) {
    Rooted(db) && Grounded(db, owners)
  }

  lemma {:induction false} RunIsTraced(states: seq<Db>, ops: seq<Op>, owners: string -> string, i: nat)
    requires Run(states, ops) && i < |states| && AllUnderOwner(ops, owners)
    ensures Traced(states[i], owners)
  {
    if i == 0 {
      assert EMPTY.deps == {} && EMPTY.evidence == [];
    } else {
      RunIsTraced(states, ops, owners, i - 1);
      if states[i] != states[i - 1] {
        StepCycles(states[i - 1], ops[i - 1], states[i]);
        GroundedStep(states[i - 1], ops[i - 1], states[i], owners);
      }
    }
  }

  /** The step changed nothing, or derived nothing stored before from its own consequence. */
  ghost predicate DerivesForward(states: seq<Db>, ops: seq<Op>, i: nat)
    requires |states| == |ops| + 1 && i < |ops|
  {
    states[i + 1] == states[i] || !RepeatsConsequence(states[i], ops[i])
  }

  lemma CycleStepAt(states: seq<Db>, ops: seq<Op>, owners: string -> string, i: nat)
    requires Run(states, ops) && i < |ops| && Traced(states[i], owners) && UnderOwner(ops[i], owners)
    requires CycleFree(states[i])
    ensures CycleFree(states[i + 1]) <==> DerivesForward(states, ops, i)
  {
    if states[i + 1] != states[i] {
      StepCycles(states[i], ops[i], states[i + 1]);
      if Deriving(ops[i]) && !Known(states[i], EventKey(ops[i])) { FirstHasNoConsequence(states[i], ops[i], owners); }
    }
  }

  predicate AllUnderOwner(ops: seq<Op>, owners: string -> string) {
    forall i :: 0 <= i < |ops| ==> UnderOwner(ops[i], owners)
  }

  lemma EmptyIsCycleFree()
    ensures CycleFree(EMPTY)
  {
    forall k ensures !Reaches(EMPTY, k, k) {
      if Reaches(EMPTY, k, k) { var mid := ReachFirst(EMPTY, k, k); }
    }
  }

  /** If no step derives backwards, no state has a cycle. */
  lemma {:induction false} ForwardStaysCycleFree(states: seq<Db>, ops: seq<Op>, owners: string -> string, n: nat)
    requires Run(states, ops) && n < |states| && AllUnderOwner(ops, owners)
    requires forall i :: 0 <= i < n ==> DerivesForward(states, ops, i)
    ensures CycleFree(states[n])
  {
    if n == 0 {
      EmptyIsCycleFree();
    } else {
      ForwardStaysCycleFree(states, ops, owners, n - 1);
      RunIsTraced(states, ops, owners, n - 1);
      CycleStepAt(states, ops, owners, n - 1);
    }
  }

  /** Over every run: no state has a derivation cycle, if and only if no operation derived an event that was stored
      before from one of its own consequences.  What is stored and derived for the first time never closes one. */
  lemma DerivationsStayCycleFree(states: seq<Db>, ops: seq<Op>, owners: string -> string, n: nat)
    requires Run(states, ops) && n < |states| && AllUnderOwner(ops, owners)
    ensures (forall i :: 0 <= i <= n ==> CycleFree(states[i])) <==>
              forall i :: 0 <= i < n ==> DerivesForward(states, ops, i)
  {
    if forall i :: 0 <= i < n ==> DerivesForward(states, ops, i) {
      forall i | 0 <= i <= n ensures CycleFree(states[i]) { ForwardStaysCycleFree(states, ops, owners, i); }
    }
    forall i | 0 <= i < n && CycleFree(states[i]) && CycleFree(states[i + 1]) ensures DerivesForward(states, ops, i) {
      RunIsTraced(states, ops, owners, i);
      CycleStepAt(states, ops, owners, i);
    }
  }

  /** In such a run every deletion ends, with no more nested calls than there are events below, and nothing but a
      conflict refuses a revision. */
  lemma CascadesEnd(states: seq<Db>, ops: seq<Op>, owners: string -> string, n: nat)
    requires Run(states, ops) && n < |states| && AllUnderOwner(ops, owners)
    requires forall i :: 0 <= i < n ==> DerivesForward(states, ops, i)
    ensures forall key :: Acyclic(states[n], key)
    ensures forall key, steps: nat :: Walk(states[n], key, steps) ==> steps <= |Below(states[n], key)|
    ensures forall owner, e, at :: IngestSpec(states[n], owner, e, at).None? <==> Conflicts(states[n], owner, e)
  {
    ForwardStaysCycleFree(states, ops, owners, n);
    RunIsTraced(states, ops, owners, n);
    forall key, steps: nat | Walk(states[n], key, steps) ensures steps <= |Below(states[n], key)| {
      WalkBound(states[n], key, steps);
    }
    forall owner, e, at ensures IngestSpec(states[n], owner, e, at).None? <==> Conflicts(states[n], owner, e) {
      CycleFreeIngestEnds(states[n], owner, e, at);
    }
  }
}
