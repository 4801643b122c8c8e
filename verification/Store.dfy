/** The agent's evidence store: tables updated in place, and the recursive invalidation cascade. */
module Store {
  import opened Evidence
  import opened Cascade
  import opened LedgerOps

  /** Events swept so far below `key`: reachable from it, on no cycle, and closed under derivation. */
  ghost predicate Swept(db: Db, key: Key, dead: set<Key>) {
    forall x :: x in dead ==>
      Reaches(db, key, x) && !Reaches(db, x, x) && forall y :: Edge(db, x, y) ==> y in dead
  }

  /** The same derivations, with some events gone. */
  ghost predicate Without(db: Db, later: Db, dead: set<Key>) {
    later.deps == db.deps && forall k :: Live(later.evidence, k) <==> Live(db.evidence, k) && k !in dead
  }

  lemma ApplyWithout(db: Db, soft: set<Target>, hard: set<Target>, dead: set<Key>)
    ensures Without(db, Apply(db, soft, hard, dead), dead)
  {
    forall k ensures Live(Erase(db.evidence, dead), k) <==> Live(db.evidence, k) && k !in dead {
      LatestErase(db.evidence, dead, k);
    }
  }

  ghost predicate Closed(db: Db, dead: set<Key>) {
    forall x, y :: x in dead && Edge(db, x, y) ==> y in dead
  }

  /** A path that ends outside a closed set never enters it, so it survives the deletion of the set. */
  lemma {:induction false} PathAvoids(db: Db, later: Db, dead: set<Key>, from: Key, via: seq<Key>, to: Key)
    requires Without(db, later, dead) && Closed(db, dead) && to !in dead
    requires Path(db, from, via, to)
    ensures Path(later, from, via, to)
    decreases |via|
  {
    if via != [] {
      if via[0] in dead {
        ClosedHolds(db, via[0], via[1..], to, dead);
        assert false;
      }
      PathAvoids(db, later, dead, via[0], via[1..], to);
    }
  }

  lemma ReachAvoids(db: Db, later: Db, dead: set<Key>, from: Key, to: Key)
    requires Without(db, later, dead) && Closed(db, dead) && to !in dead
    requires Reaches(db, from, to)
    ensures Reaches(later, from, to)
  {
    var via :| Path(db, from, via, to);
    PathAvoids(db, later, dead, from, via, to);
  }

  /** Deleting one more direct successor, in what the sweep has left, extends the sweep. */
  lemma Absorb(db: Db, later: Db, key: Key, dead: set<Key>, next: Key)
    requires Without(db, later, dead) && Swept(db, key, dead)
    requires Edge(db, key, next) && next !in dead && Acyclic(later, next)
    ensures Swept(db, key, dead + Below(later, next) + {next})
  {
    var more := Below(later, next) + {next};
    forall x | x in more
      ensures Reaches(db, key, x) && !Reaches(db, x, x) && forall y :: Edge(db, x, y) ==> y in dead + more
    {
      InBelow(later, next, x);
      if x != next {
        ReachMonotone(later, db, next, x);
        ReachTarget(later, next, x);
      }
      ReachStep(db, key, next, x);
      if Reaches(db, x, x) { ReachAvoids(db, later, dead, x, x); }
      forall y | Edge(db, x, y) && y !in dead ensures y in more {
        assert Edge(later, x, y);
        ReachStep(later, x, y, y);
        if x != next { ReachTrans(later, next, x, y); }
        InBelow(later, next, y);
      }
    }
  }

  /** A sweep that holds every direct successor is exactly what lies below, and nothing there is cyclic. */
  lemma SweepDone(db: Db, key: Key, dead: set<Key>)
    requires Swept(db, key, dead)
    requires forall x :: Edge(db, key, x) ==> x in dead
    ensures dead == Below(db, key) && Acyclic(db, key)
  {
    BelowIsLeast(db, key, dead);
    InBelow(db, key, key);
    forall x | Reaches(db, key, x) ensures !Reaches(db, x, x) { InBelow(db, key, x); }
  }

  /** The statements that delete the event's own rows. */
  function DeleteRow(db: Db, key: Key): Db {
    db.(tombs := db.tombs + {key}, evidence := Erase(db.evidence, {key}),
        evidenceDocs := set d | d in db.evidenceDocs && d.key != key)
  }

  lemma DeleteRowApplies(db: Db, key: Key)
    ensures Apply(db, {}, {}, {key}) == DeleteRow(db, key)
  {
    ApplyNothing(db);
    var a, b := Apply(db, {}, {}, {key}), Apply(db, {}, {}, {});
    assert a.evidenceDocs == set d | d in db.evidenceDocs && d.key != key;
    assert a.tasks == b.tasks && a.memories == b.memories && a.notes == b.notes && a.reminders == b.reminders;
  }

  /** The dependency query: kind and subject of every row whose source is the event. */
  function DependentsOf(deps: set<Dep>, key: Key): (rows: set<Target>)
    ensures rows == TargetsOf(deps, {key})
  {
    set d | d in deps && d.Source() == key :: d.Target()
  }

  lemma DerivedRow(db: Db, key: Key, row: Target)
    requires row in DependentsOf(db.deps, key) && row.kind.DerivedDep?
    ensures Derives(db.deps, key, Key(key.owner, row.subject))
  {
    var d :| d in db.deps && d.Source() in {key} && d.Target() == row;
    assert d == Dep(DerivedDep, row.subject, key.owner, key.id, d.revision);
  }

  /** The tables after the rows `done` of the dependency query and the deletion of `dead`. */
  ghost predicate Stage(db: Db, now: Db, done: set<Target>, dead: set<Key>) {
    now == Apply(db, done + TargetsOf(db.deps, dead), TargetsOf(db.deps, dead), dead)
  }

  lemma StageStart(db: Db)
    ensures Stage(db, db, {}, {})
  {
    ApplyNothing(db);
    assert TargetsOf(db.deps, {}) == {};
    assert TargetsOf(db.deps, {}) + {} == {};
  }

  lemma StageRow(db: Db, now: Db, done: set<Target>, dead: set<Key>, row: Target)
    requires Stage(db, now, done, dead)
    ensures Stage(db, SoftRow(now, row), done + {row}, dead)
    ensures Without(db, now, dead)
  {
    var hit := TargetsOf(db.deps, dead);
    ApplyWithout(db, done + hit, hit, dead);
    SoftRowApplies(now, row);
    Compose(db, done + hit, hit, dead, {row}, {}, {});
    assert done + {row} + hit == done + hit + {row};
    assert hit + {} == hit && dead + {} == dead;
  }

  lemma StageDelete(db: Db, now: Db, done: set<Target>, dead: set<Key>, next: Key)
    requires Stage(db, now, done, dead)
    ensures Stage(db, DeleteSpec(now, next), done, dead + Below(now, next) + {next})
  {
    var more := Below(now, next) + {next};
    var hit, hit' := TargetsOf(db.deps, dead), TargetsOf(db.deps, more);
    Compose(db, done + hit, hit, dead, hit', hit', more);
    TargetsUnion(db.deps, dead, more);
    assert dead + Below(now, next) + {next} == dead + more;
    assert done + hit + hit' == done + (hit + hit');
  }

  /** The loop of `invalidate` part way: `done` rows handled, `dead` swept, nothing live among the handled left out. */
  ghost predicate Sweeping(db: Db, now: Db, key: Key, done: set<Target>, dead: set<Key>) {
    && Stage(db, now, done, dead)
    && Swept(db, key, dead)
    && forall s :: Hit(DerivedDep, s) in done && Live(db.evidence, Key(key.owner, s)) ==> Key(key.owner, s) in dead
  }

  lemma SweepStart(db: Db, key: Key)
    ensures Sweeping(db, db, key, {}, {})
  {
    StageStart(db);
  }

  /** A row that leads to no live derived event only softens its subject. */
  lemma SweepRow(db: Db, now: Db, key: Key, done: set<Target>, dead: set<Key>, row: Target)
    requires Sweeping(db, now, key, done, dead)
    requires row.kind.DerivedDep? ==> !Live(now.evidence, Key(key.owner, row.subject))
    ensures Sweeping(db, SoftRow(now, row), key, done + {row}, dead)
  {
    StageRow(db, now, done, dead, row);
  }

  /** A row that leads to a live derived event deletes it and everything below it. */
  lemma SweepDelete(db: Db, now: Db, key: Key, done: set<Target>, dead: set<Key>, row: Target)
    requires Sweeping(db, now, key, done, dead)
    requires row.kind.DerivedDep? && row in DependentsOf(db.deps, key)
    requires Live(now.evidence, Key(key.owner, row.subject)) && Acyclic(now, Key(key.owner, row.subject))
    ensures var next := Key(key.owner, row.subject);
            Sweeping(db, DeleteSpec(now, next), key, done + {row}, dead + Below(now, next) + {next})
  {
    var next := Key(key.owner, row.subject);
    StageRow(db, now, done, dead, row);
    SoftDerived(now, row);
    DerivedRow(db, key, row);
    Absorb(db, now, key, dead, next);
    StageDelete(db, now, done + {row}, dead, next);
  }

  lemma SoftDerived(db: Db, row: Target)
    requires row.kind.DerivedDep?
    ensures SoftRow(db, row) == db
  {}

  /** If that deletion runs out of stack, so does this one. */
  lemma SweepWalk(db: Db, now: Db, key: Key, done: set<Target>, dead: set<Key>, row: Target, steps: nat)
    requires Sweeping(db, now, key, done, dead)
    requires row.kind.DerivedDep? && row in DependentsOf(db.deps, key)
    requires Live(now.evidence, Key(key.owner, row.subject))
    requires Walk(now, Key(key.owner, row.subject), steps)
    ensures Walk(db, key, steps + 1)
  {
    StageRow(db, now, done, dead, row);
    DerivedRow(db, key, row);
    var next := Key(key.owner, row.subject);
    assert Edge(db, key, next);
    WalkMonotone(now, db, next, steps);
    WalkStep(db, key, next, steps);
  }

  lemma WalkStep(db: Db, from: Key, next: Key, steps: nat)
    requires Edge(db, from, next) && Walk(db, next, steps)
    ensures Walk(db, from, steps + 1)
  {}

  /** Either way, one deletion below carries the sweep, or its failure, one row further. */
  lemma SweepDerived(db: Db, now: Db, key: Key, done: set<Target>, dead: set<Key>, row: Target, later: Db, ok: bool,
                     steps: nat)
    requires Sweeping(db, now, key, done, dead)
    requires row.kind.DerivedDep? && row in DependentsOf(db.deps, key)
    requires Live(now.evidence, Key(key.owner, row.subject))
    requires ok ==> Acyclic(now, Key(key.owner, row.subject)) && later == DeleteSpec(now, Key(key.owner, row.subject))
    requires !ok ==> Walk(now, Key(key.owner, row.subject), steps)
    ensures ok ==> var next := Key(key.owner, row.subject);
            Sweeping(db, later, key, done + {row}, dead + Below(now, next) + {next})
    ensures !ok ==> Walk(db, key, steps + 1)
  {
    if ok { SweepDelete(db, now, key, done, dead, row); } else { SweepWalk(db, now, key, done, dead, row, steps); }
  }

  lemma SweepEnd(db: Db, now: Db, key: Key, done: set<Target>, dead: set<Key>)
    requires Sweeping(db, now, key, done, dead) && done == DependentsOf(db.deps, key)
    ensures Acyclic(db, key) && now == InvalidateSpec(db, key)
  {
    forall x | Edge(db, key, x) ensures x in dead {
      var r: nat :| Dep(DerivedDep, x.id, key.owner, key.id, r) in db.deps;
      assert Dep(DerivedDep, x.id, key.owner, key.id, r).Target() in done;
    }
    SweepDone(db, key, dead);
    TargetsUnion(db.deps, dead, {key});
    assert done + TargetsOf(db.deps, dead) == TargetsOf(db.deps, dead + {key});
  }

  /** The tables while the rows of a deleted event are purged: `done` of them have lost their content. */
  ghost predicate Purging(db: Db, now: Db, key: Key, done: set<Target>) {
    var dead := Below(db, key) + {key};
    now == Apply(db, TargetsOf(db.deps, dead), TargetsOf(db.deps, Below(db, key)) + done, dead)
  }

  lemma PurgeStart(db: Db, key: Key)
    ensures Purging(db, DeleteRow(InvalidateSpec(db, key), key), key, {})
  {
    var below := Below(db, key);
    var soft, hard := TargetsOf(db.deps, below + {key}), TargetsOf(db.deps, below);
    DeleteRowApplies(InvalidateSpec(db, key), key);
    Compose(db, soft, hard, below, {}, {}, {key});
    assert soft + {} == soft && hard + {} == hard;
  }

  lemma PurgeStep(db: Db, now: Db, key: Key, done: set<Target>, row: Target)
    requires Purging(db, now, key, done) && row in DependentsOf(db.deps, key)
    ensures Purging(db, HardRow(now, row), key, done + {row})
  {
    var below := Below(db, key);
    var soft, hard, dead := TargetsOf(db.deps, below + {key}), TargetsOf(db.deps, below), below + {key};
    Compose(db, soft, hard + done, dead, {row}, {}, {});
    Compose(db, soft, hard + done, dead, {row}, {row}, {});
    SoftRowApplies(now, row);
    TargetsUnion(db.deps, below, {key});
    assert soft + {row} == soft && hard + done + {} == hard + done && dead + {} == dead;
    HardRowApplies(now, row);
    assert hard + (done + {row}) == hard + done + {row};
  }

  lemma PurgeDone(db: Db, now: Db, key: Key, done: set<Target>)
    requires Purging(db, now, key, done) && done == DependentsOf(db.deps, key)
    ensures now == DeleteSpec(db, key)
  {
    TargetsUnion(db.deps, Below(db, key), {key});
  }

  /** A query result being consumed row by row. */
  ghost predicate Split(rows: set<Target>, done: set<Target>, todo: set<Target>) {
    done + todo == rows
  }

  lemma SplitStart(rows: set<Target>)
    ensures Split(rows, {}, rows)
  {}

  lemma SplitStep(rows: set<Target>, done: set<Target>, todo: set<Target>, row: Target)
    requires Split(rows, done, todo) && row in todo
    ensures row in rows && Split(rows, done + {row}, todo - {row})
    ensures |todo - {row}| < |todo|
  {}

  lemma SplitEnd(rows: set<Target>, done: set<Target>)
    requires Split(rows, done, {})
    ensures done == rows
  {}

  /** The store holds one database; every statement replaces the rows of one table of it. */
  class Ledger {
    var db: Db

    constructor ()
      ensures db == EMPTY
    {
      db := EMPTY;
    }

    method Cancel(id: string)
      modifies this
      ensures db == CancelSpec(old(db), id)
    {
      db := db.(notes := WithdrawNotes(db.notes, db.tasks, id));
      db := db.(tasks := CancelTasks(db.tasks, id));
    }

    method SoftenRow(row: Target)
      modifies this
      ensures db == SoftRow(old(db), row)
    {
      match row.kind
      case TaskDep => if row.subject in db.tasks { Cancel(db.tasks[row.subject].root); }
      case MemoryDep =>
        db := db.(memories := SetMemory(db.memories, row.subject, false));
        db := db.(memoryDocs := set d | d in db.memoryDocs && d.id != row.subject);
      case NotificationDep => db := db.(notes := SetNote(db.notes, row.subject, false));
      case ReminderDep => db := db.(reminders := SetReminder(db.reminders, row.subject, false));
      case DerivedDep =>
    }

    method PurgeRow(row: Target)
      modifies this
      ensures db == HardRow(old(db), row)
    {
      match row.kind
      case TaskDep =>
        if row.subject in db.tasks {
          var root := db.tasks[row.subject].root;
          db := db.(attached := Detach(db.attached, db.tasks, root));
          db := db.(tasks := BlankTasks(db.tasks, root));
        }
      case MemoryDep => db := db.(memories := SetMemory(db.memories, row.subject, true));
      case NotificationDep => db := db.(notes := SetNote(db.notes, row.subject, true));
      case ReminderDep => db := db.(reminders := SetReminder(db.reminders, row.subject, true));
      case DerivedDep =>
    }

    method EraseRows(key: Key)
      modifies this
      ensures db == DeleteRow(old(db), key)
    {
      db := db.(tombs := db.tombs + {key});
      db := db.(evidence := Erase(db.evidence, {key}));
      db := db.(evidenceDocs := set d | d in db.evidenceDocs && d.key != key);
    }

    /** Withdraw everything that depends on an event and delete everything derived from it.  `stack` is the
        number of nested deletions the call stack still allows; running out of it aborts the transaction. */
    method Invalidate(key: Key, stack: nat) returns (ok: bool)
      modifies this
      ensures ok ==> Acyclic(old(db), key) && db == InvalidateSpec(old(db), key)
      ensures !ok ==> Walk(old(db), key, stack + 1)
      decreases stack, 1
    {
      var todo := DependentsOf(db.deps, key);
      ghost var rows, start, done, dead := todo, db, {}, {};
      SplitStart(rows);
      SweepStart(db, key);
      while todo != {}
        invariant Split(rows, done, todo)
        invariant Sweeping(start, db, key, done, dead)
        decreases |todo|
      {
        var row :| row in todo;
        SplitStep(rows, done, todo, row);
        if row.kind.DerivedDep? && Live(db.evidence, Key(key.owner, row.subject)) {
          ok, dead := DeleteDerived(start, key, row, done, dead, stack);
          if !ok {
            return;
          }
        } else {
          SweepRow(start, db, key, done, dead, row);
          SoftenRow(row);
        }
        todo, done := todo - {row}, done + {row};
      }
      SplitEnd(rows, done);
      SweepEnd(start, db, key, done, dead);
      return true;
    }

    /** The loop body of `Invalidate` for a row that leads to live derived evidence. */
    method DeleteDerived(ghost start: Db, key: Key, row: Target, ghost done: set<Target>, ghost dead: set<Key>,
                         stack: nat)
      returns (ok: bool, ghost dead': set<Key>)
      requires Sweeping(start, db, key, done, dead) && row in DependentsOf(start.deps, key)
      requires row.kind.DerivedDep? && Live(db.evidence, Key(key.owner, row.subject))
      modifies this
      ensures ok ==> Sweeping(start, db, key, done + {row}, dead')
      ensures !ok ==> Walk(start, key, stack + 1)
      decreases stack, 0
    {
      ghost var now := db;
      ok := false;
      if stack > 0 {
        ok := DeleteEvidence(Key(key.owner, row.subject), stack - 1);
      }
      SweepDerived(start, now, key, done, dead, row, db, ok, stack);
      dead' := dead + Below(now, Key(key.owner, row.subject)) + {Key(key.owner, row.subject)};
    }

    /** Delete an event for good: tombstone it, drop its content, and purge whatever was derived from it. */
    method DeleteEvidence(key: Key, stack: nat) returns (ok: bool)
      modifies this
      ensures ok ==> Acyclic(old(db), key) && db == DeleteSpec(old(db), key)
      ensures !ok ==> Walk(old(db), key, stack + 1) && db == old(db)
      decreases stack, 2
    {
      var saved := db;
      ok := Invalidate(key, stack);
      if !ok {
        db := saved;
        return;
      }
      EraseRows(key);
      PurgeStart(saved, key);
      var todo := DependentsOf(db.deps, key);
      ghost var rows, done := todo, {};
      SplitStart(rows);
      while todo != {}
        invariant Split(rows, done, todo)
        invariant Purging(saved, db, key, done)
        decreases |todo|
      {
        var row :| row in todo;
        SplitStep(rows, done, todo, row);
        PurgeStep(saved, db, key, done, row);
        PurgeRow(row);
        todo, done := todo - {row}, done + {row};
      }
      SplitEnd(rows, done);
      PurgeDone(saved, db, key, done);
    }

    /** Store a revision.  A duplicate or late one changes no standing; a newer one withdraws what cited the old. */
    method Ingest(owner: string, e: Event, at: int, stack: nat) returns (ok: bool)
      modifies this
      ensures ok ==> IngestSpec(old(db), owner, e, at) == Some(db)
      ensures !ok ==> db == old(db)
      ensures !ok ==> IngestSpec(db, owner, e, at).None? || Walk(Stored(db, owner, e, at), Key(owner, e.id), stack + 1)
    {
      var key, saved := Key(owner, e.id), db;
      if key in db.tombs {
        return false;
      }
      var prior := Find(db.evidence, key, e.revision);
      if prior.Some? {
        return prior.value.payload == Some(e);
      }
      var latest := Latest(db.evidence, key);
      if latest.Some? && !latest.value.SameIdentity(e) {
        return false;
      }
      db := db.(evidence := db.evidence + [Row(key, e.revision, Some(e), at)]);
      ok := true;
      if latest.None? || latest.value.revision < e.revision {
        ok := Invalidate(key, stack);
        if ok {
          IndexRevision(key, e);
        } else {
          db := saved;
        }
      }
    }

    /** Replace the full-text row of an event. */
    method IndexRevision(key: Key, e: Event)
      modifies this
      ensures db == IndexEvent(old(db), key, e)
    {
      db := db.(evidenceDocs := set d | d in db.evidenceDocs && d.key != key);
      if e.final {
        db := db.(evidenceDocs := db.evidenceDocs + {EvidenceDoc(key, e.revision, e.text)});
      }
    }

    /** Record what a subject cites. */
    method AddDependencies(kind: DepKind, subject: string, owner: string, refs: seq<Ref>)
      modifies this
      ensures db == old(db).(deps := Depend(old(db).deps, kind, subject, owner, refs))
    {
      for i := 0 to |refs|
        invariant db == old(db).(deps := Depend(old(db).deps, kind, subject, owner, refs[..i]))
      {
        db := db.(deps := db.deps + {Dep(kind, subject, owner, refs[i].eventId, refs[i].revision)});
        assert refs[..i + 1] == refs[..i] + [refs[i]];
      }
      assert refs[..|refs|] == refs;
    }

    /** The newest version of a memory. */
    method NewestMemory(owner: string, key: string) returns (newest: Option<string>)
      ensures newest.None? ==> forall x :: x in db.memories ==> !SameKey(db.memories[x], owner, key)
      ensures newest.Some? ==> IsNewest(db.memories, owner, key, newest.value)
    {
      newest := None;
      var todo := db.memories.Keys;
      while todo != {}
        invariant todo <= db.memories.Keys
        invariant newest.None? ==> forall x :: x in db.memories.Keys - todo ==> !SameKey(db.memories[x], owner, key)
        invariant newest.Some? ==> newest.value in db.memories && SameKey(db.memories[newest.value], owner, key)
        invariant newest.Some? ==> forall x :: x in db.memories.Keys - todo && SameKey(db.memories[x], owner, key) ==>
          db.memories[x].version <= db.memories[newest.value].version
        decreases |todo|
      {
        var id :| id in todo;
        todo := todo - {id};
        if SameKey(db.memories[id], owner, key)
           && (newest.None? || db.memories[newest.value].version < db.memories[id].version) {
          newest := Some(id);
        }
      }
    }

    /** Write a memory that current evidence supports, as a new version unless nothing changed. */
    method Remember(owner: string, key: string, text: string, refs: seq<Ref>, id: string) returns (ok: bool)
      requires id !in db.memories
      modifies this
      ensures ok == Valid(old(db).evidence, owner, refs)
      ensures if ok then Remembers(old(db), owner, key, text, refs, id, db) else db == old(db)
    {
      if !Valid(db.evidence, owner, refs) {
        return false;
      }
      var newest := NewestMemory(owner, key);
      var version := 1;
      if newest.Some? {
        var m := db.memories[newest.value];
        if m.active && m.text == text && m.refs == refs {
          return true;
        }
        db := db.(memories := Retire(db.memories, owner, key, false));
        db := db.(memoryDocs := set d | d in db.memoryDocs && d.id != newest.value);
        version := m.version + 1;
      }
      db := db.(memories := db.memories[id := Memory(owner, key, version, text, refs, true)]);
      db := db.(memoryDocs := db.memoryDocs + {MemoryDoc(owner, id, text)});
      AddDependencies(MemoryDep, id, owner, refs);
      return true;
    }

    /** Remove every version of a memory and cancel the task families that retrieved its sources. */
    method Forget(owner: string, id: string) returns (found: bool)
      modifies this
      ensures found == Recallable(old(db), owner, id)
      ensures db == ForgetSpec(old(db), owner, id)
    {
      if !Recallable(db, owner, id) {
        return false;
      }
      var m := db.memories[id];
      ghost var start := db;
      ApplyNothing(db);
      assert Retrievers(db, owner, []) == {};
      for i := 0 to |m.refs|
        invariant db == Apply(start, Retrievers(start, owner, m.refs[..i]), {}, {})
      {
        CancelRetrievers(start, owner, m.refs[..i], m.refs[i]);
        assert m.refs[..i + 1] == m.refs[..i] + [m.refs[i]];
      }
      assert m.refs[..|m.refs|] == m.refs;
      RetrieversOnlyTasks(start, owner, m.refs);
      db := db.(memories := Retire(db.memories, owner, m.key, true));
      db := db.(memoryDocs := set d | d in db.memoryDocs &&
                  !(d.owner == owner && d.id in db.memories && SameKey(db.memories[d.id], owner, m.key)));
      return true;
    }

    /** The inner loop of `Forget`: cancel the family of every task that cites one reference. */
    method CancelRetrievers(ghost start: Db, owner: string, ghost before: seq<Ref>, ref: Ref)
      requires db == Apply(start, Retrievers(start, owner, before), {}, {})
      modifies this
      ensures db == Apply(start, Retrievers(start, owner, before + [ref]), {}, {})
    {
      var todo := Retrievers(db, owner, [ref]);
      ghost var rows, done, base := todo, {}, Retrievers(start, owner, before);
      SplitStart(rows);
      assert base + done == base;
      while todo != {}
        invariant Split(rows, done, todo)
        invariant forall row :: row in todo ==> row.kind == TaskDep
        invariant db == Apply(start, base + done, {}, {})
        decreases |todo|
      {
        var row :| row in todo;
        SplitStep(rows, done, todo, row);
        SoftRowApplies(db, row);
        Compose(start, base + done, {}, {}, {row}, {}, {});
        SoftenRow(row);
        assert base + (done + {row}) == base + done + {row};
        todo, done := todo - {row}, done + {row};
      }
      SplitEnd(rows, done);
      assert base + rows == Retrievers(start, owner, before + [ref]);
    }

    /** Create a task for current evidence; a subtask also makes its root depend on it. */
    method CreateTask(id: string, owner: string, goal: string, refs: seq<Ref>, parent: Option<Parent>)
      returns (ok: bool)
      modifies this
      ensures CreateTaskSpec(old(db), id, owner, goal, refs, parent) == if ok then Some(db) else None
      ensures !ok ==> db == old(db)
    {
      if !Valid(db.evidence, owner, refs) {
        return false;
      }
      if id in db.tasks {
        return true;
      }
      var root := if parent.Some? then parent.value.root else id;
      var above := if parent.Some? then Some(parent.value.id) else None;
      db := db.(tasks := db.tasks[id := Task(owner, above, root, goal, Queued, [], None)]);
      AddDependencies(TaskDep, id, owner, refs);
      if parent.Some? {
        AddDependencies(TaskDep, root, owner, refs);
      }
      return true;
    }

    method Bind(task: Parent, owner: string, refs: seq<Ref>) returns (ok: bool)
      modifies this
      ensures BindSpec(old(db), task, owner, refs) == if ok then Some(db) else None
      ensures !ok ==> db == old(db)
    {
      ok := Valid(db.evidence, owner, refs);
      if ok {
        AddDependencies(TaskDep, task.id, owner, refs);
        AddDependencies(TaskDep, task.root, owner, refs);
      }
    }

    /** Keep a tool result as evidence derived from what its task cites; a repeated call finds it there. */
    method RecordEvidence(task: Parent, owner: string, e: Event, at: int, stack: nat) returns (ok: bool)
      modifies this
      ensures ok ==> RecordSpec(old(db), task, owner, e, at) == Some(db)
      ensures !ok ==> db == old(db)
      ensures !ok ==> RecordSpec(db, task, owner, e, at).None?
                      || (!Live(db.evidence, Key(owner, e.id))
                        && Walk(Stored(db, owner, e, at), Key(owner, e.id), stack + 1))
    {
      ok := true;
      if !Live(db.evidence, Key(owner, e.id)) {
        ok := Ingest(owner, e, at, stack);
      }
      if ok {
        db := db.(deps := db.deps + set r | r in RefsOf(db.deps, TaskDep, task.id) && r.eventId != e.id
                                      :: Dep(DerivedDep, e.id, owner, r.eventId, r.revision));
        AddDependencies(TaskDep, task.id, owner, [e.AsRef()]);
        AddDependencies(TaskDep, task.root, owner, [e.AsRef()]);
      }
    }

    method Notify(id: string, task: string, owner: string, text: string, refs: seq<Ref>) returns (ok: bool)
      modifies this
      ensures NotifySpec(old(db), id, task, owner, text, refs) == if ok then Some(db) else None
      ensures !ok ==> db == old(db)
    {
      ok := Valid(db.evidence, owner, refs);
      if ok {
        if id !in db.notes {
          db := db.(notes := db.notes[id := Note(owner, task, text, refs, Pending)]);
        }
        AddDependencies(NotificationDep, id, owner, refs);
      }
    }

    /** Arm a reminder and ingest its receipt in one transaction. */
    method CreateReminder(id: string, owner: string, task: string, text: string, refs: seq<Ref>, e: Event, at: int,
                          stack: nat)
      returns (ok: bool)
      modifies this
      ensures ok ==> CreateReminderSpec(old(db), id, owner, task, text, refs, e, at) == Some(db)
      ensures !ok ==> db == old(db)
      ensures !ok ==> CreateReminderSpec(db, id, owner, task, text, refs, e, at).None?
                      || Walk(Stored(ArmedReminder(db, id, owner, task, text, refs), owner, e, at), Key(owner, e.id),
                              stack + 1)
    {
      if id in db.reminders {
        return db.reminders[id].owner == owner;
      }
      if !Valid(db.evidence, owner, refs) {
        return false;
      }
      var saved := db;
      db := db.(reminders := db.reminders[id := Reminder(owner, task, text, refs, Armed)]);
      AddDependencies(ReminderDep, id, owner, refs);
      ok := Ingest(owner, e, at, stack);
      if ok {
        AddDependencies(DerivedDep, e.id, owner, refs);
      } else {
        db := saved;
      }
    }
  }

  lemma RetrieversOnlyTasks(db: Db, owner: string, refs: seq<Ref>)
    ensures Apply(db, Retrievers(db, owner, refs), {}, {}).memories == db.memories
    ensures Apply(db, Retrievers(db, owner, refs), {}, {}).memoryDocs == db.memoryDocs
  {}

  /** The cascade from an event ends, on a deep enough stack, exactly when it can enter no cycle: otherwise
      walks of every length start there, and with `DeleteEvidence` no stack is deep enough. */
  lemma CascadeEndsExactlyWithoutCycle(db: Db, key: Key)
    ensures Acyclic(db, key) <==> exists bound: nat :: !Walk(db, key, bound)
    ensures Acyclic(db, key) ==> forall n: nat :: Walk(db, key, n) ==> n <= |Below(db, key)|
  {
    if Acyclic(db, key) {
      forall n: nat | Walk(db, key, n) ensures n <= |Below(db, key)| { WalkBound(db, key, n); }
      assert !Walk(db, key, |Below(db, key)| + 1);
    } else {
      forall n: nat ensures Walk(db, key, n) { CycleWalks(db, key, n); }
    }
  }
}
