/** What each operation of the ledger writes, said row by row and without the functions that compute it. */
module LedgerEffects {
  import opened Evidence
  import opened Cascade
  import opened LedgerOps
  import opened LedgerSafety
  import opened LedgerFindings

  // ---- Which evidence is current ----

  /** The row of the event with the highest revision. */
  predicate IsTop(rows: seq<Row>, key: Key, i: int) {
    && 0 <= i < |rows| && rows[i].key == key
    && forall j :: 0 <= j < |rows| && rows[j].key == key ==> rows[j].revision <= rows[i].revision
  }

  lemma TopIs(rows: seq<Row>, key: Key, i: int)
    requires Unique(rows) && IsTop(rows, key, i)
    ensures Top(rows, key) == Some(rows[i])
  {
    assert rows[i] in rows;
    var t := Top(rows, key).value;
    var j :| 0 <= j < |rows| && rows[j] == t;
    assert i == j;
  }

  lemma TopExists(rows: seq<Row>, key: Key) returns (i: int)
    requires Unique(rows) && Top(rows, key).Some?
    ensures IsTop(rows, key, i) && Top(rows, key) == Some(rows[i])
  {
    i :| 0 <= i < |rows| && rows[i] == Top(rows, key).value;
    forall j | 0 <= j < |rows| && rows[j].key == key ensures rows[j].revision <= rows[i].revision {
      assert rows[j] in rows;
    }
  }

  /** A reference is current exactly when the highest revision of its event is the one named, undeleted and final. */
  lemma CurrentMeans(db: Db, owner: string, ref: Ref)
    requires RowsOk(db)
    ensures Current(db.evidence, owner, ref) <==>
              exists i :: IsTop(db.evidence, Key(owner, ref.eventId), i) && db.evidence[i].revision == ref.revision
                          && db.evidence[i].payload.Some? && db.evidence[i].payload.value.final
  {
    var key := Key(owner, ref.eventId);
    if Top(db.evidence, key).Some? {
      var i := TopExists(db.evidence, key);
      assert db.evidence[i] in db.evidence;
    }
    forall i | IsTop(db.evidence, key, i) ensures Top(db.evidence, key) == Some(db.evidence[i]) {
      TopIs(db.evidence, key, i);
      assert db.evidence[i] in db.evidence;
    }
  }

  /** One event is derived from another exactly when such a derivation is recorded, for one owner, and the newest
      revision of the derived event is not deleted. */
  lemma EdgeMeans(db: Db, from: Key, to: Key)
    requires RowsOk(db)
    ensures Edge(db, from, to) <==>
              && from.owner == to.owner
              && (exists r: nat :: Dep(DerivedDep, to.id, to.owner, from.id, r) in db.deps)
              && exists i :: IsTop(db.evidence, to, i) && db.evidence[i].payload.Some?
  {
    if Top(db.evidence, to).Some? {
      var i := TopExists(db.evidence, to);
    }
    forall i | IsTop(db.evidence, to, i) ensures Top(db.evidence, to) == Some(db.evidence[i]) {
      TopIs(db.evidence, to, i);
    }
  }

  // ---- Storing a revision ----

  ghost predicate HasRevision(rows: seq<Row>, key: Key, revision: nat) {
    exists i :: 0 <= i < |rows| && rows[i].key == key && rows[i].revision == revision
  }

  ghost predicate HasOther(rows: seq<Row>, key: Key, e: Event) {
    exists i :: 0 <= i < |rows| && rows[i].key == key && rows[i].revision == e.revision && rows[i].payload != Some(e)
  }

  /** The newest revision comes from another device or stream, or is of another kind. */
  ghost predicate IdentityChanges(rows: seq<Row>, key: Key, e: Event) {
    exists i :: IsTop(rows, key, i) && rows[i].payload.Some?
                && var x := rows[i].payload.value;
                   x.deviceId != e.deviceId || x.streamId != e.streamId || x.kind != e.kind
  }

  ghost predicate NewestYet(rows: seq<Row>, key: Key, revision: nat) {
    forall i :: 0 <= i < |rows| && rows[i].key == key ==> rows[i].revision < revision
  }

  /** Why a revision is refused, and what else there is: it is there already, it is late, or it becomes the newest. */
  lemma IngestDecides(db: Db, owner: string, e: Event, at: int)
    requires RowsOk(db)
    ensures var key, rows, result := Key(owner, e.id), db.evidence, IngestSpec(db, owner, e, at);
            var row := Row(key, e.revision, Some(e), at);
            && (result.None? <==>
                  || key in db.tombs
                  || HasOther(rows, key, e)
                  || (!HasRevision(rows, key, e.revision) && IdentityChanges(rows, key, e))
                  || (NewestYet(rows, key, e.revision) && !Acyclic(db.(evidence := rows + [row]), key)))
            && (result.Some? && HasRevision(rows, key, e.revision) ==> result.value == db)
            && (result.Some? && !HasRevision(rows, key, e.revision) && !NewestYet(rows, key, e.revision) ==>
                  result.value == db.(evidence := rows + [row]))
  {
    var key, rows := Key(owner, e.id), db.evidence;
    FindMeans(db, key, e);
    if key !in db.tombs {
      LatestOfUndeleted(db, key);
      TopMeans(db, key, e);
    }
  }

  lemma FindMeans(db: Db, key: Key, e: Event)
    requires RowsOk(db)
    ensures var prior := Find(db.evidence, key, e.revision);
            && (prior.Some? <==> HasRevision(db.evidence, key, e.revision))
            && (HasOther(db.evidence, key, e) <==> prior.Some? && prior.value.payload != Some(e))
  {
    var rows, prior := db.evidence, Find(db.evidence, key, e.revision);
    if prior.Some? {
      var i :| 0 <= i < |rows| && rows[i] == prior.value;
      forall j | 0 <= j < |rows| && rows[j].key == key && rows[j].revision == e.revision
        ensures rows[j] == prior.value
      {
        assert i == j;
      }
    } else {
      forall i | 0 <= i < |rows| && rows[i].key == key ensures rows[i].revision != e.revision {
        assert rows[i] in rows;
      }
    }
  }

  lemma TopMeans(db: Db, key: Key, e: Event)
    requires RowsOk(db) && key !in db.tombs
    ensures var latest := Latest(db.evidence, key);
            && (IdentityChanges(db.evidence, key, e) <==> latest.Some? && !latest.value.SameIdentity(e))
            && (NewestYet(db.evidence, key, e.revision) <==> latest.None? || latest.value.revision < e.revision)
  {
    var rows := db.evidence;
    LatestOfUndeleted(db, key);
    if Top(rows, key).Some? {
      var i := TopExists(rows, key);
      forall j | IsTop(rows, key, j) ensures rows[j] == rows[i] { TopIs(rows, key, j); }
      if rows[i].revision < e.revision {
        assert NewestYet(rows, key, e.revision);
      }
    } else {
      forall j | 0 <= j < |rows| ensures rows[j].key != key { assert rows[j] in rows; }
    }
  }

  /** The row has a recorded dependency on something derived from the event. */
  ghost predicate DerivedTainted(db: Db, key: Key, kind: DepKind, id: string) {
    exists d :: d in db.deps && d.kind == kind && d.subject == id && Reaches(db, key, d.Source())
  }

  ghost predicate DerivedFamily(db: Db, key: Key, root: string) {
    exists t :: t in db.tasks && db.tasks[t].root == root && DerivedTainted(db, key, TaskDep, t)
  }

  lemma HitIffDerived(db: Db, key: Key, kind: DepKind, id: string)
    ensures Hit(kind, id) in TargetsOf(db.deps, Below(db, key)) <==> DerivedTainted(db, key, kind, id)
  {
    forall s ensures s in Below(db, key) <==> Reaches(db, key, s) { InBelow(db, key, s); }
    if DerivedTainted(db, key, kind, id) {
      var d :| d in db.deps && d.kind == kind && d.subject == id && Reaches(db, key, d.Source());
      assert d.Target() == Hit(kind, id);
    }
  }

  lemma RootIffDerived(db: Db, key: Key, root: string)
    ensures root in Roots(db.tasks, TargetsOf(db.deps, Below(db, key))) <==> DerivedFamily(db, key, root)
  {
    forall t ensures Hit(TaskDep, t) in TargetsOf(db.deps, Below(db, key)) <==> DerivedTainted(db, key, TaskDep, t) {
      HitIffDerived(db, key, TaskDep, t);
    }
  }

  ghost predicate MemoryWithdrawn(stored: Db, after: Db, key: Key, m: string)
    requires m in stored.memories
  {
    m in after.memories && after.memories[m] ==
      if DerivedTainted(stored, key, MemoryDep, m) then stored.memories[m].(text := "", refs := [], active := false)
      else if Tainted(stored, key, MemoryDep, m) then stored.memories[m].(active := false)
      else stored.memories[m]
  }

  ghost predicate ReminderWithdrawn(stored: Db, after: Db, key: Key, r: string)
    requires r in stored.reminders
  {
    r in after.reminders && after.reminders[r] ==
      if DerivedTainted(stored, key, ReminderDep, r) then stored.reminders[r].(text := "", refs := [], state := Dropped)
      else if Tainted(stored, key, ReminderDep, r) then stored.reminders[r].(state := Dropped)
      else stored.reminders[r]
  }

  ghost predicate TaskWithdrawn(stored: Db, after: Db, key: Key, t: string)
    requires t in stored.tasks
  {
    var x := stored.tasks[t];
    var status := if x.status.Active() && CancelledTask(stored, key, t) then Cancelled else x.status;
    t in after.tasks && after.tasks[t] ==
      if DerivedFamily(stored, key, x.root) then x.(status := status, goal := ERASED, log := [], result := None)
      else x.(status := status)
  }

  ghost predicate NoteWithdrawn(stored: Db, after: Db, key: Key, n: string)
    requires n in stored.notes
  {
    var x := stored.notes[n];
    n in after.notes && after.notes[n] ==
      if DerivedTainted(stored, key, NotificationDep, n) then x.(text := "", refs := [], state := Withdrawn)
      else if Tainted(stored, key, NotificationDep, n) || CancelledTask(stored, key, x.task)
      then x.(state := Withdrawn)
      else x
  }

  /** A revision that becomes the newest withdraws every memory, reminder, notification and task family that
      depends on the event or on what was derived from it, blanks those that depend on what was derived, deletes what
      was derived, and lists the event by its new text if it is final. */
  lemma SupersedingIsExact(db: Db, owner: string, e: Event, at: int)
    requires RowsOk(db) && IngestSpec(db, owner, e, at).Some? && NewestYet(db.evidence, Key(owner, e.id), e.revision)
    ensures var key, after := Key(owner, e.id), IngestSpec(db, owner, e, at).value;
            var stored := db.(evidence := db.evidence + [Row(key, e.revision, Some(e), at)]);
            && Latest(after.evidence, key) == Some(e)
            && (forall k :: k != key ==>
                  Latest(after.evidence, k) == if Reaches(stored, key, k) then None else Latest(db.evidence, k))
            && (forall m :: m in db.memories ==> MemoryWithdrawn(stored, after, key, m))
            && (forall r :: r in db.reminders ==> ReminderWithdrawn(stored, after, key, r))
            && (forall t :: t in db.tasks ==> TaskWithdrawn(stored, after, key, t))
            && (forall n :: n in db.notes ==> NoteWithdrawn(stored, after, key, n))
            && (forall d: MemoryDoc :: d in after.memoryDocs <==>
                  d in db.memoryDocs && !Tainted(stored, key, MemoryDep, d.id))
            && (forall d: EvidenceDoc :: d in after.evidenceDocs <==>
                  if d.key == key then e.final && d.revision == e.revision && d.text == e.text
                  else d in db.evidenceDocs && !Reaches(stored, key, d.key))
            && after.deps == db.deps
  {
    var key, stored := Key(owner, e.id), Stored(db, owner, e, at);
    assert stored == db.(evidence := db.evidence + [Row(key, e.revision, Some(e), at)]);
    IngestDecides(db, owner, e, at);
    FindMeans(db, key, e);
    TopMeans(db, key, e);
    StoredLatest(db, owner, e, at);
    LatestOfUndeleted(db, key);
    var after, mid := IngestSpec(db, owner, e, at).value, InvalidateSpec(stored, key);
    assert after == IndexEvent(mid, key, e);
    forall k ensures Latest(after.evidence, k) == if Reaches(stored, key, k) then None else Latest(stored.evidence, k) {
      InBelow(stored, key, k);
      LatestErase(stored.evidence, Below(stored, key), k);
    }
    WithdrawnRows(stored, mid, key);
    WithdrawnNotes(stored, mid, key);
    forall m ensures Hit(MemoryDep, m) in TargetsOf(stored.deps, Below(stored, key) + {key})
                     <==> Tainted(stored, key, MemoryDep, m)
    {
      HitIffTainted(stored, key, MemoryDep, m);
    }
    forall d: EvidenceDoc ensures d in mid.evidenceDocs <==> d in db.evidenceDocs && !Reaches(stored, key, d.key) {
      InBelow(stored, key, d.key);
    }
  }

  lemma WithdrawnRows(stored: Db, mid: Db, key: Key)
    requires mid == InvalidateSpec(stored, key)
    ensures forall m :: m in stored.memories ==> MemoryWithdrawn(stored, mid, key, m)
    ensures forall r :: r in stored.reminders ==> ReminderWithdrawn(stored, mid, key, r)
    ensures forall t :: t in stored.tasks ==> TaskWithdrawn(stored, mid, key, t)
  {
    forall m | m in stored.memories ensures MemoryWithdrawn(stored, mid, key, m) {
      HitIffTainted(stored, key, MemoryDep, m);
      HitIffDerived(stored, key, MemoryDep, m);
    }
    forall r | r in stored.reminders ensures ReminderWithdrawn(stored, mid, key, r) {
      HitIffTainted(stored, key, ReminderDep, r);
      HitIffDerived(stored, key, ReminderDep, r);
    }
    forall t | t in stored.tasks ensures TaskWithdrawn(stored, mid, key, t) {
      RootIffTainted(stored, key, stored.tasks[t].root);
      RootIffTainted(stored, key, t);
      RootIffDerived(stored, key, stored.tasks[t].root);
    }
  }

  lemma WithdrawnNotes(stored: Db, mid: Db, key: Key)
    requires mid == InvalidateSpec(stored, key)
    ensures forall n :: n in stored.notes ==> NoteWithdrawn(stored, mid, key, n)
  {
    forall n | n in stored.notes ensures NoteWithdrawn(stored, mid, key, n) {
      var t := stored.notes[n].task;
      HitIffTainted(stored, key, NotificationDep, n);
      HitIffDerived(stored, key, NotificationDep, n);
      if t in stored.tasks {
        RootIffTainted(stored, key, stored.tasks[t].root);
        RootIffTainted(stored, key, t);
      }
    }
  }

  // ---- Remembering and forgetting ----

  /** The newest version of the key is active and says the same already. */
  ghost predicate SaidAlready(db: Db, owner: string, key: string, text: string, refs: seq<Ref>) {
    exists o :: o in db.memories && db.memories[o].owner == owner && db.memories[o].key == key
                && db.memories[o].active && db.memories[o].text == text && db.memories[o].refs == refs
                && forall x :: x in db.memories && db.memories[x].owner == owner && db.memories[x].key == key ==>
                     db.memories[x].version <= db.memories[o].version
  }

  /** The one active version of the key says what was given, and is listed. */
  ghost predicate Says(db: Db, owner: string, key: string, text: string, refs: seq<Ref>, id: string) {
    && id in db.memories && db.memories[id].owner == owner && db.memories[id].key == key
    && db.memories[id].active && db.memories[id].text == text && db.memories[id].refs == refs
    && MemoryDoc(owner, id, text) in db.memoryDocs
    && forall x :: x in db.memories && !Elsewhere(db.memories[x], owner, key) && db.memories[x].active ==> x == id
  }

  ghost predicate Elsewhere(m: Memory, owner: string, key: string) {
    m.owner != owner || m.key != key
  }

  /** The version that follows all of a key's. */
  ghost predicate NextVersion(db: Db, owner: string, key: string, version: nat) {
    && (forall x :: x in db.memories && !Elsewhere(db.memories[x], owner, key) ==> db.memories[x].version < version)
    && (version == 1 || exists x :: x in db.memories && !Elsewhere(db.memories[x], owner, key)
                                    && db.memories[x].version + 1 == version)
  }

  /** The tables with one memory row more, the other versions of its key retired, and its dependencies. */
  ghost predicate OneMore(db: Db, owner: string, key: string, refs: seq<Ref>, id: string, after: Db) {
    && after.memories.Keys == db.memories.Keys + {id} && id in after.memories
    && NextVersion(db, owner, key, after.memories[id].version)
    && (forall x :: x in db.memories ==>
          after.memories[x]
          == if Elsewhere(db.memories[x], owner, key) then db.memories[x] else db.memories[x].(active := false))
    && (forall d :: d in after.memoryDocs <==>
          || (d.owner == owner && d.id == id && d.text == after.memories[id].text)
          || (d in db.memoryDocs && d.id in db.memories && Elsewhere(db.memories[d.id], owner, key)))
    && (forall d :: d in after.deps <==>
          || d in db.deps
          || (d.kind == MemoryDep && d.subject == id && d.owner == owner && Ref(d.eventId, d.revision) in refs))
    && after == db.(memories := after.memories, memoryDocs := after.memoryDocs, deps := after.deps)
  }

  /** After remembering, the key's one active version says what was given; unless it said so before, that is a new
      row, the next version, and the only change besides the retired versions, their documents and the dependencies
      of the new row. */
  lemma RememberWrites(db: Db, owner: string, key: string, text: string, refs: seq<Ref>, id: string, after: Db)
    requires VersionsOk(db.memories) && MemoryDocsOk(db) && Remembers(db, owner, key, text, refs, id, after)
    ensures exists x :: Says(after, owner, key, text, refs, x)
    ensures SaidAlready(db, owner, key, text, refs) ==> after == db
    ensures !SaidAlready(db, owner, key, text, refs) ==>
              Says(after, owner, key, text, refs, id) && OneMore(db, owner, key, refs, id, after)
  {
    if o :| IsNewest(db.memories, owner, key, o) && after == RememberOver(db, Some(o), owner, key, text, refs, id) {
      RememberOverWrites(db, o, owner, key, text, refs, id, after);
    } else {
      assert after == AddMemory(db, id, Memory(owner, key, 1, text, refs, true));
      assert Says(after, owner, key, text, refs, id);
    }
  }

  lemma RememberOverWrites(db: Db, o: string, owner: string, key: string, text: string, refs: seq<Ref>, id: string,
                           after: Db)
    requires VersionsOk(db.memories) && MemoryDocsOk(db) && id !in db.memories
    requires IsNewest(db.memories, owner, key, o) && after == RememberOver(db, Some(o), owner, key, text, refs, id)
    ensures exists x :: Says(after, owner, key, text, refs, x)
    ensures SaidAlready(db, owner, key, text, refs) ==> after == db
    ensures !SaidAlready(db, owner, key, text, refs) ==>
              Says(after, owner, key, text, refs, id) && OneMore(db, owner, key, refs, id, after)
  {
    var m := db.memories[o];
    OldVersions(db, o, owner, key);
    if m.active && m.text == text && m.refs == refs {
      assert MemoryDoc(owner, o, text) in db.memoryDocs;
      assert Says(after, owner, key, text, refs, o);
      assert SaidAlready(db, owner, key, text, refs);
    } else {
      if SaidAlready(db, owner, key, text, refs) { OnlyNewestSays(db, o, owner, key, text, refs); }
      NewVersion(db, o, owner, key, text, refs, id, after);
    }
  }

  lemma OldVersions(db: Db, o: string, owner: string, key: string)
    requires VersionsOk(db.memories) && IsNewest(db.memories, owner, key, o)
    ensures forall x :: x in db.memories && !Elsewhere(db.memories[x], owner, key) && db.memories[x].active ==> x == o
  {}

  lemma OnlyNewestSays(db: Db, o: string, owner: string, key: string, text: string, refs: seq<Ref>)
    requires VersionsOk(db.memories) && IsNewest(db.memories, owner, key, o)
    requires SaidAlready(db, owner, key, text, refs)
    ensures db.memories[o].active && db.memories[o].text == text && db.memories[o].refs == refs
  {
    OldVersions(db, o, owner, key);
    var p :| p in db.memories && db.memories[p].owner == owner && db.memories[p].key == key && db.memories[p].active
             && db.memories[p].text == text && db.memories[p].refs == refs;
    assert p == o;
  }

  lemma NewVersion(db: Db, o: string, owner: string, key: string, text: string, refs: seq<Ref>, id: string, after: Db)
    requires VersionsOk(db.memories) && MemoryDocsOk(db) && id !in db.memories && IsNewest(db.memories, owner, key, o)
    requires var m := db.memories[o];
             after == AddMemory(db.(memories := Retire(db.memories, owner, key, false),
                                    memoryDocs := (set d | d in db.memoryDocs && d.id != o)),
                                id, Memory(owner, key, m.version + 1, text, refs, true))
    ensures Says(after, owner, key, text, refs, id) && OneMore(db, owner, key, refs, id, after)
  {
    OldVersions(db, o, owner, key);
    assert after.memories.Keys == db.memories.Keys + {id};
    assert NextVersion(db, owner, key, after.memories[id].version) by {
      assert after.memories[id].version == db.memories[o].version + 1;
    }
  }

  /** Some reference of the memory is cited by a task of the family, under the memory's owner. */
  ghost predicate Retrieved(db: Db, owner: string, refs: seq<Ref>, t: string) {
    exists d :: d in db.deps && d.kind == TaskDep && d.owner == owner && Ref(d.eventId, d.revision) in refs
                && d.subject in db.tasks && t in db.tasks
                && (db.tasks[d.subject].root == db.tasks[t].root || db.tasks[d.subject].root == t)
  }

  /** An active memory of the owner whose sources are all current. */
  ghost predicate MayForget(db: Db, owner: string, id: string) {
    && id in db.memories && db.memories[id].owner == owner && db.memories[id].active
    && AllCurrent(db, owner, db.memories[id].refs)
  }

  /** Forgetting blanks every version of the key with its documents, cancels exactly the families that retrieved a
      source of the version recalled, and touches no other memory, no evidence and no reminder. */
  lemma ForgetIsExact(db: Db, owner: string, id: string)
    ensures !MayForget(db, owner, id) ==> ForgetSpec(db, owner, id) == db
    ensures MayForget(db, owner, id) ==>
              var key, refs, after := db.memories[id].key, db.memories[id].refs, ForgetSpec(db, owner, id);
              && after.memories.Keys == db.memories.Keys
              && (forall x :: x in db.memories ==>
                    after.memories[x]
                    == if Elsewhere(db.memories[x], owner, key) then db.memories[x]
                       else db.memories[x].(text := "", refs := [], active := false))
              && (forall d :: d in after.memoryDocs <==>
                    d in db.memoryDocs
                    && !(d.owner == owner && d.id in db.memories && !Elsewhere(db.memories[d.id], owner, key)))
              && after.tasks.Keys == db.tasks.Keys
              && (forall t :: t in db.tasks ==>
                    after.tasks[t]
                    == if db.tasks[t].status.Active() && Retrieved(db, owner, refs, t)
                       then db.tasks[t].(status := Cancelled) else db.tasks[t])
              && after.evidence == db.evidence && after.tombs == db.tombs && after.reminders == db.reminders
              && after.deps == db.deps && after.attached == db.attached
  {
    if id in db.memories { ValidMeans(db, owner, db.memories[id].refs); }
    if Recallable(db, owner, id) {
      var refs := db.memories[id].refs;
      var hits := Retrievers(db, owner, refs);
      NothingErased(db);
      ForgetCancels(db, owner, refs);
      assert Roots(db.tasks, {}) == {};
      assert AttachedAfter(db.attached, db.tasks, {}) == db.attached;
      assert RemindersAfter(db.reminders, hits, {}) == db.reminders by {
        assert forall r :: Hit(ReminderDep, r) !in hits;
      }
    }
  }

  lemma ForgetCancels(db: Db, owner: string, refs: seq<Ref>)
    ensures var hits := Retrievers(db, owner, refs);
            TasksAfter(db.tasks, hits, {}).Keys == db.tasks.Keys
            && forall t :: t in db.tasks ==>
                 TasksAfter(db.tasks, hits, {})[t]
                 == if db.tasks[t].status.Active() && Retrieved(db, owner, refs, t)
                    then db.tasks[t].(status := Cancelled) else db.tasks[t]
  {
    var hits := Retrievers(db, owner, refs);
    assert Roots(db.tasks, {}) == {};
    forall t | t in db.tasks ensures InFamily(db.tasks, t, Roots(db.tasks, hits)) <==> Retrieved(db, owner, refs, t) {
      RetrievedFamily(db, owner, refs, t);
    }
  }

  lemma RetrievedFamily(db: Db, owner: string, refs: seq<Ref>, t: string)
    requires t in db.tasks
    ensures InFamily(db.tasks, t, Roots(db.tasks, Retrievers(db, owner, refs))) <==> Retrieved(db, owner, refs, t)
  {
    var hits := Retrievers(db, owner, refs);
    var roots := Roots(db.tasks, hits);
    if Retrieved(db, owner, refs, t) {
      var d :| d in db.deps && d.kind == TaskDep && d.owner == owner && Ref(d.eventId, d.revision) in refs
               && d.subject in db.tasks
               && (db.tasks[d.subject].root == db.tasks[t].root || db.tasks[d.subject].root == t);
      assert d.Target() in hits && d.Target() == Hit(TaskDep, d.subject);
      assert db.tasks[d.subject].root in roots;
    }
    forall root | root in roots && (root == t || root == db.tasks[t].root) ensures Retrieved(db, owner, refs, t) {
      var x :| x in db.tasks && Hit(TaskDep, x) in hits && db.tasks[x].root == root;
      var d :| d in db.deps && d.kind == TaskDep && d.owner == owner && Ref(d.eventId, d.revision) in refs
               && d.Target() == Hit(TaskDep, x);
    }
  }

  // ---- What is recorded ----

  /** Exactly the dependencies of the subjects on the references were added. */
  ghost predicate Records(db: Db, after: Db, kind: DepKind, subjects: set<string>, owner: string, refs: seq<Ref>) {
    forall d :: d in after.deps <==>
      || d in db.deps
      || (d.kind == kind && d.subject in subjects && d.owner == owner && Ref(d.eventId, d.revision) in refs)
  }

  ghost predicate AllCurrent(db: Db, owner: string, refs: seq<Ref>) {
    refs != [] && forall i :: 0 <= i < |refs| ==> Current(db.evidence, owner, refs[i])
  }

  /** Citing succeeds exactly when all references are current; each is then recorded for the task and its root. */
  lemma BindIsExact(db: Db, task: Parent, owner: string, refs: seq<Ref>)
    ensures BindSpec(db, task, owner, refs).Some? <==> AllCurrent(db, owner, refs)
    ensures AllCurrent(db, owner, refs) ==>
              var after := BindSpec(db, task, owner, refs).value;
              Records(db, after, TaskDep, {task.id, task.root}, owner, refs) && after == db.(deps := after.deps)
  {
    ValidMeans(db, owner, refs);
  }

  lemma ValidMeans(db: Db, owner: string, refs: seq<Ref>)
    ensures Valid(db.evidence, owner, refs) <==> AllCurrent(db, owner, refs)
  {
    if AllCurrent(db, owner, refs) {
      forall r | r in refs ensures Current(db.evidence, owner, r) {
        var i :| 0 <= i < |refs| && refs[i] == r;
      }
    }
  }

  /** A new task is queued in its family, and it and its root depend on every reference. */
  lemma CreateTaskIsExact(db: Db, id: string, owner: string, goal: string, refs: seq<Ref>, parent: Option<Parent>)
    ensures CreateTaskSpec(db, id, owner, goal, refs, parent).Some? <==> AllCurrent(db, owner, refs)
    ensures AllCurrent(db, owner, refs) && id in db.tasks ==>
              CreateTaskSpec(db, id, owner, goal, refs, parent) == Some(db)
    ensures AllCurrent(db, owner, refs) && id !in db.tasks ==>
              var after := CreateTaskSpec(db, id, owner, goal, refs, parent).value;
              && after == db.(tasks := after.tasks, deps := after.deps)
              && after.tasks.Keys == db.tasks.Keys + {id}
              && (forall t :: t in db.tasks ==> after.tasks[t] == db.tasks[t])
              && after.tasks[id].owner == owner && after.tasks[id].goal == goal && after.tasks[id].status == Queued
              && after.tasks[id].log == [] && after.tasks[id].result == None
              && (match parent
                  case None => after.tasks[id].root == id && after.tasks[id].parent == None
                               && Records(db, after, TaskDep, {id}, owner, refs)
                  case Some(p) => after.tasks[id].root == p.root && after.tasks[id].parent == Some(p.id)
                                  && Records(db, after, TaskDep, {id, p.root}, owner, refs))
  {
    ValidMeans(db, owner, refs);
  }

  /** A notification is written once, pending and with every dependency; written again, only dependencies are added. */
  lemma NotifyIsExact(db: Db, id: string, task: string, owner: string, text: string, refs: seq<Ref>)
    ensures NotifySpec(db, id, task, owner, text, refs).Some? <==> AllCurrent(db, owner, refs)
    ensures AllCurrent(db, owner, refs) ==>
              var after := NotifySpec(db, id, task, owner, text, refs).value;
              && Records(db, after, NotificationDep, {id}, owner, refs)
              && after == db.(notes := after.notes, deps := after.deps)
              && (id in db.notes ==> after.notes == db.notes)
              && (id !in db.notes ==>
                    && after.notes.Keys == db.notes.Keys + {id}
                    && (forall n :: n in db.notes ==> after.notes[n] == db.notes[n])
                    && after.notes[id] == Note(owner, task, text, refs, Pending))
  {
    ValidMeans(db, owner, refs);
  }

  /** A tool result that is stored already gets exactly these links: derived from all that the task cites but the
      result itself, and cited by the task and its root. */
  lemma LinksAreExact(db: Db, task: Parent, owner: string, e: Event)
    ensures var after := LinkToolResult(db, task, owner, e);
            && after == db.(deps := after.deps)
            && forall d :: d in after.deps <==>
                 || d in db.deps
                 || (d.kind == TaskDep && (d.subject == task.id || d.subject == task.root) && d.owner == owner
                     && d.eventId == e.id && d.revision == e.revision)
                 || (d.kind == DerivedDep && d.subject == e.id && d.owner == owner && d.eventId != e.id
                     && exists o :: Dep(TaskDep, task.id, o, d.eventId, d.revision) in db.deps)
  {
    var after := LinkToolResult(db, task, owner, e);
    assert [e.AsRef()][0] == Ref(e.id, e.revision);
    forall d: Dep | d.kind == DerivedDep && d.subject == e.id && d.owner == owner && d.eventId != e.id
      ensures d in after.deps <==>
                d in db.deps || exists o :: Dep(TaskDep, task.id, o, d.eventId, d.revision) in db.deps
    {
      if o :| Dep(TaskDep, task.id, o, d.eventId, d.revision) in db.deps {
        assert Ref(d.eventId, d.revision) in RefsOf(db.deps, TaskDep, task.id);
      }
    }
  }

  /** A reminder that is there already is left as it is, and refused to another owner.  A new one is refused exactly
      when its sources are not current or its receipt conflicts; else it is armed with what was given, depends on
      every reference, and its receipt is stored and derived from them. */
  lemma CreateReminderIsExact(db: Db, id: string, owner: string, task: string, text: string, refs: seq<Ref>, e: Event,
                              at: int)
    ensures id in db.reminders ==>
              CreateReminderSpec(db, id, owner, task, text, refs, e, at)
              == if db.reminders[id].owner == owner then Some(db) else None
    ensures id !in db.reminders ==>
            var armed := db.(reminders := db.reminders[id := Reminder(owner, task, text, refs, Armed)],
                             deps := db.deps
                                     + (set r | r in refs :: Dep(ReminderDep, id, owner, r.eventId, r.revision)));
            var after := CreateReminderSpec(db, id, owner, task, text, refs, e, at);
            var stored := IngestSpec(armed, owner, e, at);
            && (after.Some? <==> AllCurrent(db, owner, refs) && stored.Some?)
            && (after.Some? ==> after.value == stored.value.(deps := after.value.deps)
                                && Records(armed, after.value, DerivedDep, {e.id}, owner, refs))
  {
    ValidMeans(db, owner, refs);
    var armed := ArmedReminder(db, id, owner, task, text, refs);
    assert armed.deps == db.deps + (set r | r in refs :: Dep(ReminderDep, id, owner, r.eventId, r.revision));
    if IngestSpec(armed, owner, e, at).Some? { assert IngestSpec(armed, owner, e, at).value.deps == armed.deps; }
  }

  /** Evidence made by the agent itself is refused exactly when what it rests on is not current or its own event
      conflicts; stored, it is derived from every reference. */
  lemma DeriveIsExact(db: Db, owner: string, refs: seq<Ref>, e: Event, at: int)
    ensures DeriveSpec(db, owner, refs, e, at).Some? <==>
              AllCurrent(db, owner, refs) && IngestSpec(db, owner, e, at).Some?
    ensures DeriveSpec(db, owner, refs, e, at).Some? ==>
              var stored, after := IngestSpec(db, owner, e, at).value, DeriveSpec(db, owner, refs, e, at).value;
              Records(stored, after, DerivedDep, {e.id}, owner, refs) && after == stored.(deps := after.deps)
  {
    ValidMeans(db, owner, refs);
  }

  /** A task moves only while it is active; nothing else of it, and no other task, changes. */
  lemma StatusMoves(db: Db, id: string, status: Status)
    ensures var after := SetStatusSpec(db, id, status);
            && after == db.(tasks := after.tasks) && after.tasks.Keys == db.tasks.Keys
            && forall t :: t in db.tasks ==>
                 after.tasks[t] == if t == id && db.tasks[t].status.Active()
                                   then db.tasks[t].(status := status) else db.tasks[t]
  {}

  /** A notification is closed only while it is pending. */
  lemma NoteCloses(db: Db, id: string, state: NoteState)
    requires !state.Pending?
    ensures var after := CloseNoteSpec(db, id, state);
            && after == db.(notes := after.notes) && after.notes.Keys == db.notes.Keys
            && forall n :: n in db.notes ==>
                 after.notes[n] == if n == id && db.notes[n].state.Pending?
                                   then db.notes[n].(state := state) else db.notes[n]
  {}

  /** A reminder moves while it is open, or to an end. */
  lemma ReminderMoves(db: Db, id: string, state: ReminderState)
    ensures var after := MoveReminderSpec(db, id, state);
            && after == db.(reminders := after.reminders) && after.reminders.Keys == db.reminders.Keys
            && forall r :: r in db.reminders ==>
                 after.reminders[r] == if r == id && (db.reminders[r].state.Open() || !state.Open())
                                       then db.reminders[r].(state := state) else db.reminders[r]
  {}

  /** Cancelling a task cancels what is active of it and, if it is a root, of its family; withdraws their
      notifications; and leaves every other task and notification as it was. */
  lemma CancelIsExact(db: Db, id: string)
    ensures var after := CancelSpec(db, id);
            && after == db.(tasks := after.tasks, notes := after.notes)
            && after.tasks.Keys == db.tasks.Keys && after.notes.Keys == db.notes.Keys
            && (forall t :: t in db.tasks ==>
                  after.tasks[t] == if (t == id || db.tasks[t].root == id) && db.tasks[t].status.Active()
                                    then db.tasks[t].(status := Cancelled) else db.tasks[t])
            && (forall n :: n in db.notes ==>
                  after.notes[n] == if db.notes[n].task in db.tasks
                                       && (db.notes[n].task == id || db.tasks[db.notes[n].task].root == id)
                                    then db.notes[n].(state := Withdrawn) else db.notes[n])
  {
  }

  /** Maintenance drops exactly the deleted rows, and the finished tasks it was given with all that is theirs. */
  lemma MaintainIsExact(db: Db, expired: set<string>)
    ensures var after := MaintainSpec(db, expired);
            && (forall r :: r in after.evidence <==> r in db.evidence && r.payload.Some?)
            && (forall t :: t in after.tasks <==> t in db.tasks && !(t in expired && !db.tasks[t].status.Active()))
            && (forall t :: t in after.tasks ==> after.tasks[t] == db.tasks[t])
            && (forall d :: d in after.deps <==>
                  d in db.deps && !(d.kind == TaskDep && d.subject in db.tasks && d.subject !in after.tasks))
            && (forall n :: n in after.notes <==>
                  n in db.notes && !(db.notes[n].task in db.tasks && db.notes[n].task !in after.tasks))
            && (forall n :: n in after.notes ==> after.notes[n] == db.notes[n])
            && (forall a :: a in after.attached <==>
                  a in db.attached && !(a.task in db.tasks && a.task !in after.tasks))
            && after.memories == db.memories && after.reminders == db.reminders && after.tombs == db.tombs
            && after.evidenceDocs == db.evidenceDocs && after.memoryDocs == db.memoryDocs
  {
  }
}
