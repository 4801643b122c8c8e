/** What every reachable state of the ledger satisfies: nothing in standing cites evidence that is not the
    newest, final, undeleted revision of its event, and the full-text tables are exact views. */
module LedgerSafety {
  import opened Evidence
  import opened Cascade
  import opened LedgerOps

  ghost predicate RowsOk(db: Db) {
    && Unique(db.evidence)
    && (forall r :: r in db.evidence ==> (r.payload.None? <==> r.key in db.tombs))
    && (forall r :: r in db.evidence && r.payload.Some? ==>
          r.payload.value.id == r.key.id && r.payload.value.revision == r.revision)
  }

  /** The full-text table of evidence holds exactly the newest revisions that are final and not deleted. */
  ghost predicate EvidenceDocsOk(db: Db) {
    forall d: EvidenceDoc :: Listed(db, d)
  }

  ghost predicate Listed(db: Db, d: EvidenceDoc) {
    var e := Latest(db.evidence, d.key);
    d in db.evidenceDocs <==> e.Some? && e.value.final && d.revision == e.value.revision && d.text == e.value.text
  }

  /** The full-text table of memories holds exactly the active ones. */
  ghost predicate MemoryDocsOk(db: Db) {
    forall d :: d in db.memoryDocs <==>
      d.id in db.memories && db.memories[d.id].active
      && d.owner == db.memories[d.id].owner && d.text == db.memories[d.id].text
  }

  /** Versions of a key are distinct, and an active version is the newest one. */
  ghost predicate VersionsOk(memories: map<string, Memory>) {
    forall a, b ::
      a in memories && b in memories && a != b && SameKey(memories[b], memories[a].owner, memories[a].key) ==>
      memories[a].version != memories[b].version && (memories[a].active ==> memories[b].version < memories[a].version)
  }

  /** `refs` are recorded dependencies, and each is current unless its event is among `changed`. */
  ghost predicate Cites(db: Db, kind: DepKind, id: string, owner: string, refs: seq<Ref>, changed: set<Key>) {
    |refs| > 0 && forall r :: r in refs ==>
      Dep(kind, id, owner, r.eventId, r.revision) in db.deps
      && (Key(owner, r.eventId) in changed || Current(db.evidence, owner, r))
  }

  ghost predicate MemoriesStand(db: Db, changed: set<Key>) {
    forall m :: m in db.memories && db.memories[m].active ==>
      Cites(db, MemoryDep, m, db.memories[m].owner, db.memories[m].refs, changed)
  }

  ghost predicate NotesStand(db: Db, changed: set<Key>) {
    forall n :: n in db.notes && db.notes[n].state.Pending? ==>
      Cites(db, NotificationDep, n, db.notes[n].owner, db.notes[n].refs, changed)
  }

  ghost predicate RemindersStand(db: Db, changed: set<Key>) {
    forall r :: r in db.reminders && db.reminders[r].state.Open() ==>
      Cites(db, ReminderDep, r, db.reminders[r].owner, db.reminders[r].refs, changed)
  }

  ghost predicate TasksStand(db: Db, changed: set<Key>) {
    forall d :: d in db.deps && d.kind == TaskDep && d.subject in db.tasks && db.tasks[d.subject].status.Active() ==>
      d.Source() in changed || Current(db.evidence, d.owner, Ref(d.eventId, d.revision))
  }

  /** Everything in standing cites current evidence, leaving aside the events among `changed`. */
  ghost predicate Standing(db: Db, changed: set<Key>) {
    MemoriesStand(db, changed) && NotesStand(db, changed) && RemindersStand(db, changed) && TasksStand(db, changed)
  }

  ghost predicate EvidenceOk(db: Db) {
    RowsOk(db) && EvidenceDocsOk(db)
  }

  ghost predicate Safe(db: Db) {
    EvidenceOk(db) && MemoryDocsOk(db) && VersionsOk(db.memories) && Standing(db, {})
  }

  /** Evidence is judged by its own tables alone. */
  lemma SameEvidence(db: Db, after: Db)
    requires EvidenceOk(db) && after.evidence == db.evidence && after.tombs == db.tombs
        && after.evidenceDocs == db.evidenceDocs
    ensures EvidenceOk(after)
  {
    forall d: EvidenceDoc ensures Listed(after, d) { assert Listed(db, d); }
  }

  /** With the same evidence and no dependency lost, an untouched table keeps its standing. */
  lemma Untouched(db: Db, after: Db)
    requires Standing(db, {}) && after.evidence == db.evidence && db.deps <= after.deps
    ensures after.memories == db.memories ==> MemoriesStand(after, {})
    ensures after.notes == db.notes ==> NotesStand(after, {})
    ensures after.reminders == db.reminders ==> RemindersStand(after, {})
    ensures after.tasks == db.tasks && after.deps == db.deps ==> TasksStand(after, {})
  {}

  // ---- The cascade restores standing ----

  lemma CurrentErase(rows: seq<Row>, killed: set<Key>, owner: string, ref: Ref)
    requires Key(owner, ref.eventId) !in killed
    ensures Current(Erase(rows, killed), owner, ref) == Current(rows, owner, ref)
  {
    LatestErase(rows, killed, Key(owner, ref.eventId));
  }

  lemma CitesAfter(db: Db, kind: DepKind, id: string, owner: string, refs: seq<Ref>, touched: set<Key>,
                   killed: set<Key>, after: Db)
    requires killed <= touched && Cites(db, kind, id, owner, refs, touched)
    requires Hit(kind, id) !in TargetsOf(db.deps, touched)
    requires after.deps == db.deps && after.evidence == Erase(db.evidence, killed)
    ensures Cites(after, kind, id, owner, refs, {})
  {
    forall r | r in refs ensures Current(after.evidence, owner, r) {
      var d := Dep(kind, id, owner, r.eventId, r.revision);
      assert d.Target() == Hit(kind, id);
      CurrentErase(db.evidence, killed, owner, r);
    }
  }

  /** A task that cites a touched event is in a cancelled family. */
  lemma TaskHit(db: Db, d: Dep, touched: set<Key>)
    requires d in db.deps && d.kind == TaskDep && d.subject in db.tasks
    ensures d.Source() in touched ==> InFamily(db.tasks, d.subject, Roots(db.tasks, TargetsOf(db.deps, touched)))
  {
    if d.Source() in touched {
      assert d.Target() in TargetsOf(db.deps, touched) && Hit(TaskDep, d.subject) == d.Target();
    }
  }

  /** Whatever changed about the touched events, the cascade leaves nothing in standing that cites them. */
  lemma CascadeRestores(db: Db, touched: set<Key>, killed: set<Key>)
    requires killed <= touched && Standing(db, touched)
    ensures Standing(Apply(db, TargetsOf(db.deps, touched), TargetsOf(db.deps, killed), killed), {})
  {
    var soft, hard := TargetsOf(db.deps, touched), TargetsOf(db.deps, killed);
    var after := Apply(db, soft, hard, killed);
    TargetsUnion(db.deps, touched, killed);
    assert touched + killed == touched;
    forall m | m in after.memories && after.memories[m].active
      ensures Cites(after, MemoryDep, m, after.memories[m].owner, after.memories[m].refs, {})
    {
      CitesAfter(db, MemoryDep, m, db.memories[m].owner, db.memories[m].refs, touched, killed, after);
    }
    forall n | n in after.notes && after.notes[n].state.Pending?
      ensures Cites(after, NotificationDep, n, after.notes[n].owner, after.notes[n].refs, {})
    {
      CitesAfter(db, NotificationDep, n, db.notes[n].owner, db.notes[n].refs, touched, killed, after);
    }
    forall r | r in after.reminders && after.reminders[r].state.Open()
      ensures Cites(after, ReminderDep, r, after.reminders[r].owner, after.reminders[r].refs, {})
    {
      CitesAfter(db, ReminderDep, r, db.reminders[r].owner, db.reminders[r].refs, touched, killed, after);
    }
    forall d | d in after.deps && d.kind == TaskDep && d.subject in after.tasks
      && after.tasks[d.subject].status.Active()
      ensures Current(after.evidence, d.owner, Ref(d.eventId, d.revision))
    {
      TaskHit(db, d, touched);
      CurrentErase(db.evidence, killed, d.owner, Ref(d.eventId, d.revision));
    }
  }

  lemma EraseRows(db: Db, killed: set<Key>, soft: set<Target>, hard: set<Target>)
    requires RowsOk(db)
    ensures RowsOk(Apply(db, soft, hard, killed))
  {
    var after := Apply(db, soft, hard, killed);
    forall r | r in after.evidence
      ensures r.payload.None? <==> r.key in after.tombs
      ensures r.payload.Some? ==> r.payload.value.id == r.key.id && r.payload.value.revision == r.revision
    {
      var i :| 0 <= i < |after.evidence| && after.evidence[i] == r;
      assert db.evidence[i] in db.evidence;
    }
  }

  /** Dropping the documents of deleted events keeps the view exact, but for an event whose rows changed. */
  lemma DocsAfter(db: Db, soft: set<Target>, hard: set<Target>, killed: set<Key>, changed: set<Key>)
    requires forall d: EvidenceDoc :: d.key !in changed ==> Listed(db, d)
    ensures forall d: EvidenceDoc :: d.key !in changed ==> Listed(Apply(db, soft, hard, killed), d)
  {
    forall d: EvidenceDoc | d.key !in changed ensures Listed(Apply(db, soft, hard, killed), d) {
      LatestErase(db.evidence, killed, d.key);
      assert Listed(db, d);
    }
  }

  lemma MemoriesKept(db: Db, soft: set<Target>, hard: set<Target>, killed: set<Key>)
    requires MemoryDocsOk(db) && VersionsOk(db.memories) && hard <= soft
    ensures MemoryDocsOk(Apply(db, soft, hard, killed)) && VersionsOk(Apply(db, soft, hard, killed).memories)
  {
    var after := Apply(db, soft, hard, killed);
    forall d ensures d in after.memoryDocs <==>
      d.id in after.memories && after.memories[d.id].active
      && d.owner == after.memories[d.id].owner && d.text == after.memories[d.id].text {}
  }

  lemma HardInSoft(deps: set<Dep>, killed: set<Key>, touched: set<Key>)
    requires killed <= touched
    ensures TargetsOf(deps, killed) <= TargetsOf(deps, touched)
  {
    TargetsUnion(deps, touched, killed);
    assert touched + killed == touched;
  }

  lemma DeleteSafe(db: Db, key: Key)
    requires Safe(db)
    ensures Safe(DeleteSpec(db, key))
  {
    var dead := Below(db, key) + {key};
    var hits := TargetsOf(db.deps, dead);
    CascadeRestores(db, dead, dead);
    EraseRows(db, dead, hits, hits);
    DocsAfter(db, hits, hits, dead, {});
    MemoriesKept(db, hits, hits, dead);
  }

  // ---- Ingesting ----

  lemma StoredRows(db: Db, owner: string, e: Event, at: int)
    requires RowsOk(db) && !Conflicts(db, owner, e) && !Duplicate(db, owner, e)
    ensures RowsOk(Stored(db, owner, e, at))
  {
    var rows, row := db.evidence, Row(Key(owner, e.id), e.revision, Some(e), at);
    assert Find(rows, row.key, row.revision).None?;
    forall i, j | 0 <= i < j < |rows + [row]| && (rows + [row])[i].key == (rows + [row])[j].key
      ensures (rows + [row])[i].revision != (rows + [row])[j].revision
    {
      assert rows[i] in rows;
    }
  }

  lemma StoredLatest(db: Db, owner: string, e: Event, at: int)
    ensures var after := Stored(db, owner, e, at).evidence;
            forall k :: Latest(after, k) ==
              var t := Top(db.evidence, k);
              if k == Key(owner, e.id) && (t.None? || t.value.revision < e.revision) then Some(e)
                else Latest(db.evidence, k)
  {
    var row := Row(Key(owner, e.id), e.revision, Some(e), at);
    forall k ensures Top(db.evidence + [row], k) ==
        var t := Top(db.evidence, k);
        if row.key == k && (t.None? || t.value.revision < row.revision) then Some(row) else t
    {
      TopAppend(db.evidence, row, k);
    }
  }

  /** An undeleted event with a row has a live newest row. */
  lemma LatestOfUndeleted(db: Db, key: Key)
    requires RowsOk(db) && key !in db.tombs
    ensures var t := Top(db.evidence, key);
            t.None? <==> Latest(db.evidence, key).None?
    ensures var t := Top(db.evidence, key);
            t.Some? ==> t.value.revision == Latest(db.evidence, key).value.revision
  {}

  lemma StoredStanding(db: Db, owner: string, e: Event, at: int, changed: set<Key>)
    requires Standing(db, {})
    requires forall k :: k !in changed ==> Latest(Stored(db, owner, e, at).evidence, k) == Latest(db.evidence, k)
    ensures Standing(Stored(db, owner, e, at), changed)
  {}

  lemma IndexStanding(db: Db, key: Key, e: Event)
    requires Standing(db, {})
    ensures Standing(IndexEvent(db, key, e), {})
  {}

  lemma IndexDocs(db: Db, key: Key, e: Event)
    requires forall d: EvidenceDoc :: d.key !in {key} ==> Listed(db, d)
    requires Latest(db.evidence, key) == Some(e)
    ensures EvidenceDocsOk(IndexEvent(db, key, e))
  {
    var after := IndexEvent(db, key, e);
    forall d: EvidenceDoc ensures Listed(after, d) {
      if d.key != key { assert Listed(db, d); }
    }
  }

  lemma IngestSafe(db: Db, owner: string, e: Event, at: int)
    requires Safe(db) && IngestSpec(db, owner, e, at).Some?
    ensures Safe(IngestSpec(db, owner, e, at).value)
  {
    var key, stored := Key(owner, e.id), Stored(db, owner, e, at);
    if !Duplicate(db, owner, e) {
      StoredRows(db, owner, e, at);
      StoredLatest(db, owner, e, at);
      LatestOfUndeleted(db, key);
      if !Supersedes(db, owner, e) {
        StoredStanding(db, owner, e, at, {});
        LateDocs(db, owner, e, at);
      } else {
        StoredStanding(db, owner, e, at, {key});
        SupersedingSafe(db, stored, owner, e);
      }
    }
  }

  lemma LateDocs(db: Db, owner: string, e: Event, at: int)
    requires EvidenceDocsOk(db)
    requires forall k :: Latest(Stored(db, owner, e, at).evidence, k) == Latest(db.evidence, k)
    ensures EvidenceDocsOk(Stored(db, owner, e, at))
  {
    forall d: EvidenceDoc ensures Listed(Stored(db, owner, e, at), d) { assert Listed(db, d); }
  }

  lemma SupersedingSafe(db: Db, stored: Db, owner: string, e: Event)
    requires Safe(db) && stored == db.(evidence := stored.evidence)
    requires RowsOk(stored) && Standing(stored, {Key(owner, e.id)})
    requires Latest(stored.evidence, Key(owner, e.id)) == Some(e) && Acyclic(stored, Key(owner, e.id))
    requires forall k :: k != Key(owner, e.id) ==> Latest(stored.evidence, k) == Latest(db.evidence, k)
    ensures Safe(IndexEvent(InvalidateSpec(stored, Key(owner, e.id)), Key(owner, e.id), e))
  {
    var key := Key(owner, e.id);
    var below := Below(stored, key);
    var soft, hard := TargetsOf(stored.deps, below + {key}), TargetsOf(stored.deps, below);
    var mid := InvalidateSpec(stored, key);
    InBelow(stored, key, key);
    HardInSoft(stored.deps, below, below + {key});
    assert Standing(stored, below + {key}) by { StandingLess(stored, {key}, below + {key}); }
    CascadeRestores(stored, below + {key}, below);
    EraseRows(stored, below, soft, hard);
    MemoriesKept(stored, soft, hard, below);
    forall d: EvidenceDoc | d.key !in {key} ensures Listed(stored, d) { assert Listed(db, d); }
    DocsAfter(stored, soft, hard, below, {key});
    LatestErase(stored.evidence, below, key);
    IndexDocs(mid, key, e);
    IndexStanding(mid, key, e);
  }

  lemma StandingLess(db: Db, a: set<Key>, b: set<Key>)
    requires a <= b && Standing(db, a)
    ensures Standing(db, b)
  {}
}
