/** Every run of the evidence store, whatever its operations, their outcome and the crashes between their statements:
    exactly which steps break the ledger's invariant. */
module LedgerRuns {
  import opened Evidence
  import opened Cascade
  import opened LedgerOps
  import opened LedgerSafety

  /** The last four are operations cut short by a crash.  Those cut elsewhere are shorter operations of this list:
      `Cancel` for the first statements of a forget, `Bind` to fewer references, `Ingest` without what follows. */
  datatype Op =
    | Ingest(owner: string, event: Event, at: int)
    | Delete(key: Key)
    | Remember(owner: string, name: string, text: string, refs: seq<Ref>, id: string)
    | Forget(owner: string, id: string)
    | CreateTask(id: string, owner: string, text: string, refs: seq<Ref>, parent: Option<Parent>)
    | Bind(task: Parent, owner: string, refs: seq<Ref>)
    | Record(task: Parent, owner: string, event: Event, at: int)
    | SetStatus(id: string, status: Status)
    | Cancel(id: string)
    | Notify(id: string, taskId: string, owner: string, text: string, refs: seq<Ref>)
    | CloseNote(id: string, state: NoteState)
    | CreateReminder(id: string, owner: string, taskId: string, text: string, refs: seq<Ref>, event: Event, at: int)
    | Derive(owner: string, refs: seq<Ref>, event: Event, at: int)
    | MoveReminder(id: string, next: ReminderState)
    | Maintain(expired: set<string>)
    | CutForget(owner: string, id: string)
    | CutNotify(id: string, taskId: string, owner: string, text: string, refs: seq<Ref>, n: nat)
    | CutCreateTask(id: string, owner: string, text: string, refs: seq<Ref>, parent: Option<Parent>, own: nat,
                    atRoot: nat)
    | CutRecord(task: Parent, owner: string, event: Event, at: int, linked: set<Ref>)

  /** What the code passes: the event of a tool result is final, and a notification is closed, not reopened. */
  predicate Allowed(op: Op) {
    match op
    case Record(_, _, e, _) => e.final
    case CutRecord(_, _, e, _, _) => e.final
    case CloseNote(_, state) => !state.Pending?
    case _ => true
  }

  ghost predicate StillActive(db: Db, task: Parent) {
    || (task.id in db.tasks && db.tasks[task.id].status.Active())
    || (task.root in db.tasks && db.tasks[task.root].status.Active())
  }

  /** What is stored under the id of a tool result is another revision, or not final, and somebody will cite it. */
  ghost predicate StaleResult(db: Db, task: Parent, owner: string, e: Event) {
    Live(db.evidence, Key(owner, e.id)) && !Current(db.evidence, owner, e.AsRef()) && StillActive(db, task)
  }

  /** A task of this id has left a dependency on a revision that is no longer current. */
  ghost predicate StaleLeftover(db: Db, id: string) {
    exists d :: d in db.deps && d.kind == TaskDep && d.subject == id
                && !Current(db.evidence, d.owner, Ref(d.eventId, d.revision))
  }

  /** A new notification is without some of its dependencies, so that it outlives what it cites. */
  ghost predicate Unrecorded(db: Db, id: string, owner: string, refs: seq<Ref>, n: nat) {
    id !in db.notes && exists r :: r in refs && r !in Upto(refs, n)
                                   && Dep(NotificationDep, id, owner, r.eventId, r.revision) !in db.deps
  }

  /** The steps that break the invariant: an active task is made to cite a stale revision, a crash keeps the document
      of a forgotten memory, or a dependency of a notification from being written. */
  ghost predicate Breaks(db: Db, op: Op) {
    match op
    case Record(task, owner, e, _) => StaleResult(db, task, owner, e)
    case CreateTask(id, owner, _, refs, _) =>
      id !in db.tasks && Valid(db.evidence, owner, refs) && StaleLeftover(db, id)
    case CutCreateTask(id, owner, _, refs, _, _, _) =>
      id !in db.tasks && Valid(db.evidence, owner, refs) && StaleLeftover(db, id)
    case CutForget(owner, id) => Recallable(db, owner, id)
    case CutNotify(id, _, owner, _, refs, n) => Valid(db.evidence, owner, refs) && Unrecorded(db, id, owner, refs, n)
    case _ => false
  }

  function Or(db: Db, r: Option<Db>): Db {
    if r.Some? then r.value else db
  }

  /** A completed operation; a refused one leaves the tables alone. */
  ghost predicate Completes(db: Db, op: Op, after: Db)
    requires Allowed(op)
  {
    match op
    case Ingest(owner, e, at) => after == Or(db, IngestSpec(db, owner, e, at))
    case Delete(key) => after == DeleteSpec(db, key)
    case Remember(owner, key, text, refs, id) => Remembers(db, owner, key, text, refs, id, after)
    case Forget(owner, id) => after == ForgetSpec(db, owner, id)
    case CreateTask(id, owner, goal, refs, parent) => after == Or(db, CreateTaskSpec(db, id, owner, goal, refs, parent))
    case Bind(task, owner, refs) => after == Or(db, BindSpec(db, task, owner, refs))
    case Record(task, owner, e, at) => after == Or(db, RecordSpec(db, task, owner, e, at))
    case SetStatus(id, status) => after == SetStatusSpec(db, id, status)
    case Cancel(id) => after == CancelSpec(db, id)
    case Notify(id, task, owner, text, refs) => after == Or(db, NotifySpec(db, id, task, owner, text, refs))
    case CloseNote(id, state) => after == CloseNoteSpec(db, id, state)
    case CreateReminder(id, owner, task, text, refs, e, at) =>
      after == Or(db, CreateReminderSpec(db, id, owner, task, text, refs, e, at))
    case Derive(owner, refs, e, at) => after == Or(db, DeriveSpec(db, owner, refs, e, at))
    case MoveReminder(id, state) => after == MoveReminderSpec(db, id, state)
    case Maintain(expired) => after == MaintainSpec(db, expired)
    case CutForget(owner, id) => after == CutForgetSpec(db, owner, id)
    case CutNotify(id, task, owner, text, refs, n) => after == Or(db, CutNotifySpec(db, id, task, owner, text, refs, n))
    case CutCreateTask(id, owner, goal, refs, parent, own, atRoot) =>
      after == Or(db, CutCreateTaskSpec(db, id, owner, goal, refs, parent, own, atRoot))
    case CutRecord(task, owner, e, at, linked) => after == Or(db, CutRecordSpec(db, task, owner, e, at, linked))
  }

  /** Operations complete, are refused or roll back; a crash of one that is no single transaction is a step of its
      own. */
  ghost predicate Run(states: seq<Db>, ops: seq<Op>) {
    && |states| == |ops| + 1
    && states[0] == EMPTY
    && forall i :: 0 <= i < |ops| ==>
         Allowed(ops[i]) && (states[i + 1] == states[i] || Completes(states[i], ops[i], states[i + 1]))
  }

  lemma MoreDeps(db: Db, after: Db)
    requires Safe(db) && after == db.(deps := after.deps) && db.deps <= after.deps
    requires forall d :: d in after.deps && d.kind == TaskDep && d !in db.deps ==>
      Current(db.evidence, d.owner, Ref(d.eventId, d.revision))
    ensures Safe(after)
  {
    SameEvidence(db, after);
    Untouched(db, after);
  }

  lemma ForgetSafe(db: Db, owner: string, id: string)
    requires Safe(db)
    ensures Safe(ForgetSpec(db, owner, id))
  {
    if Recallable(db, owner, id) {
      var m, after := db.memories[id], ForgetSpec(db, owner, id);
      var mid := Apply(db, Retrievers(db, owner, m.refs), {}, {});
      SoftenSafe(db, Retrievers(db, owner, m.refs));
      SameEvidence(mid, after);
      Untouched(mid, after);
      RetireSafe(mid, owner, m.key, true, after);
    }
  }

  /** Retiring every version of a key, and its documents, leaves the rest of the memories in order. */
  lemma RetireSafe(db: Db, owner: string, key: string, blank: bool, after: Db)
    requires MemoryDocsOk(db) && VersionsOk(db.memories) && MemoriesStand(db, {})
    requires after.evidence == db.evidence && after.deps == db.deps
    requires after.memories == Retire(db.memories, owner, key, blank)
    requires after.memoryDocs == set d | d in db.memoryDocs &&
      !(d.owner == owner && d.id in db.memories && SameKey(db.memories[d.id], owner, key))
    ensures MemoryDocsOk(after) && VersionsOk(after.memories) && MemoriesStand(after, {})
  {}

  /** Withdrawing standing from any rows is safe. */
  lemma SoftenSafe(db: Db, soft: set<Target>)
    requires Safe(db)
    ensures Safe(Apply(db, soft, {}, {}))
  {
    var after := Apply(db, soft, {}, {});
    assert after.evidence == db.evidence;
    assert after.evidenceDocs == db.evidenceDocs;
    assert after.tombs == db.tombs;
    SameEvidence(db, after);
    MemoriesKept(db, soft, {}, {});
  }

  lemma RememberSafe(db: Db, owner: string, key: string, text: string, refs: seq<Ref>, id: string, after: Db)
    requires Safe(db) && Remembers(db, owner, key, text, refs, id, after)
    ensures Safe(after)
  {
    if o :| IsNewest(db.memories, owner, key, o) && after == RememberOver(db, Some(o), owner, key, text, refs, id) {
      if after != db { RememberNext(db, o, owner, key, text, refs, id); }
    } else {
      AddMemorySafe(db, id, Memory(owner, key, 1, text, refs, true));
    }
  }

  lemma RememberNext(db: Db, o: string, owner: string, key: string, text: string, refs: seq<Ref>, id: string)
    requires Safe(db) && IsNewest(db.memories, owner, key, o)
    requires Valid(db.evidence, owner, refs) && id !in db.memories
    requires RememberOver(db, Some(o), owner, key, text, refs, id) != db
    ensures Safe(RememberOver(db, Some(o), owner, key, text, refs, id))
  {
    var mid := db.(memories := Retire(db.memories, owner, key, false),
                   memoryDocs := (set d | d in db.memoryDocs && d.id != o));
    RetireOld(db, owner, key, o, mid);
    AddMemorySafe(mid, id, Memory(owner, key, db.memories[o].version + 1, text, refs, true));
  }

  lemma RetireOld(db: Db, owner: string, key: string, o: string, mid: Db)
    requires Safe(db) && IsNewest(db.memories, owner, key, o)
    requires mid == db.(memories := Retire(db.memories, owner, key, false),
                        memoryDocs := (set d | d in db.memoryDocs && d.id != o))
    ensures Safe(mid)
    ensures forall x :: x in mid.memories && SameKey(mid.memories[x], owner, key) ==>
      !mid.memories[x].active && mid.memories[x].version <= db.memories[o].version
  {
    RetireSafe(db, owner, key, false, mid);
    SameEvidence(db, mid);
    Untouched(db, mid);
  }

  /** A new newest version of a key that has no active version. */
  lemma AddMemorySafe(db: Db, id: string, m: Memory)
    requires Safe(db) && id !in db.memories && Valid(db.evidence, m.owner, m.refs) && m.active
    requires forall x :: x in db.memories && SameKey(db.memories[x], m.owner, m.key) ==>
      !db.memories[x].active && db.memories[x].version < m.version
    ensures Safe(AddMemory(db, id, m))
  {
    var after := AddMemory(db, id, m);
    SameEvidence(db, after);
    Untouched(db, after);
    assert VersionsOk(after.memories);
    assert MemoriesStand(after, {}) by {
      forall x | x in after.memories && after.memories[x].active
        ensures Cites(after, MemoryDep, x, after.memories[x].owner, after.memories[x].refs, {})
      {
        if x != id { assert x in db.memories; }
      }
    }
    assert TasksStand(after, {});
  }

  lemma RecordSafe(db: Db, task: Parent, owner: string, e: Event, at: int)
    requires Safe(db) && e.final && !StaleResult(db, task, owner, e)
    ensures Safe(Or(db, RecordSpec(db, task, owner, e, at)))
  {
    var key := Key(owner, e.id);
    if Live(db.evidence, key) {
      LinkSafe(db, task, owner, e);
    } else if RecordSpec(db, task, owner, e, at).Some? {
      var stored := IngestSpec(db, owner, e, at).value;
      IngestSafe(db, owner, e, at);
      FirstIsCurrent(db, owner, e, at);
      LinkSafe(stored, task, owner, e);
    }
  }

  /** An event with no live row that can be stored is new, so it is current at once. */
  lemma FirstIsCurrent(db: Db, owner: string, e: Event, at: int)
    requires Safe(db) && e.final && !Live(db.evidence, Key(owner, e.id)) && IngestSpec(db, owner, e, at).Some?
    ensures Current(IngestSpec(db, owner, e, at).value.evidence, owner, e.AsRef())
  {
    var key, stored := Key(owner, e.id), Stored(db, owner, e, at);
    LatestOfUndeleted(db, key);
    StoredLatest(db, owner, e, at);
    LatestErase(stored.evidence, Below(stored, key), key);
    InBelow(stored, key, key);
  }

  /** The result is cited as the revision recorded, without a look at what is stored under its id.  Standing
      survives exactly when that revision is the current one or nobody is left to cite it. */
  lemma RecordingKeepsStanding(db: Db, task: Parent, owner: string, e: Event)
    requires Standing(db, {})
    ensures Standing(LinkToolResult(db, task, owner, e), {}) <==>
      Current(db.evidence, owner, e.AsRef()) || !StillActive(db, task)
  {
    var after := LinkToolResult(db, task, owner, e);
    Untouched(db, after);
    var d, root := Dep(TaskDep, task.id, owner, e.id, e.revision), Dep(TaskDep, task.root, owner, e.id, e.revision);
    assert [e.AsRef()][0] == Ref(e.id, e.revision);
    assert d in after.deps && root in after.deps;
    if Current(db.evidence, owner, e.AsRef()) || !StillActive(db, task) {
      forall x | x in after.deps && x.kind == TaskDep && x !in db.deps ensures x == d || x == root {}
      assert TasksStand(after, {});
    }
  }

  lemma LinkSafe(db: Db, task: Parent, owner: string, e: Event)
    requires Safe(db) && (Current(db.evidence, owner, e.AsRef()) || !StillActive(db, task))
    ensures Safe(LinkToolResult(db, task, owner, e))
  {
    RecordingKeepsStanding(db, task, owner, e);
    SameEvidence(db, LinkToolResult(db, task, owner, e));
  }

  lemma MaintainSafe(db: Db, expired: set<string>)
    requires Safe(db)
    ensures Safe(MaintainSpec(db, expired))
  {
    var after := MaintainSpec(db, expired);
    RemainingUnique(db.evidence);
    forall k ensures Latest(after.evidence, k) == Latest(db.evidence, k) {}
    forall d: EvidenceDoc ensures Listed(after, d) { assert Listed(db, d); }
  }

  lemma {:induction false} RemainingUnique(rows: seq<Row>)
    requires Unique(rows)
    ensures Unique(Remaining(rows))
  {
    if rows != [] {
      var front := rows[..|rows| - 1];
      RemainingUnique(front);
      var kept := Remaining(front);
      forall i | 0 <= i < |kept| && kept[i].key == rows[|rows| - 1].key
        ensures kept[i].revision != rows[|rows| - 1].revision
      {
        assert kept[i] in front;
      }
    }
  }

  /** Rows are deleted event by event, so dropping the deleted ones changes no newest revision. */
  lemma {:induction false} RemainingTop(rows: seq<Row>, key: Key)
    requires forall r :: r in rows && r.key == key ==> r.payload.Some?
    ensures Top(Remaining(rows), key) == Top(rows, key)
  {
    if rows != [] {
      var n := |rows| - 1;
      RemainingTop(rows[..n], key);
      if rows[n].payload.Some? {
      } else {
        assert rows[n] in rows;
      }
    }
  }

  lemma CreateReminderSafe(db: Db, id: string, owner: string, task: string, text: string, refs: seq<Ref>, e: Event,
                           at: int)
    requires Safe(db)
    ensures Safe(Or(db, CreateReminderSpec(db, id, owner, task, text, refs, e, at)))
  {
    if id !in db.reminders && CreateReminderSpec(db, id, owner, task, text, refs, e, at).Some? {
      var armed := ArmedReminder(db, id, owner, task, text, refs);
      ArmSafe(db, armed, id);
      IngestSafe(armed, owner, e, at);
      var stored := IngestSpec(armed, owner, e, at).value;
      MoreDeps(stored, stored.(deps := Depend(stored.deps, DerivedDep, e.id, owner, refs)));
    }
  }

  lemma DeriveSafe(db: Db, owner: string, refs: seq<Ref>, e: Event, at: int)
    requires Safe(db)
    ensures Safe(Or(db, DeriveSpec(db, owner, refs, e, at)))
  {
    if DeriveSpec(db, owner, refs, e, at).Some? {
      IngestSafe(db, owner, e, at);
      var stored := IngestSpec(db, owner, e, at).value;
      MoreDeps(stored, stored.(deps := Depend(stored.deps, DerivedDep, e.id, owner, refs)));
    }
  }

  lemma ArmSafe(db: Db, armed: Db, id: string)
    requires Safe(db) && id !in db.reminders && id in armed.reminders
    requires var r := armed.reminders[id];
      Valid(db.evidence, r.owner, r.refs) &&
      armed == db.(reminders := db.reminders[id := r], deps := Depend(db.deps, ReminderDep, id, r.owner, r.refs))
    ensures Safe(armed)
  {
    SameEvidence(db, armed);
    Untouched(db, armed);
    assert RemindersStand(armed, {});
    assert TasksStand(armed, {});
  }

  /** A task made anew takes up what an earlier one of its id left behind. */
  lemma CreateTaskSafe(db: Db, id: string, owner: string, goal: string, refs: seq<Ref>, parent: Option<Parent>)
    requires Safe(db)
    ensures Safe(Or(db, CreateTaskSpec(db, id, owner, goal, refs, parent))) <==>
              !Breaks(db, CreateTask(id, owner, goal, refs, parent))
  {
    if Valid(db.evidence, owner, refs) && id !in db.tasks {
      var after := CreateTaskSpec(db, id, owner, goal, refs, parent).value;
      SameEvidence(db, after);
      Untouched(db, after);
      NewTaskStands(db, id, owner, goal, refs, parent, after);
    }
  }

  lemma NewTaskStands(db: Db, id: string, owner: string, goal: string, refs: seq<Ref>, parent: Option<Parent>,
                      after: Db)
    requires TasksStand(db, {}) && Valid(db.evidence, owner, refs) && id !in db.tasks
    requires after.tasks == CreateTaskSpec(db, id, owner, goal, refs, parent).value.tasks
        && after.evidence == db.evidence
    requires db.deps <= after.deps <= CreateTaskSpec(db, id, owner, goal, refs, parent).value.deps
    ensures TasksStand(after, {}) <==> !StaleLeftover(db, id)
  {
    if StaleLeftover(db, id) {
      var d :| d in db.deps && d.kind == TaskDep && d.subject == id
               && !Current(db.evidence, d.owner, Ref(d.eventId, d.revision));
      assert d in after.deps && after.tasks[id].status.Active();
    }
  }

  // ---- Operations cut short ----

  lemma CutForgetBreaks(db: Db, owner: string, id: string)
    requires Safe(db)
    ensures Safe(CutForgetSpec(db, owner, id)) <==> !Recallable(db, owner, id)
  {
    if Recallable(db, owner, id) {
      var d := MemoryDoc(owner, id, db.memories[id].text);
      assert d in db.memoryDocs;
      assert !MemoryDocsOk(CutForgetSpec(db, owner, id));
    }
  }

  /** The document that a crash left stays when the memory is forgotten again, for that finds nothing to forget; the
      next version written under its key drops it. */
  lemma LeftDocument(db: Db, owner: string, id: string, text: string, refs: seq<Ref>, next: string)
    requires Safe(db) && Recallable(db, owner, id) && next !in db.memories
    ensures var cut, d := CutForgetSpec(db, owner, id), MemoryDoc(owner, id, db.memories[id].text);
            d in cut.memoryDocs && ForgetSpec(cut, owner, id) == cut
            && MemoryDocsOk(RememberOver(cut, Some(id), owner, db.memories[id].key, text, refs, next))
  {
    var m, cut, whole := db.memories[id], CutForgetSpec(db, owner, id), ForgetSpec(db, owner, id);
    assert MemoryDoc(owner, id, m.text) in db.memoryDocs;
    assert !cut.memories[id].active;
    ForgetSafe(db, owner, id);
    OnlyDocument(db, owner, id);
    var mid := cut.(memories := Retire(cut.memories, owner, m.key, false),
                    memoryDocs := (set d | d in cut.memoryDocs && d.id != id));
    assert mid.memories == whole.memories;
    assert mid.memoryDocs == whole.memoryDocs;
    AddDocument(mid, next, Memory(owner, m.key, m.version + 1, text, refs, true));
  }

  /** The active version is the only one with a document. */
  lemma OnlyDocument(db: Db, owner: string, id: string)
    requires Safe(db) && Recallable(db, owner, id)
    ensures ForgetSpec(db, owner, id).memoryDocs == set d | d in db.memoryDocs && d.id != id
    ensures ForgetSpec(db, owner, id).memories
        == Retire(ForgetSpec(db, owner, id).memories, owner, db.memories[id].key, false)
  {
    var m := db.memories[id];
    forall x | x in db.memories && SameKey(db.memories[x], owner, m.key) && db.memories[x].active ensures x == id {}
  }

  lemma AddDocument(db: Db, id: string, m: Memory)
    requires MemoryDocsOk(db) && id !in db.memories && m.active
    ensures MemoryDocsOk(AddMemory(db, id, m))
  {}

  lemma CutNotifyBreaks(db: Db, id: string, task: string, owner: string, text: string, refs: seq<Ref>, n: nat)
    requires Safe(db)
    ensures Safe(Or(db, CutNotifySpec(db, id, task, owner, text, refs, n))) <==>
              !Breaks(db, CutNotify(id, task, owner, text, refs, n))
  {
    if Valid(db.evidence, owner, refs) {
      var after := CutNotifySpec(db, id, task, owner, text, refs, n).value;
      SameEvidence(db, after);
      Untouched(db, after);
      CutNotesStand(db, id, task, owner, text, refs, n, after);
      assert TasksStand(after, {});
    }
  }

  lemma CutNotesStand(db: Db, id: string, task: string, owner: string, text: string, refs: seq<Ref>, n: nat, after: Db)
    requires NotesStand(db, {}) && Valid(db.evidence, owner, refs)
    requires after == CutNotifySpec(db, id, task, owner, text, refs, n).value
    ensures NotesStand(after, {}) <==> !Unrecorded(db, id, owner, refs, n)
  {
    if Unrecorded(db, id, owner, refs, n) {
      var r :| r in refs && r !in Upto(refs, n) && Dep(NotificationDep, id, owner, r.eventId, r.revision) !in db.deps;
      assert Dep(NotificationDep, id, owner, r.eventId, r.revision) !in after.deps;
      assert after.notes[id].state.Pending? && after.notes[id].refs == refs && after.notes[id].owner == owner;
    } else {
      forall x | x in after.notes && after.notes[x].state.Pending?
        ensures Cites(after, NotificationDep, x, after.notes[x].owner, after.notes[x].refs, {})
      {
        if x in db.notes { assert after.notes[x] == db.notes[x]; }
      }
    }
  }

  lemma CutCreateTaskBreaks(db: Db, id: string, owner: string, goal: string, refs: seq<Ref>, parent: Option<Parent>,
                            own: nat, atRoot: nat)
    requires Safe(db)
    ensures Safe(Or(db, CutCreateTaskSpec(db, id, owner, goal, refs, parent, own, atRoot))) <==>
              !Breaks(db, CutCreateTask(id, owner, goal, refs, parent, own, atRoot))
  {
    if Valid(db.evidence, owner, refs) && id !in db.tasks {
      var after := CutCreateTaskSpec(db, id, owner, goal, refs, parent, own, atRoot).value;
      SameEvidence(db, after);
      Untouched(db, after);
      NewTaskStands(db, id, owner, goal, refs, parent, after);
    }
  }

  lemma CutRecordSafe(db: Db, task: Parent, owner: string, e: Event, at: int, linked: set<Ref>)
    requires Safe(db)
    ensures Safe(Or(db, CutRecordSpec(db, task, owner, e, at, linked)))
  {
    if CutRecordSpec(db, task, owner, e, at, linked).Some? {
      if !Live(db.evidence, Key(owner, e.id)) { IngestSafe(db, owner, e, at); }
      var stored := if Live(db.evidence, Key(owner, e.id)) then db else IngestSpec(db, owner, e, at).value;
      MoreDeps(stored, stored.(deps := stored.deps + SomeDerived(stored, task, owner, e, linked)));
    }
  }

  lemma CutSafe(db: Db, op: Op, after: Db)
    requires Safe(db) && Allowed(op) && Completes(db, op, after)
    requires op.CutForget? || op.CutNotify? || op.CutCreateTask? || op.CutRecord?
    ensures Safe(after) <==> !Breaks(db, op)
  {
    match op
    case CutForget(owner, id) => CutForgetBreaks(db, owner, id);
    case CutNotify(id, task, owner, text, refs, n) => CutNotifyBreaks(db, id, task, owner, text, refs, n);
    case CutCreateTask(id, owner, goal, refs, parent, own, atRoot) =>
      CutCreateTaskBreaks(db, id, owner, goal, refs, parent, own, atRoot);
    case CutRecord(task, owner, e, at, linked) => CutRecordSafe(db, task, owner, e, at, linked);
  }

  /** Every step keeps the whole invariant, unless it is one of those that break it, and then it does. */
  lemma StepSafe(db: Db, op: Op, after: Db)
    requires Safe(db) && Allowed(op) && Completes(db, op, after)
    ensures Safe(after) <==> !Breaks(db, op)
  {
    match op
    case Ingest(owner, e, at) => if IngestSpec(db, owner, e, at).Some? { IngestSafe(db, owner, e, at); }
    case Delete(key) => DeleteSafe(db, key);
    case Remember(owner, key, text, refs, id) => RememberSafe(db, owner, key, text, refs, id, after);
    case Forget(owner, id) => ForgetSafe(db, owner, id);
    case CreateTask(id, owner, goal, refs, parent) => CreateTaskSafe(db, id, owner, goal, refs, parent);
    case Bind(task, owner, refs) => MoreDeps(db, after);
    case Record(task, owner, e, at) =>
      if !StaleResult(db, task, owner, e) { RecordSafe(db, task, owner, e, at); }
      RecordingKeepsStanding(db, task, owner, e);
    case CreateReminder(id, owner, task, text, refs, e, at) =>
      CreateReminderSafe(db, id, owner, task, text, refs, e, at);
    case Derive(owner, refs, e, at) => DeriveSafe(db, owner, refs, e, at);
    case Maintain(expired) => MaintainSafe(db, expired);
    case CutForget(_, _) => CutSafe(db, op, after);
    case CutNotify(_, _, _, _, _, _) => CutSafe(db, op, after);
    case CutCreateTask(_, _, _, _, _, _, _) => CutSafe(db, op, after);
    case CutRecord(_, _, _, _, _) => CutSafe(db, op, after);
    case _ => QuietSafe(db, op, after);
  }

  /** Operations that only move tasks, notifications and reminders between states. */
  lemma QuietSafe(db: Db, op: Op, after: Db)
    requires op.SetStatus? || op.Cancel? || op.Notify? || op.CloseNote? || op.MoveReminder?
    requires Safe(db) && Allowed(op) && Completes(db, op, after)
    ensures Safe(after)
  {
    SameEvidence(db, after);
    Untouched(db, after);
    assert after.memories == db.memories && after.memoryDocs == db.memoryDocs;
    assert NotesStand(after, {}) by { NotesQuiet(db, op, after); }
    assert TasksStand(after, {});
    assert RemindersStand(after, {});
  }

  lemma NotesQuiet(db: Db, op: Op, after: Db)
    requires op.SetStatus? || op.Cancel? || op.Notify? || op.CloseNote? || op.MoveReminder?
    requires NotesStand(db, {}) && Allowed(op) && Completes(db, op, after)
    ensures NotesStand(after, {})
  {}

  /** The step changed nothing, or is none of those that break the invariant. */
  ghost predicate StepKeeps(states: seq<Db>, ops: seq<Op>, i: nat)
    requires |states| == |ops| + 1 && i < |ops|
  {
    states[i + 1] == states[i] || !Breaks(states[i], ops[i])
  }

  lemma StepAt(states: seq<Db>, ops: seq<Op>, i: nat)
    requires Run(states, ops) && i < |ops| && Safe(states[i])
    ensures Safe(states[i + 1]) <==> StepKeeps(states, ops, i)
  {
    if states[i + 1] != states[i] {
      StepSafe(states[i], ops[i], states[i + 1]);
    }
  }

  lemma EmptyIsSafe()
    ensures Safe(EMPTY)
  {}

  lemma {:induction false} StaysSafe(states: seq<Db>, ops: seq<Op>, n: nat)
    requires Run(states, ops) && n < |states|
    requires forall i :: 0 <= i < n ==> StepKeeps(states, ops, i)
    ensures Safe(states[n])
  {
    if n == 0 {
      EmptyIsSafe();
    } else {
      StaysSafe(states, ops, n - 1);
      StepAt(states, ops, n - 1);
    }
  }

  /** In every state of every run, whatever is in standing cites only current evidence, and the full-text
      tables hold exactly the current evidence and the active memories, if and only if no operation of the run
      made an active task cite a stale revision, and no crash cut off the end of a forget or of a notification. */
  lemma EveryRunIsSafe(states: seq<Db>, ops: seq<Op>, n: nat)
    requires Run(states, ops) && n < |states|
    ensures (forall i :: 0 <= i <= n ==> Safe(states[i])) <==> forall i :: 0 <= i < n ==> StepKeeps(states, ops, i)
  {
    if forall i :: 0 <= i < n ==> StepKeeps(states, ops, i) {
      forall i | 0 <= i <= n ensures Safe(states[i]) { StaysSafe(states, ops, i); }
    }
    forall i | 0 <= i < n && Safe(states[i]) && Safe(states[i + 1]) ensures StepKeeps(states, ops, i) {
      StepAt(states, ops, i);
    }
  }
}
