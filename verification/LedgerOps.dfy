/** What each operation of the evidence store does to the tables.  `None` is a refused operation, which leaves
    the tables as they were. */
module LedgerOps {
  import opened Evidence
  import opened Cascade

  // ---- Evidence ----

  function IndexEvent(db: Db, key: Key, e: Event): Db {
    var others := set d | d in db.evidenceDocs && d.key != key;
    db.(evidenceDocs := if e.final then others + {EvidenceDoc(key, e.revision, e.text)} else others)
  }

  function Stored(db: Db, owner: string, e: Event, at: int): Db {
    db.(evidence := db.evidence + [Row(Key(owner, e.id), e.revision, Some(e), at)])
  }

  /** Refused: the event was deleted, the revision exists with other content, or its identity changed. */
  predicate Conflicts(db: Db, owner: string, e: Event) {
    var key := Key(owner, e.id);
    var prior := Find(db.evidence, key, e.revision);
    var latest := Latest(db.evidence, key);
    || key in db.tombs
    || (prior.Some? && prior.value.payload != Some(e))
    || (prior.None? && latest.Some? && !latest.value.SameIdentity(e))
  }

  predicate Duplicate(db: Db, owner: string, e: Event) {
    Find(db.evidence, Key(owner, e.id), e.revision).Some?
  }

  /** A new revision supersedes unless a newer one is already there. */
  predicate Supersedes(db: Db, owner: string, e: Event) {
    var latest := Latest(db.evidence, Key(owner, e.id));
    latest.None? || latest.value.revision < e.revision
  }

  ghost function IngestSpec(db: Db, owner: string, e: Event, at: int): Option<Db> {
    var key := Key(owner, e.id);
    var stored := Stored(db, owner, e, at);
    if Conflicts(db, owner, e) then None
    else if Duplicate(db, owner, e) then Some(db)
    else if !Supersedes(db, owner, e) then Some(stored)
    else if !Acyclic(stored, key) then None
    else Some(IndexEvent(InvalidateSpec(stored, key), key, e))
  }

  // ---- Dependencies ----

  function Depend(deps: set<Dep>, kind: DepKind, subject: string, owner: string, refs: seq<Ref>): set<Dep> {
    deps + set r | r in refs :: Dep(kind, subject, owner, r.eventId, r.revision)
  }

  function RefsOf(deps: set<Dep>, kind: DepKind, subject: string): set<Ref> {
    set d | d in deps && d.kind == kind && d.subject == subject :: Ref(d.eventId, d.revision)
  }

  // ---- Memories ----

  predicate SameKey(m: Memory, owner: string, key: string) {
    m.owner == owner && m.key == key
  }

  ghost predicate IsNewest(memories: map<string, Memory>, owner: string, key: string, id: string) {
    id in memories && SameKey(memories[id], owner, key) &&
    forall x :: x in memories && SameKey(memories[x], owner, key) ==> memories[x].version <= memories[id].version
  }

  function Retire(memories: map<string, Memory>, owner: string, key: string, blank: bool): map<string, Memory> {
    map m | m in memories :: MemoryEffect(memories[m], SameKey(memories[m], owner, key), blank
      && SameKey(memories[m], owner, key))
  }

  function AddMemory(db: Db, id: string, m: Memory): Db {
    db.(memories := db.memories[id := m],
        memoryDocs := db.memoryDocs + {MemoryDoc(m.owner, id, m.text)},
        deps := Depend(db.deps, MemoryDep, id, m.owner, m.refs))
  }

  /** Write a version of a memory over the newest one found, if any. */
  function RememberOver(db: Db, newest: Option<string>, owner: string, key: string, text: string, refs: seq<Ref>,
                        id: string): Db
    requires newest.Some? ==> newest.value in db.memories
  {
    match newest
    case None => AddMemory(db, id, Memory(owner, key, 1, text, refs, true))
    case Some(o) =>
      var m := db.memories[o];
      if m.active && m.text == text && m.refs == refs then db
      else AddMemory(db.(memories := Retire(db.memories, owner, key, false),
                         memoryDocs := (set d | d in db.memoryDocs && d.id != o)),
                     id, Memory(owner, key, m.version + 1, text, refs, true))
  }

  ghost predicate Remembers(db: Db, owner: string, key: string, text: string, refs: seq<Ref>, id: string, after: Db) {
    Valid(db.evidence, owner, refs) && id !in db.memories &&
    ((after == RememberOver(db, None, owner, key, text, refs, id)
      && forall x :: x in db.memories ==> !SameKey(db.memories[x], owner, key))
     || exists o ::
          IsNewest(db.memories, owner, key, o) && after == RememberOver(db, Some(o), owner, key, text, refs, id))
  }

  predicate Recallable(db: Db, owner: string, id: string) {
    id in db.memories && db.memories[id].owner == owner && db.memories[id].active
    && Valid(db.evidence, owner, db.memories[id].refs)
  }

  /** The tasks that retrieved one of a memory's sources. */
  function Retrievers(db: Db, owner: string, refs: seq<Ref>): set<Target> {
    set d | d in db.deps && d.kind == TaskDep && d.owner == owner && Ref(d.eventId, d.revision) in refs :: d.Target()
  }

  function ForgetSpec(db: Db, owner: string, id: string): Db {
    if !Recallable(db, owner, id) then db
    else
      var m := db.memories[id];
      var cancelled := Apply(db, Retrievers(db, owner, m.refs), {}, {});
      cancelled.(memories := Retire(db.memories, owner, m.key, true),
                 memoryDocs := set d | d in db.memoryDocs &&
                   !(d.owner == owner && d.id in db.memories && SameKey(db.memories[d.id], owner, m.key)))
  }

  // ---- Tasks ----

  datatype Parent = Parent(id: string, root: string)

  function CreateTaskSpec(db: Db, id: string, owner: string, goal: string, refs: seq<Ref>,
                          parent: Option<Parent>): Option<Db>
  {
    if !Valid(db.evidence, owner, refs) then None
    else if id in db.tasks then Some(db)
    else
      var root := if parent.Some? then parent.value.root else id;
      var deps := Depend(db.deps, TaskDep, id, owner, refs);
      var above := if parent.Some? then Some(parent.value.id) else None;
      Some(db.(
        tasks := db.tasks[id := Task(owner, above, root, goal, Queued, [], None)],
        deps := if parent.Some? then Depend(deps, TaskDep, root, owner, refs) else deps))
  }

  /** A tool cites evidence on behalf of a task and its root. */
  function BindSpec(db: Db, task: Parent, owner: string, refs: seq<Ref>): Option<Db> {
    if !Valid(db.evidence, owner, refs) then None
    else Some(db.(deps := Depend(Depend(db.deps, TaskDep, task.id, owner, refs), TaskDep, task.root, owner, refs)))
  }

  function LinkToolResult(db: Db, task: Parent, owner: string, e: Event): Db {
    var derived := set r | r in RefsOf(db.deps, TaskDep, task.id) && r.eventId != e.id
                       :: Dep(DerivedDep, e.id, owner, r.eventId, r.revision);
    db.(deps := Depend(Depend(db.deps + derived, TaskDep, task.id, owner, [e.AsRef()]), TaskDep, task.root, owner,
                       [e.AsRef()]))
  }

  /** A tool result becomes evidence derived from everything its task cites, and is cited in turn. */
  ghost function RecordSpec(db: Db, task: Parent, owner: string, e: Event, at: int): Option<Db> {
    if Live(db.evidence, Key(owner, e.id)) then Some(LinkToolResult(db, task, owner, e))
    else
      var stored := IngestSpec(db, owner, e, at);
      if stored.None? then None else Some(LinkToolResult(stored.value, task, owner, e))
  }

  /** The harness moves a task only while it is active, and never revives one. */
  function SetStatusSpec(db: Db, id: string, status: Status): Db {
    if id in db.tasks && db.tasks[id].status.Active()
    then db.(tasks := db.tasks[id := db.tasks[id].(status := status)])
    else db
  }

  // ---- Notifications and reminders ----

  function NotifySpec(db: Db, id: string, task: string, owner: string, text: string, refs: seq<Ref>): Option<Db> {
    if !Valid(db.evidence, owner, refs) then None
    else Some(db.(
      notes := if id in db.notes then db.notes else db.notes[id := Note(owner, task, text, refs, Pending)],
      deps := Depend(db.deps, NotificationDep, id, owner, refs)))
  }

  /** Acknowledge or expire a notification that is still pending. */
  function CloseNoteSpec(db: Db, id: string, state: NoteState): Db
    requires !state.Pending?
  {
    if id in db.notes && db.notes[id].state.Pending?
    then db.(notes := db.notes[id := db.notes[id].(state := state)])
    else db
  }

  /** Store an event made by the agent itself, a due schedule, a reminder that wakes a task or an enrolment, as
      derived from the evidence behind it. */
  ghost function DeriveSpec(db: Db, owner: string, refs: seq<Ref>, e: Event, at: int): Option<Db> {
    if !Valid(db.evidence, owner, refs) then None
    else
      var stored := IngestSpec(db, owner, e, at);
      if stored.None? then None
      else Some(stored.value.(deps := Depend(stored.value.deps, DerivedDep, e.id, owner, refs)))
  }

  function ArmedReminder(db: Db, id: string, owner: string, task: string, text: string, refs: seq<Ref>): Db {
    db.(reminders := db.reminders[id := Reminder(owner, task, text, refs, Armed)],
        deps := Depend(db.deps, ReminderDep, id, owner, refs))
  }

  /** Create a reminder together with the receipt `e` that makes it citable. */
  ghost function CreateReminderSpec(db: Db, id: string, owner: string, task: string, text: string, refs: seq<Ref>,
                                    e: Event, at: int): Option<Db>
  {
    if id in db.reminders then (if db.reminders[id].owner == owner then Some(db) else None)
    else if !Valid(db.evidence, owner, refs) then None
    else
      var armed := ArmedReminder(db, id, owner, task, text, refs);
      var stored := IngestSpec(armed, owner, e, at);
      if stored.None? then None
      else Some(stored.value.(deps := Depend(stored.value.deps, DerivedDep, e.id, owner, refs)))
  }

  /** Fire, re-arm or settle a reminder: nothing closed is opened again. */
  function MoveReminderSpec(db: Db, id: string, state: ReminderState): Db {
    if id in db.reminders && (db.reminders[id].state.Open() || !state.Open())
    then db.(reminders := db.reminders[id := db.reminders[id].(state := state)])
    else db
  }

  // ---- What a crash leaves of operations that are no single transaction ----

  function Upto(refs: seq<Ref>, n: nat): seq<Ref> {
    if n <= |refs| then refs[..n] else refs
  }

  /** Every statement of `ForgetSpec` but the last, which drops the documents. */
  function CutForgetSpec(db: Db, owner: string, id: string): Db {
    if Recallable(db, owner, id) then ForgetSpec(db, owner, id).(memoryDocs := db.memoryDocs) else db
  }

  /** The notification and the first of its dependencies. */
  function CutNotifySpec(db: Db, id: string, task: string, owner: string, text: string, refs: seq<Ref>,
                         n: nat): Option<Db>
  {
    if !Valid(db.evidence, owner, refs) then None
    else Some(db.(
      notes := if id in db.notes then db.notes else db.notes[id := Note(owner, task, text, refs, Pending)],
      deps := Depend(db.deps, NotificationDep, id, owner, Upto(refs, n))))
  }

  /** The task and the first of its dependencies, its own and its root's. */
  function CutCreateTaskSpec(db: Db, id: string, owner: string, goal: string, refs: seq<Ref>, parent: Option<Parent>,
                             own: nat, atRoot: nat): Option<Db>
  {
    var full := CreateTaskSpec(db, id, owner, goal, refs, parent);
    if full.None? || id in db.tasks then full
    else
      var deps := Depend(db.deps, TaskDep, id, owner, Upto(refs, own));
      Some(full.value.(deps := if parent.Some? then Depend(deps, TaskDep, parent.value.root, owner, Upto(refs, atRoot))
        else deps))
  }

  function SomeDerived(db: Db, task: Parent, owner: string, e: Event, linked: set<Ref>): set<Dep> {
    set r | r in RefsOf(db.deps, TaskDep, task.id) && r in linked && r.eventId != e.id
         :: Dep(DerivedDep, e.id, owner, r.eventId, r.revision)
  }

  /** The tool result and some of its derivations, before the task cites it. */
  ghost function CutRecordSpec(db: Db, task: Parent, owner: string, e: Event, at: int, linked: set<Ref>): Option<Db> {
    var stored := if Live(db.evidence, Key(owner, e.id)) then Some(db) else IngestSpec(db, owner, e, at);
    if stored.None? then None
    else Some(stored.value.(deps := stored.value.deps + SomeDerived(stored.value, task, owner, e, linked)))
  }

  // ---- Maintenance ----

  function Remaining(rows: seq<Row>): (kept: seq<Row>)
    ensures forall r :: r in kept <==> r in rows && r.payload.Some?
  {
    if rows == [] then []
    else
      var kept := Remaining(rows[..|rows| - 1]);
      var last := rows[|rows| - 1];
      if last.payload.Some? then kept + [last] else kept
  }

  /** Drop deleted evidence rows, and finished tasks with everything of theirs. */
  function MaintainSpec(db: Db, expired: set<string>): Db {
    var gone := set t | t in expired && t in db.tasks && !db.tasks[t].status.Active();
    db.(evidence := Remaining(db.evidence),
        tasks := map t | t in db.tasks && t !in gone :: db.tasks[t],
        deps := (set d | d in db.deps && !(d.kind == TaskDep && d.subject in gone)),
        notes := (map n | n in db.notes && db.notes[n].task !in gone :: db.notes[n]),
        attached := (set a | a in db.attached && a.task !in gone))
  }
}
