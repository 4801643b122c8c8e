/** The ledger's tables as one value, and what the invalidation cascade does to them in closed form:
    the set of events it reaches through live derived evidence, and the effect on every dependent row. */
module Cascade {
  import opened Evidence

  datatype DepKind = TaskDep | MemoryDep | NotificationDep | ReminderDep | DerivedDep

  datatype Dep = Dep(kind: DepKind, subject: string, owner: string, eventId: string, revision: nat)
  {
    function Source(): Key { Key(owner, eventId) }
    function Target(): Target { Hit(kind, subject) }
  }

  /** A row some dependency points at; what a dependency query by source selects. */
  datatype Target = Hit(kind: DepKind, subject: string)

  datatype Status = Queued | Running | Waiting | Completed | Abstained | Cancelled | Failed
  {
    predicate Active() { Queued? || Running? || Waiting? }
  }

  datatype Task = Task(owner: string, parent: Option<string>, root: string, goal: string, status: Status,
                       log: seq<string>, result: Option<string>)

  datatype Memory = Memory(owner: string, key: string, version: nat, text: string, refs: seq<Ref>, active: bool)

  datatype NoteState = Pending | Acked | Withdrawn

  datatype Note = Note(owner: string, task: string, text: string, refs: seq<Ref>, state: NoteState)

  datatype ReminderState = Armed | Fired | Delivered | Resolved | Expired | Dropped | Rejected
  {
    predicate Open() { Armed? || Fired? }
  }

  datatype Reminder = Reminder(owner: string, task: string, text: string, refs: seq<Ref>, state: ReminderState)

  /** The four tables whose rows die with their task family. */
  datatype Attachment = Checkpoint(id: string, task: string) | Receipt(id: string, task: string)
                      | Message(id: string, task: string) | Schedule(id: string, task: string)

  datatype EvidenceDoc = EvidenceDoc(key: Key, revision: nat, text: string)

  datatype MemoryDoc = MemoryDoc(owner: string, id: string, text: string)

  datatype Db = Db(
    evidence: seq<Row>, tombs: set<Key>, deps: set<Dep>, tasks: map<string, Task>, memories: map<string, Memory>,
    notes: map<string, Note>, reminders: map<string, Reminder>, attached: set<Attachment>,
    evidenceDocs: set<EvidenceDoc>, memoryDocs: set<MemoryDoc>)

  const EMPTY := Db([], {}, {}, map[], map[], map[], map[], {}, {}, {})

  const ERASED := "[deleted evidence]"

  // ---- Reachability through live derived evidence ----

  ghost predicate Derives(deps: set<Dep>, from: Key, to: Key) {
    from.owner == to.owner && exists r: nat :: Dep(DerivedDep, to.id, from.owner, from.id, r) in deps
  }

  ghost predicate Edge(db: Db, from: Key, to: Key) {
    Live(db.evidence, to) && Derives(db.deps, from, to)
  }

  ghost predicate Path(db: Db, from: Key, via: seq<Key>, to: Key)
    decreases |via|
  {
    if via == [] then Edge(db, from, to) else Edge(db, from, via[0]) && Path(db, via[0], via[1..], to)
  }

  /** One or more live derivation steps lead from one event to the other. */
  ghost predicate Reaches(db: Db, from: Key, to: Key) {
    exists via: seq<Key> :: Path(db, from, via, to)
  }

  ghost function Below(db: Db, key: Key): set<Key> {
    set d | d in db.deps && Reaches(db, key, Key(d.owner, d.subject)) :: Key(d.owner, d.subject)
  }

  /** No live derivation cycle can be entered from the event. */
  ghost predicate Acyclic(db: Db, key: Key) {
    !Reaches(db, key, key) && forall x :: Reaches(db, key, x) ==> !Reaches(db, x, x)
  }

  /** A walk of the given number of live derivation steps starts at the event. */
  ghost predicate Walk(db: Db, from: Key, steps: nat)
    decreases steps
  {
    steps == 0 || exists next :: Edge(db, from, next) && Walk(db, next, steps - 1)
  }

  lemma ReachStep(db: Db, from: Key, mid: Key, to: Key)
    requires Edge(db, from, mid) && (mid == to || Reaches(db, mid, to))
    ensures Reaches(db, from, to)
  {
    if mid == to {
      assert Path(db, from, [], to);
    } else {
      var via :| Path(db, mid, via, to);
      assert ([mid] + via)[1..] == via;
      assert Path(db, from, [mid] + via, to);
    }
  }

  lemma ReachFirst(db: Db, from: Key, to: Key) returns (mid: Key)
    requires Reaches(db, from, to)
    ensures Edge(db, from, mid) && (mid == to || Reaches(db, mid, to))
  {
    var via :| Path(db, from, via, to);
    if via == [] {
      mid := to;
    } else {
      mid := via[0];
      assert Path(db, mid, via[1..], to);
    }
  }

  lemma {:induction false} ReachTrans(db: Db, a: Key, b: Key, c: Key)
    requires Reaches(db, a, b) && Reaches(db, b, c)
    ensures Reaches(db, a, c)
  {
    var via :| Path(db, a, via, b);
    PathTrans(db, a, via, b, c);
  }

  lemma {:induction false} PathTrans(db: Db, a: Key, via: seq<Key>, b: Key, c: Key)
    requires Path(db, a, via, b) && Reaches(db, b, c)
    ensures Reaches(db, a, c)
    decreases |via|
  {
    if via == [] {
      ReachStep(db, a, b, c);
    } else {
      PathTrans(db, via[0], via[1..], b, c);
      ReachStep(db, a, via[0], c);
    }
  }

  lemma ReachTarget(db: Db, from: Key, to: Key)
    requires Reaches(db, from, to)
    ensures Live(db.evidence, to) && to in Below(db, from)
  {
    var via :| Path(db, from, via, to);
    PathTarget(db, from, via, to);
    var r: nat, s: string :| Dep(DerivedDep, to.id, to.owner, s, r) in db.deps;
    assert Key(to.owner, to.id) == to;
  }

  lemma {:induction false} PathTarget(db: Db, from: Key, via: seq<Key>, to: Key)
    requires Path(db, from, via, to)
    ensures Live(db.evidence, to) && exists r: nat, s: string :: Dep(DerivedDep, to.id, to.owner, s, r) in db.deps
    decreases |via|
  {
    if via != [] {
      PathTarget(db, via[0], via[1..], to);
    } else {
      var r: nat :| Dep(DerivedDep, to.id, from.owner, from.id, r) in db.deps;
    }
  }

  lemma InBelow(db: Db, from: Key, to: Key)
    ensures to in Below(db, from) <==> Reaches(db, from, to)
  {
    if Reaches(db, from, to) { ReachTarget(db, from, to); }
  }

  /** A set that holds the direct successors and is closed under derivation holds everything reachable. */
  lemma {:induction false} ClosedHolds(db: Db, from: Key, via: seq<Key>, to: Key, s: set<Key>)
    requires Path(db, from, via, to)
    requires forall x :: Edge(db, from, x) ==> x in s
    requires forall x, y :: x in s && Edge(db, x, y) ==> y in s
    ensures to in s
    decreases |via|
  {
    if via != [] {
      ClosedHolds(db, via[0], via[1..], to, s);
    }
  }

  lemma BelowIsLeast(db: Db, from: Key, s: set<Key>)
    requires forall x :: Edge(db, from, x) ==> x in s
    requires forall x, y :: x in s && Edge(db, x, y) ==> y in s
    requires forall x :: x in s ==> Reaches(db, from, x)
    ensures s == Below(db, from)
  {
    forall x ensures x in Below(db, from) ==> x in s {
      InBelow(db, from, x);
      if Reaches(db, from, x) {
        var via :| Path(db, from, via, x);
        ClosedHolds(db, from, via, x, s);
      }
    }
    forall x | x in s ensures x in Below(db, from) { InBelow(db, from, x); }
  }

  lemma {:induction false} PathMonotone(small: Db, big: Db, from: Key, via: seq<Key>, to: Key)
    requires small.deps == big.deps
    requires forall k :: Live(small.evidence, k) ==> Live(big.evidence, k)
    requires Path(small, from, via, to)
    ensures Path(big, from, via, to)
    decreases |via|
  {
    if via != [] { PathMonotone(small, big, via[0], via[1..], to); }
  }

  lemma ReachMonotone(small: Db, big: Db, from: Key, to: Key)
    requires small.deps == big.deps
    requires forall k :: Live(small.evidence, k) ==> Live(big.evidence, k)
    requires Reaches(small, from, to)
    ensures Reaches(big, from, to)
  {
    var via :| Path(small, from, via, to);
    PathMonotone(small, big, from, via, to);
  }

  lemma {:induction false} WalkMonotone(small: Db, big: Db, from: Key, steps: nat)
    requires small.deps == big.deps
    requires forall k :: Live(small.evidence, k) ==> Live(big.evidence, k)
    requires Walk(small, from, steps)
    ensures Walk(big, from, steps)
    decreases steps
  {
    if steps > 0 {
      var next :| Edge(small, from, next) && Walk(small, next, steps - 1);
      WalkMonotone(small, big, next, steps - 1);
      assert Edge(big, from, next);
    }
  }

  /** Without a cycle, no walk is longer than the number of events below its start. */
  lemma {:induction false} WalkBound(db: Db, from: Key, steps: nat)
    requires Acyclic(db, from) && Walk(db, from, steps)
    ensures steps <= |Below(db, from)|
    decreases steps
  {
    if steps > 0 {
      var next :| Edge(db, from, next) && Walk(db, next, steps - 1);
      ReachStep(db, from, next, next);
      forall x | Reaches(db, next, x) ensures Reaches(db, from, x) { ReachStep(db, from, next, x); }
      WalkBound(db, next, steps - 1);
      forall x | x in Below(db, next) ensures x in Below(db, from) {
        InBelow(db, next, x);
        InBelow(db, from, x);
      }
      InBelow(db, from, next);
      InBelow(db, next, next);
      assert Below(db, next) < Below(db, from);
      StrictSubset(Below(db, next), Below(db, from));
    }
  }

  lemma StrictSubset(a: set<Key>, b: set<Key>)
    requires a < b
    ensures |a| < |b|
  {
    assert b == a + (b - a);
    assert |b| == |a| + |b - a|;
  }

  /** From an event that lies on or leads to a cycle, walks of every length start. */
  lemma {:induction false} CycleWalks(db: Db, key: Key, steps: nat)
    requires !Acyclic(db, key)
    ensures Walk(db, key, steps)
    decreases steps
  {
    if steps > 0 {
      var c := key;
      if !Reaches(db, key, key) {
        c :| Reaches(db, key, c) && Reaches(db, c, c);
      }
      var next := ReachFirst(db, key, c);
      if next != c { ReachTrans(db, next, c, c); }
      assert next == c || Reaches(db, next, c);
      if Reaches(db, next, next) {} else { assert Reaches(db, next, c) && Reaches(db, c, c); }
      CycleWalks(db, next, steps - 1);
    }
  }

  // ---- The effect of a set of hits on the tables ----

  function Roots(tasks: map<string, Task>, hits: set<Target>): set<string> {
    set t | t in tasks && Hit(TaskDep, t) in hits :: tasks[t].root
  }

  predicate InFamily(tasks: map<string, Task>, t: string, roots: set<string>) {
    t in tasks && (t in roots || tasks[t].root in roots)
  }

  function TaskEffect(x: Task, soft: bool, hard: bool): Task {
    var y := if soft && x.status.Active() then x.(status := Cancelled) else x;
    if hard then y.(goal := ERASED, log := [], result := None) else y
  }

  function MemoryEffect(x: Memory, soft: bool, hard: bool): Memory {
    if hard then x.(text := "", refs := [], active := false) else if soft then x.(active := false) else x
  }

  function NoteEffect(x: Note, soft: bool, hard: bool): Note {
    if hard then x.(text := "", refs := [], state := Withdrawn) else if soft then x.(state := Withdrawn) else x
  }

  function ReminderEffect(x: Reminder, soft: bool, hard: bool): Reminder {
    if hard then x.(text := "", refs := [], state := Dropped) else if soft then x.(state := Dropped) else x
  }

  function TasksAfter(tasks: map<string, Task>, soft: set<Target>, hard: set<Target>): map<string, Task> {
    EffectOn(tasks, Roots(tasks, soft), Roots(tasks, hard))
  }

  /** Cancel the families of some roots and blank those of others. */
  function EffectOn(tasks: map<string, Task>, cancelled: set<string>, blanked: set<string>): map<string, Task> {
    map t | t in tasks :: TaskEffect(tasks[t], InFamily(tasks, t, cancelled), tasks[t].root in blanked)
  }

  function MemoriesAfter(memories: map<string, Memory>, soft: set<Target>, hard: set<Target>): map<string, Memory> {
    map m | m in memories :: MemoryEffect(memories[m], Hit(MemoryDep, m) in soft, Hit(MemoryDep, m) in hard)
  }

  function NotesAfter(notes: map<string, Note>, tasks: map<string, Task>, soft: set<Target>, hard: set<Target>)
    : map<string, Note>
  {
    map n | n in notes ::
      NoteEffect(notes[n], Hit(NotificationDep, n) in soft || InFamily(tasks, notes[n].task, Roots(tasks, soft)),
                 Hit(NotificationDep, n) in hard)
  }

  function RemindersAfter(reminders: map<string, Reminder>, soft: set<Target>, hard: set<Target>): map<string, Reminder>
  {
    map r | r in reminders :: ReminderEffect(reminders[r], Hit(ReminderDep, r) in soft, Hit(ReminderDep, r) in hard)
  }

  function AttachedAfter(attached: set<Attachment>, tasks: map<string, Task>, hard: set<Target>): set<Attachment> {
    set a | a in attached && !(a.task in tasks && tasks[a.task].root in Roots(tasks, hard))
  }

  /** `soft` rows lose their standing, `hard` rows also lose their content, `killed` events are deleted. */
  function Apply(db: Db, soft: set<Target>, hard: set<Target>, killed: set<Key>): Db {
    db.(evidence := Erase(db.evidence, killed),
        tombs := db.tombs + killed,
        tasks := TasksAfter(db.tasks, soft, hard),
        memories := MemoriesAfter(db.memories, soft, hard),
        notes := NotesAfter(db.notes, db.tasks, soft, hard),
        reminders := RemindersAfter(db.reminders, soft, hard),
        attached := AttachedAfter(db.attached, db.tasks, hard),
        evidenceDocs := (set d | d in db.evidenceDocs && d.key !in killed),
        memoryDocs := (set d | d in db.memoryDocs && Hit(MemoryDep, d.id) !in soft))
  }

  lemma RootsAfter(tasks: map<string, Task>, soft: set<Target>, hard: set<Target>, hits: set<Target>)
    ensures Roots(TasksAfter(tasks, soft, hard), hits) == Roots(tasks, hits)
  {
    var after := TasksAfter(tasks, soft, hard);
    assert forall t :: t in after <==> t in tasks;
    assert forall t :: t in tasks ==> after[t].root == tasks[t].root;
    assert forall r :: r in Roots(tasks, hits) ==>
      exists t :: t in after && Hit(TaskDep, t) in hits && after[t].root == r;
    assert forall r :: r in Roots(after, hits) ==>
      exists t :: t in tasks && Hit(TaskDep, t) in hits && tasks[t].root == r;
  }

  lemma RootsUnion(tasks: map<string, Task>, a: set<Target>, b: set<Target>)
    ensures Roots(tasks, a + b) == Roots(tasks, a) + Roots(tasks, b)
  {}

  lemma EffectTwice(tasks: map<string, Task>, c: set<string>, b: set<string>, c': set<string>, b': set<string>)
    ensures EffectOn(EffectOn(tasks, c, b), c', b') == EffectOn(tasks, c + c', b + b')
  {
    var x, y := EffectOn(EffectOn(tasks, c, b), c', b'), EffectOn(tasks, c + c', b + b');
    forall t | t in tasks ensures x[t] == y[t] {
      TaskTwice(tasks[t], InFamily(tasks, t, c), tasks[t].root in b, InFamily(tasks, t, c'), tasks[t].root in b');
    }
  }

  lemma TaskTwice(x: Task, s: bool, h: bool, s': bool, h': bool)
    ensures TaskEffect(TaskEffect(x, s, h), s', h') == TaskEffect(x, s || s', h || h')
    ensures TaskEffect(x, s, h).root == x.root
  {}

  lemma TasksCompose(tasks: map<string, Task>, s: set<Target>, h: set<Target>, s': set<Target>, h': set<Target>)
    ensures TasksAfter(TasksAfter(tasks, s, h), s', h') == TasksAfter(tasks, s + s', h + h')
  {
    RootsAfter(tasks, s, h, s');
    RootsAfter(tasks, s, h, h');
    RootsUnion(tasks, s, s');
    RootsUnion(tasks, h, h');
    EffectTwice(tasks, Roots(tasks, s), Roots(tasks, h), Roots(tasks, s'), Roots(tasks, h'));
  }

  lemma NotesCompose(db: Db, s: set<Target>, h: set<Target>, s': set<Target>, h': set<Target>)
    ensures NotesAfter(NotesAfter(db.notes, db.tasks, s, h), TasksAfter(db.tasks, s, h), s', h')
            == NotesAfter(db.notes, db.tasks, s + s', h + h')
  {
    var mid := TasksAfter(db.tasks, s, h);
    RootsAfter(db.tasks, s, h, s');
    RootsUnion(db.tasks, s, s');
    FamilyAfter(db.tasks, s, h, Roots(db.tasks, s'));
    forall n | n in db.notes
      ensures NotesAfter(NotesAfter(db.notes, db.tasks, s, h), mid, s', h')[n]
          == NotesAfter(db.notes, db.tasks, s + s', h + h')[n]
    {
      var t := db.notes[n].task;
      assert InFamily(mid, t, Roots(db.tasks, s')) == InFamily(db.tasks, t, Roots(db.tasks, s'));
      assert InFamily(db.tasks, t, Roots(db.tasks, s + s'))
          == (InFamily(db.tasks, t, Roots(db.tasks, s)) || InFamily(db.tasks, t, Roots(db.tasks, s')));
    }
  }

  lemma AttachedCompose(db: Db, s: set<Target>, h: set<Target>, h': set<Target>)
    ensures AttachedAfter(AttachedAfter(db.attached, db.tasks, h), TasksAfter(db.tasks, s, h), h')
            == AttachedAfter(db.attached, db.tasks, h + h')
  {
    RootsAfter(db.tasks, s, h, h');
    RootsUnion(db.tasks, h, h');
    var mid := TasksAfter(db.tasks, s, h);
    assert forall t :: t in mid <==> t in db.tasks;
    assert forall t :: t in db.tasks ==> mid[t].root == db.tasks[t].root;
  }

  /** Two rounds of the cascade are one round on the unions: the order of rows does not matter. */
  lemma Compose(db: Db, s: set<Target>, h: set<Target>, k: set<Key>, s': set<Target>, h': set<Target>, k': set<Key>)
    ensures Apply(Apply(db, s, h, k), s', h', k') == Apply(db, s + s', h + h', k + k')
  {
    var a, b := Apply(Apply(db, s, h, k), s', h', k'), Apply(db, s + s', h + h', k + k');
    assert a.evidence == b.evidence by { EraseTwice(db.evidence, k, k'); }
    assert a.tasks == b.tasks by { TasksCompose(db.tasks, s, h, s', h'); }
    assert a.notes == b.notes by { NotesCompose(db, s, h, s', h'); }
    assert a.attached == b.attached by { AttachedCompose(db, s, h, h'); }
    assert a.memories == b.memories;
    assert a.reminders == b.reminders;
    assert a.memoryDocs == b.memoryDocs;
    assert a.evidenceDocs == b.evidenceDocs;
    assert a.tombs == b.tombs;
  }

  lemma FamilyAfter(tasks: map<string, Task>, s: set<Target>, h: set<Target>, roots: set<string>)
    ensures forall t :: InFamily(TasksAfter(tasks, s, h), t, roots) == InFamily(tasks, t, roots)
  {
    forall t ensures InFamily(TasksAfter(tasks, s, h), t, roots) == InFamily(tasks, t, roots) {
      if t in tasks { assert TasksAfter(tasks, s, h)[t].root == tasks[t].root; }
    }
  }

  lemma ApplyNothing(db: Db)
    ensures Apply(db, {}, {}, {}) == db
  {
    var r := Apply(db, {}, {}, {});
    assert r.evidence == db.evidence;
    assert r.tasks == db.tasks;
    assert r.memories == db.memories;
    assert r.notes == db.notes;
    assert r.reminders == db.reminders;
    assert r.attached == db.attached;
    assert r.evidenceDocs == db.evidenceDocs;
    assert r.memoryDocs == db.memoryDocs;
  }

  // ---- Closed forms of the two mutually recursive operations ----

  function TargetsOf(deps: set<Dep>, sources: set<Key>): set<Target> {
    set d | d in deps && d.Source() in sources :: d.Target()
  }

  /** An event changed: its dependents lose standing, everything derived from it is deleted. */
  ghost function InvalidateSpec(db: Db, key: Key): Db {
    var below := Below(db, key);
    Apply(db, TargetsOf(db.deps, below + {key}), TargetsOf(db.deps, below), below)
  }

  /** An event is deleted together with everything derived from it. */
  ghost function DeleteSpec(db: Db, key: Key): Db {
    var dead := Below(db, key) + {key};
    Apply(db, TargetsOf(db.deps, dead), TargetsOf(db.deps, dead), dead)
  }

  lemma TargetsUnion(deps: set<Dep>, a: set<Key>, b: set<Key>)
    ensures TargetsOf(deps, a + b) == TargetsOf(deps, a) + TargetsOf(deps, b)
  {}

  // ---- Single statements ----

  function CancelTasks(tasks: map<string, Task>, id: string): map<string, Task> {
    EffectOn(tasks, {id}, {})
  }

  function WithdrawNotes(notes: map<string, Note>, tasks: map<string, Task>, id: string): map<string, Note> {
    map n | n in notes :: NoteEffect(notes[n], InFamily(tasks, notes[n].task, {id}), false)
  }

  /** Cancel a task, and every task of the family if it is a root. */
  function CancelSpec(db: Db, id: string): Db {
    db.(tasks := CancelTasks(db.tasks, id), notes := WithdrawNotes(db.notes, db.tasks, id))
  }

  function SetMemory(memories: map<string, Memory>, id: string, blank: bool): map<string, Memory> {
    if id in memories then memories[id := MemoryEffect(memories[id], true, blank)] else memories
  }

  function SetNote(notes: map<string, Note>, id: string, blank: bool): map<string, Note> {
    if id in notes then notes[id := NoteEffect(notes[id], true, blank)] else notes
  }

  function SetReminder(reminders: map<string, Reminder>, id: string, blank: bool): map<string, Reminder> {
    if id in reminders then reminders[id := ReminderEffect(reminders[id], true, blank)] else reminders
  }

  /** What one row of the dependency query does in `invalidate`, derived evidence aside. */
  function SoftRow(db: Db, row: Target): Db {
    match row.kind
    case TaskDep => if row.subject in db.tasks then CancelSpec(db, db.tasks[row.subject].root) else db
    case MemoryDep => db.(memories := SetMemory(db.memories, row.subject, false),
                          memoryDocs := set d | d in db.memoryDocs && d.id != row.subject)
    case NotificationDep => db.(notes := SetNote(db.notes, row.subject, false))
    case ReminderDep => db.(reminders := SetReminder(db.reminders, row.subject, false))
    case DerivedDep => db
  }

  function BlankTasks(tasks: map<string, Task>, root: string): map<string, Task> {
    EffectOn(tasks, {}, {root})
  }

  function Detach(attached: set<Attachment>, tasks: map<string, Task>, root: string): set<Attachment> {
    set a | a in attached && !(a.task in tasks && tasks[a.task].root == root)
  }

  /** What one row of the dependency query does in the purge of `deleteEvidence`. */
  function HardRow(db: Db, row: Target): Db {
    match row.kind
    case TaskDep =>
      if row.subject in db.tasks then
        var root := db.tasks[row.subject].root;
        db.(tasks := BlankTasks(db.tasks, root), attached := Detach(db.attached, db.tasks, root))
      else db
    case MemoryDep => db.(memories := SetMemory(db.memories, row.subject, true))
    case NotificationDep => db.(notes := SetNote(db.notes, row.subject, true))
    case ReminderDep => db.(reminders := SetReminder(db.reminders, row.subject, true))
    case DerivedDep => db
  }

  lemma RootsSingle(tasks: map<string, Task>, row: Target)
    ensures Roots(tasks, {row}) ==
            if row.kind.TaskDep? && row.subject in tasks then {tasks[row.subject].root} else {}
  {
    if row.kind.TaskDep? && row.subject in tasks {
      assert Hit(TaskDep, row.subject) == row;
    }
  }

  lemma RootsEmpty(tasks: map<string, Task>)
    ensures Roots(tasks, {}) == {}
  {}

  lemma MemoryRow(memories: map<string, Memory>, row: Target, blank: bool)
    ensures MemoriesAfter(memories, {row}, if blank then {row} else {})
         == if row.kind.MemoryDep? then SetMemory(memories, row.subject, blank) else memories
  {
    assert Hit(row.kind, row.subject) == row;
  }

  lemma ReminderRow(reminders: map<string, Reminder>, row: Target, blank: bool)
    ensures RemindersAfter(reminders, {row}, if blank then {row} else {})
         == if row.kind.ReminderDep? then SetReminder(reminders, row.subject, blank) else reminders
  {
    assert Hit(row.kind, row.subject) == row;
  }

  lemma NoteRow(notes: map<string, Note>, tasks: map<string, Task>, row: Target, blank: bool)
    ensures NotesAfter(notes, tasks, {row}, if blank then {row} else {})
         == if row.kind.NotificationDep? then SetNote(notes, row.subject, blank)
            else if row.kind.TaskDep? && row.subject in tasks then WithdrawNotes(notes, tasks, tasks[row.subject].root)
            else notes
  {
    assert Hit(row.kind, row.subject) == row;
    RootsSingle(tasks, row);
  }

  lemma EffectNone(tasks: map<string, Task>)
    ensures EffectOn(tasks, {}, {}) == tasks
  {}

  lemma TaskRow(tasks: map<string, Task>, row: Target)
    ensures TasksAfter(tasks, {row}, {})
         == if row.kind.TaskDep? && row.subject in tasks then CancelTasks(tasks, tasks[row.subject].root) else tasks
    ensures row.kind.TaskDep? && row.subject in tasks ==>
            TasksAfter(tasks, {row}, {row}) == BlankTasks(CancelTasks(tasks, tasks[row.subject].root),
                                                          tasks[row.subject].root)
    ensures !(row.kind.TaskDep? && row.subject in tasks) ==> TasksAfter(tasks, {row}, {row}) == tasks
  {
    RootsSingle(tasks, row);
    RootsEmpty(tasks);
    EffectNone(tasks);
    if row.kind.TaskDep? && row.subject in tasks {
      var root := tasks[row.subject].root;
      EffectTwice(tasks, {root}, {}, {}, {root});
    }
  }

  lemma AttachedRow(attached: set<Attachment>, tasks: map<string, Task>, row: Target)
    ensures AttachedAfter(attached, tasks, {}) == attached
    ensures AttachedAfter(attached, tasks, {row})
         == if row.kind.TaskDep? && row.subject in tasks then Detach(attached, tasks, tasks[row.subject].root)
           else attached
  {
    RootsSingle(tasks, row);
    RootsEmpty(tasks);
  }

  lemma DocsRow(docs: set<MemoryDoc>, row: Target)
    ensures (set d | d in docs && Hit(MemoryDep, d.id) !in {row})
         == if row.kind.MemoryDep? then set d | d in docs && d.id != row.subject else docs
  {
    assert Hit(row.kind, row.subject) == row;
  }

  lemma NothingErased(db: Db)
    ensures Erase(db.evidence, {}) == db.evidence
    ensures (set d | d in db.evidenceDocs && d.key !in {}) == db.evidenceDocs
    ensures db.tombs + {} == db.tombs
  {}

  lemma SoftRowApplies(db: Db, row: Target)
    ensures SoftRow(db, row) == Apply(db, {row}, {}, {})
  {
    TaskRow(db.tasks, row);
    MemoryRow(db.memories, row, false);
    NoteRow(db.notes, db.tasks, row, false);
    ReminderRow(db.reminders, row, false);
    AttachedRow(db.attached, db.tasks, row);
    DocsRow(db.memoryDocs, row);
    NothingErased(db);
  }

  /** Purging a row that has already lost its standing erases it and changes nothing else. */
  lemma HardRowApplies(db: Db, row: Target)
    requires SoftRow(db, row) == db
    ensures HardRow(db, row) == Apply(db, {row}, {row}, {})
  {
    TaskRow(db.tasks, row);
    MemoryRow(db.memories, row, true);
    NoteRow(db.notes, db.tasks, row, true);
    ReminderRow(db.reminders, row, true);
    AttachedRow(db.attached, db.tasks, row);
    DocsRow(db.memoryDocs, row);
    NothingErased(db);
  }
}
