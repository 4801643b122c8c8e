/** What a deletion removes, row by row; and two runs: to evidence that cannot be deleted, and to an active task that
    cites a stale revision. */
module LedgerFindings {
  import opened Evidence
  import opened Cascade
  import opened LedgerOps
  import opened LedgerSafety
  import opened LedgerRuns
  import opened Derivations

  // ---- Exactly what a deletion removes ----

  ghost predicate Dead(db: Db, key: Key, source: Key) {
    source == key || Reaches(db, key, source)
  }

  /** The row has a recorded dependency on the deleted event or on something derived from it. */
  ghost predicate Tainted(db: Db, key: Key, kind: DepKind, id: string) {
    exists d :: d in db.deps && d.kind == kind && d.subject == id && Dead(db, key, d.Source())
  }

  ghost predicate TaintedFamily(db: Db, key: Key, root: string) {
    exists t :: t in db.tasks && db.tasks[t].root == root && Tainted(db, key, TaskDep, t)
  }

  lemma HitIffTainted(db: Db, key: Key, kind: DepKind, id: string)
    ensures Hit(kind, id) in TargetsOf(db.deps, Below(db, key) + {key}) <==> Tainted(db, key, kind, id)
  {
    forall s ensures s in Below(db, key) + {key} <==> Dead(db, key, s) { InBelow(db, key, s); }
    if Tainted(db, key, kind, id) {
      var d :| d in db.deps && d.kind == kind && d.subject == id && Dead(db, key, d.Source());
      assert d.Target() == Hit(kind, id);
    }
  }

  lemma RootIffTainted(db: Db, key: Key, root: string)
    ensures root in Roots(db.tasks, TargetsOf(db.deps, Below(db, key) + {key})) <==> TaintedFamily(db, key, root)
  {
    forall t ensures Hit(TaskDep, t) in TargetsOf(db.deps, Below(db, key) + {key}) <==> Tainted(db, key, TaskDep, t) {
      HitIffTainted(db, key, TaskDep, t);
    }
  }

  ghost predicate MemoryOutcome(db: Db, after: Db, key: Key, m: string)
    requires m in db.memories
  {
    m in after.memories &&
    if Tainted(db, key, MemoryDep, m)
    then after.memories[m].text == "" && after.memories[m].refs == [] && !after.memories[m].active
    else after.memories[m] == db.memories[m]
  }

  ghost predicate ReminderOutcome(db: Db, after: Db, key: Key, r: string)
    requires r in db.reminders
  {
    r in after.reminders &&
    if Tainted(db, key, ReminderDep, r)
    then after.reminders[r].text == "" && after.reminders[r].refs == [] && after.reminders[r].state == Dropped
    else after.reminders[r] == db.reminders[r]
  }

  ghost predicate NoteOutcome(db: Db, after: Db, key: Key, n: string)
    requires n in db.notes
  {
    var x := db.notes[n];
    n in after.notes && after.notes[n] ==
      if Tainted(db, key, NotificationDep, n) then x.(text := "", refs := [], state := Withdrawn)
      else if CancelledTask(db, key, x.task) then x.(state := Withdrawn)
      else x
  }

  /** The task is of a tainted family, or its root. */
  ghost predicate CancelledTask(db: Db, key: Key, t: string) {
    t in db.tasks && (TaintedFamily(db, key, db.tasks[t].root) || TaintedFamily(db, key, t))
  }

  ghost predicate TaskOutcome(db: Db, after: Db, key: Key, t: string)
    requires t in db.tasks
  {
    var x := db.tasks[t];
    var status := if x.status.Active() && CancelledTask(db, key, t) then Cancelled else x.status;
    t in after.tasks && after.tasks[t] ==
      if TaintedFamily(db, key, x.root) then x.(status := status, goal := ERASED, log := [], result := None)
      else x.(status := status)
  }

  /** What hangs on a task goes with its family. */
  ghost predicate AttachedOutcome(db: Db, after: Db, key: Key, a: Attachment) {
    a in after.attached <==>
      a in db.attached && !(a.task in db.tasks && TaintedFamily(db, key, db.tasks[a.task].root))
  }

  /** The rows, tombstones and documents that are left of the evidence and the memories. */
  ghost predicate EvidenceOutcome(db: Db, after: Db, key: Key) {
    && |after.evidence| == |db.evidence|
    && (forall i :: 0 <= i < |db.evidence| ==>
          after.evidence[i]
          == if Dead(db, key, db.evidence[i].key) then db.evidence[i].(payload := None) else db.evidence[i])
    && (forall k :: k in after.tombs <==> k in db.tombs || Dead(db, key, k))
    && (forall d: EvidenceDoc :: d in after.evidenceDocs <==> d in db.evidenceDocs && !Dead(db, key, d.key))
    && (forall d: MemoryDoc :: d in after.memoryDocs <==> d in db.memoryDocs && !Tainted(db, key, MemoryDep, d.id))
    && after.deps == db.deps
  }

  /** A deletion removes the event and exactly what its live derivations reach, with their documents; it blanks every
      memory, reminder, notification and task family that depends on any of it; it cancels the active tasks of such
      a family, withdraws their notifications and drops their receipts, messages, schedules and checkpoints; and it
      leaves everything else as it was. */
  lemma DeletionIsExact(db: Db, key: Key)
    ensures var after := DeleteSpec(db, key);
            forall k :: Live(after.evidence, k) <==> Live(db.evidence, k) && !Dead(db, key, k)
    ensures EvidenceOutcome(db, DeleteSpec(db, key), key)
    ensures forall m :: m in db.memories ==> MemoryOutcome(db, DeleteSpec(db, key), key, m)
    ensures forall r :: r in db.reminders ==> ReminderOutcome(db, DeleteSpec(db, key), key, r)
    ensures forall n :: n in db.notes ==> NoteOutcome(db, DeleteSpec(db, key), key, n)
    ensures forall t :: t in db.tasks ==> TaskOutcome(db, DeleteSpec(db, key), key, t)
    ensures forall a :: AttachedOutcome(db, DeleteSpec(db, key), key, a)
  {
    var after := DeleteSpec(db, key);
    forall k ensures Live(after.evidence, k) <==> Live(db.evidence, k) && !Dead(db, key, k) {
      InBelow(db, key, k);
      LatestErase(db.evidence, Below(db, key) + {key}, k);
    }
    forall k ensures k in Below(db, key) + {key} <==> Dead(db, key, k) { InBelow(db, key, k); }
    forall m ensures Hit(MemoryDep, m) in TargetsOf(db.deps, Below(db, key) + {key})
                     <==> Tainted(db, key, MemoryDep, m)
    {
      HitIffTainted(db, key, MemoryDep, m);
    }
    forall r | r in db.reminders ensures ReminderOutcome(db, after, key, r) { HitIffTainted(db, key, ReminderDep, r); }
    forall t ensures InFamily(db.tasks, t, Roots(db.tasks, TargetsOf(db.deps, Below(db, key) + {key})))
                     <==> CancelledTask(db, key, t)
    {
      if t in db.tasks {
        RootIffTainted(db, key, db.tasks[t].root);
        RootIffTainted(db, key, t);
      }
    }
    forall n | n in db.notes ensures NoteOutcome(db, after, key, n) { HitIffTainted(db, key, NotificationDep, n); }
    forall t | t in db.tasks ensures TaskOutcome(db, after, key, t) { RootIffTainted(db, key, db.tasks[t].root); }
    forall a ensures AttachedOutcome(db, after, key, a) {
      if a.task in db.tasks { RootIffTainted(db, key, db.tasks[a.task].root); }
    }
  }

  /** A notification whose dependencies a crash kept from being written stays pending when what it cites is deleted,
      unless the family of its task is cancelled by the deletion. */
  lemma UnrecordedOutlives(db: Db, id: string, task: string, owner: string, text: string, refs: seq<Ref>, r: Ref)
    requires Valid(db.evidence, owner, refs) && id !in db.notes && r in refs
    requires forall d :: d in db.deps ==> !(d.kind == NotificationDep && d.subject == id)
    ensures var cut, key := CutNotifySpec(db, id, task, owner, text, refs, 0).value, Key(owner, r.eventId);
            var after := DeleteSpec(cut, key);
            && !Current(after.evidence, owner, r) && r in refs
            && (after.notes[id].state.Pending? <==>
                  task !in db.tasks || !(TaintedFamily(cut, key, db.tasks[task].root) || TaintedFamily(cut, key, task)))
  {
    var cut, key := CutNotifySpec(db, id, task, owner, text, refs, 0).value, Key(owner, r.eventId);
    var dead := Below(cut, key) + {key};
    assert cut.deps == db.deps && cut.tasks == db.tasks;
    LatestErase(cut.evidence, dead, key);
    assert Hit(NotificationDep, id) !in TargetsOf(cut.deps, dead);
    if task in db.tasks {
      RootIffTainted(cut, key, db.tasks[task].root);
      RootIffTainted(cut, key, task);
    }
  }

  // ---- A run of seven operations that ends with evidence that cannot be deleted ----

  function Sample(id: string): Event {
    Event(id, 0, "device", "stream", Context, true, 0, 0, "text", [], "sample")
  }

  const PARENT := Parent("p", "p")
  const CHILD := Parent("c", "p")

  /** A first revision that nothing refers to yet is stored and indexed, and that is all. */
  lemma FirstRevision(db: Db, owner: string, e: Event, at: int)
    requires e.final && Key(owner, e.id) !in db.tombs && Top(db.evidence, Key(owner, e.id)).None?
    requires forall d :: d in db.deps ==> d.Source() != Key(owner, e.id)
    ensures IngestSpec(db, owner, e, at) == Some(IndexEvent(Stored(db, owner, e, at), Key(owner, e.id), e))
    ensures forall k :: Latest(Stored(db, owner, e, at).evidence, k) == if k == Key(owner, e.id) then Some(e)
        else Latest(db.evidence, k)
    ensures forall k :: Top(Stored(db, owner, e, at).evidence, k).None? <==>
          k != Key(owner, e.id) && Top(db.evidence, k).None?
  {
    var key, stored := Key(owner, e.id), Stored(db, owner, e, at);
    assert Find(db.evidence, key, e.revision).None?;
    forall x ensures !Reaches(stored, key, x) {
      if Reaches(stored, key, x) { var mid := ReachFirst(stored, key, x); }
    }
    forall x ensures x !in Below(stored, key) { InBelow(stored, key, x); }
    assert Below(stored, key) == {};
    assert TargetsOf(stored.deps, {}) == {} && TargetsOf(stored.deps, {} + {key}) == {};
    ApplyNothing(stored);
    StoredLatest(db, owner, e, at);
    forall k ensures Top(stored.evidence, k).None? <==> k != key && Top(db.evidence, k).None? {
    }
  }

  /** The sample events of some ids are stored, and dependencies name only those. */
  ghost predicate Holds(db: Db, ids: set<string>) {
    && db.tombs == {}
    && (forall k :: Latest(db.evidence, k) == if k.owner == "o" && k.id in ids then Some(Sample(k.id)) else None)
    && (forall k :: Top(db.evidence, k).None? <==> !(k.owner == "o" && k.id in ids))
    && (forall d :: d in db.deps ==> d.eventId in ids)
  }

  lemma IngestSample(db: Db, ids: set<string>, id: string)
    requires Holds(db, ids) && id !in ids
    ensures IngestSpec(db, "o", Sample(id), 0).Some?
    ensures var after := IngestSpec(db, "o", Sample(id), 0).value;
            Holds(after, ids + {id}) && after.deps == db.deps && after.tasks == db.tasks
            && after.memories == db.memories && after.notes == db.notes
  {
    FirstRevision(db, "o", Sample(id), 0);
  }

  lemma LinkHolds(db: Db, ids: set<string>, task: Parent, id: string)
    requires Holds(db, ids) && id in ids
    ensures Holds(LinkToolResult(db, task, "o", Sample(id)), ids)
  {
    var after := LinkToolResult(db, task, "o", Sample(id));
    forall d | d in after.deps && d !in db.deps ensures d.eventId in ids {
      if d.kind == DerivedDep {
        assert Ref(d.eventId, d.revision) in RefsOf(db.deps, TaskDep, task.id);
      } else {
        assert Sample(id).AsRef() == Ref(id, 0);
      }
    }
  }

  lemma RecordSample(db: Db, ids: set<string>, task: Parent, id: string) returns (after: Db)
    requires Holds(db, ids) && id !in ids
    ensures Completes(db, Record(task, "o", Sample(id), 0), after) && Allowed(Record(task, "o", Sample(id), 0))
    ensures Holds(after, ids + {id}) && after.deps == LinkToolResult(db, task, "o", Sample(id)).deps
  {
    IngestSample(db, ids, id);
    var stored := IngestSpec(db, "o", Sample(id), 0).value;
    after := LinkToolResult(stored, task, "o", Sample(id));
    LinkHolds(stored, ids + {id}, task, id);
  }

  lemma CreateSample(db: Db, ids: set<string>, id: string, parent: Option<Parent>) returns (after: Db)
    requires Holds(db, ids) && "a" in ids && forall d :: d in db.deps ==> d.subject != id
    ensures Completes(db, CreateTask(id, "o", "goal", [Ref("a", 0)], parent), after)
    ensures Allowed(CreateTask(id, "o", "goal", [Ref("a", 0)], parent))
    ensures Holds(after, ids)
    ensures forall d :: d in after.deps ==>
              d in db.deps || d.subject == id || (parent.Some? && d.subject == parent.value.root)
  {
    after := Or(db, CreateTaskSpec(db, id, "o", "goal", [Ref("a", 0)], parent));
  }

  lemma BindSample(db: Db, ids: set<string>, task: Parent, id: string) returns (after: Db)
    requires Holds(db, ids) && id in ids
    ensures Completes(db, Bind(task, "o", [Ref(id, 0)]), after) && Allowed(Bind(task, "o", [Ref(id, 0)]))
    ensures Holds(after, ids) && Dep(TaskDep, task.id, "o", id, 0) in after.deps
  {
    assert [Ref(id, 0)][0] == Ref(id, 0);
    after := Or(db, BindSpec(db, task, "o", [Ref(id, 0)]));
  }

  lemma Extend(states: seq<Db>, ops: seq<Op>, op: Op, after: Db) returns (s: seq<Db>, o: seq<Op>)
    requires Run(states, ops) && Allowed(op) && Completes(states[|ops|], op, after)
    ensures Run(s, o) && s == states + [after] && o == ops + [op]
  {
    s, o := states + [after], ops + [op];
    forall i | 0 <= i < |o| ensures Allowed(o[i]) && (s[i + 1] == s[i] || Completes(s[i], o[i], s[i + 1])) {
      if i < |ops| { assert o[i] == ops[i] && s[i] == states[i] && s[i + 1] == states[i + 1]; }
    }
  }

  /** A parent and a child share the citations of a tool result of the parent; the child records a result of its
      own, which makes the parent cite a consequence of its result; then the parent's call is repeated. */
  lemma UndeletableEvidenceIsReachable() returns (states: seq<Db>, ops: seq<Op>)
    ensures Run(states, ops)
    ensures Live(states[|ops|].evidence, Key("o", "tool-x")) && !Acyclic(states[|ops|], Key("o", "tool-x"))
  {
    states, ops := TwoTasks();
    states, ops := BothCite(states, ops);
    var s5 := states[5];
    var s6 := RecordSample(s5, {"a", "tool-x"}, CHILD, "tool-y");
    states, ops := Extend(states, ops, Record(CHILD, "o", Sample("tool-y"), 0), s6);
    CitesConsequence(s5, s6, Sample("tool-y"));
    ResultClosesCycle(s6, PARENT, "o", Sample("tool-x"));
    var s7 := LinkToolResult(s6, PARENT, "o", Sample("tool-x"));
    RecordsAgain(s6, PARENT, Sample("tool-x"));
    states, ops := Extend(states, ops, Record(PARENT, "o", Sample("tool-x"), 0), s7);
  }

  lemma RecordsAgain(db: Db, task: Parent, e: Event)
    requires Live(db.evidence, Key("o", e.id)) && e.final
    ensures Completes(db, Record(task, "o", e, 0), LinkToolResult(db, task, "o", e))
  {}

  /** The parent's tool result, and the child's citation of it. */
  lemma BothCite(s: seq<Db>, o: seq<Op>) returns (states: seq<Db>, ops: seq<Op>)
    requires Run(s, o) && |o| == 3 && Holds(s[3], {"a"})
    ensures Run(states, ops) && |ops| == 5 && Holds(states[5], {"a", "tool-x"})
    ensures Dep(TaskDep, "c", "o", "tool-x", 0) in states[5].deps
  {
    var s4 := RecordSample(s[3], {"a"}, PARENT, "tool-x");
    assert {"a"} + {"tool-x"} == {"a", "tool-x"};
    states, ops := Extend(s, o, Record(PARENT, "o", Sample("tool-x"), 0), s4);
    var s5 := BindSample(s4, {"a", "tool-x"}, CHILD, "tool-x");
    states, ops := Extend(states, ops, Bind(CHILD, "o", [Ref("tool-x", 0)]), s5);
  }

  lemma OneSample() returns (states: seq<Db>, ops: seq<Op>)
    ensures Run(states, ops) && |ops| == 1 && Holds(states[1], {"a"}) && states[1].tasks == map[]
    ensures states[1].deps == {} && states[1].memories == map[] && states[1].notes == map[]
  {
    states, ops := [EMPTY], [];
    IngestSample(EMPTY, {}, "a");
    var s1 := IngestSpec(EMPTY, "o", Sample("a"), 0).value;
    states, ops := Extend(states, ops, Ingest("o", Sample("a"), 0), s1);
  }

  lemma TwoTasks() returns (states: seq<Db>, ops: seq<Op>)
    ensures Run(states, ops) && |ops| == 3 && Holds(states[3], {"a"})
  {
    states, ops := OneSample();
    var s2 := CreateSample(states[1], {"a"}, "p", None);
    states, ops := Extend(states, ops, CreateTask("p", "o", "goal", [Ref("a", 0)], None), s2);
    states, ops := SecondTask(states, ops);
  }

  lemma SecondTask(s: seq<Db>, o: seq<Op>) returns (states: seq<Db>, ops: seq<Op>)
    requires Run(s, o) && |o| == 2 && Holds(s[2], {"a"}) && forall d :: d in s[2].deps ==> d.subject != "c"
    ensures Run(states, ops) && |ops| == 3 && Holds(states[3], {"a"})
  {
    var s3 := CreateSample(s[2], {"a"}, "c", Some(PARENT));
    states, ops := Extend(s, o, CreateTask("c", "o", "goal", [Ref("a", 0)], Some(PARENT)), s3);
  }

  lemma CitesConsequence(s5: Db, s6: Db, y: Event)
    requires Dep(TaskDep, "c", "o", "tool-x", 0) in s5.deps && y.id == "tool-y" && y.revision == 0
    requires Live(s6.evidence, Key("o", "tool-y"))
    requires s6.deps == LinkToolResult(s5, CHILD, "o", y).deps
    ensures CitesOwnConsequence(s6, PARENT, "o", Sample("tool-x"))
  {
    assert Ref("tool-x", 0) in RefsOf(s5.deps, TaskDep, "c") by {
      assert Dep(TaskDep, "c", "o", "tool-x", 0) in s5.deps;
    }
    assert Dep(DerivedDep, "tool-y", "o", "tool-x", 0) in s6.deps;
    assert Edge(s6, Key("o", "tool-x"), Key("o", "tool-y"));
    ReachStep(s6, Key("o", "tool-x"), Key("o", "tool-y"), Key("o", "tool-y"));
    assert [y.AsRef()][0] == Ref("tool-y", 0);
    assert Dep(TaskDep, "p", "o", "tool-y", 0) in s6.deps;
    assert Ref("tool-y", 0) in RefsOf(s6.deps, TaskDep, "p");
  }

  // ---- A run that leaves a task with a stale citation ----

  const EARLY := Sample("tool-x").(revision := 1)

  lemma IngestEarly(db: Db) returns (after: Db)
    requires Holds(db, {"a"})
    ensures IngestSpec(db, "o", EARLY, 0) == Some(after) && after.tasks == db.tasks && after.deps == db.deps
    ensures Latest(after.evidence, Key("o", "tool-x")) == Some(EARLY)
    ensures Latest(after.evidence, Key("o", "a")) == Some(Sample("a"))
  {
    FirstRevision(db, "o", EARLY, 0);
    after := IngestSpec(db, "o", EARLY, 0).value;
  }

  lemma EarlyResult() returns (states: seq<Db>, ops: seq<Op>)
    ensures Run(states, ops) && |ops| == 2 && states[2].tasks == map[] && states[2].deps == {}
    ensures Latest(states[2].evidence, Key("o", "tool-x")) == Some(EARLY)
    ensures Latest(states[2].evidence, Key("o", "a")) == Some(Sample("a"))
    ensures StepKeeps(states, ops, 0) && StepKeeps(states, ops, 1)
  {
    states, ops := OneSample();
    var s1 := states[1];
    var s2 := IngestEarly(s1);
    states, ops := Extend(states, ops, Ingest("o", EARLY, 0), s2);
  }

  /** A client stores an event under the id of a tool result to come, at another revision: the task that records
      the result then cites a revision that never was. */
  lemma StaleCitationIsReachable() returns (states: seq<Db>, ops: seq<Op>)
    ensures Run(states, ops) && |ops| == 4 && Breaks(states[3], ops[3])
    ensures Safe(states[3]) && !Safe(states[4])
  {
    states, ops := EarlyResult();
    StaysSafe(states, ops, 2);
    var s2, create := states[2], CreateTask("p", "o", "goal", [Ref("a", 0)], None);
    var s3 := CreatesParent(s2);
    states, ops := Extend(states, ops, create, s3);
    var record := Record(PARENT, "o", Sample("tool-x"), 0);
    RecordsStale(s3);
    var s4 := LinkToolResult(s3, PARENT, "o", Sample("tool-x"));
    StepSafe(s3, record, s4);
    states, ops := Extend(states, ops, record, s4);
  }

  lemma CreatesParent(db: Db) returns (after: Db)
    requires Safe(db) && db.tasks == map[] && db.deps == {}
    requires Latest(db.evidence, Key("o", "a")) == Some(Sample("a"))
    ensures Completes(db, CreateTask("p", "o", "goal", [Ref("a", 0)], None), after) && Safe(after)
    ensures after.evidence == db.evidence && "p" in after.tasks && after.tasks["p"].status.Active()
  {
    var create := CreateTask("p", "o", "goal", [Ref("a", 0)], None);
    assert Valid(db.evidence, "o", [Ref("a", 0)]);
    after := CreateTaskSpec(db, "p", "o", "goal", [Ref("a", 0)], None).value;
    StepSafe(db, create, after);
  }

  lemma RecordsStale(db: Db)
    requires Latest(db.evidence, Key("o", "tool-x")) == Some(EARLY)
    requires "p" in db.tasks && db.tasks["p"].status.Active()
    ensures Breaks(db, Record(PARENT, "o", Sample("tool-x"), 0))
    ensures Completes(db, Record(PARENT, "o", Sample("tool-x"), 0), LinkToolResult(db, PARENT, "o", Sample("tool-x")))
  {}

  // ---- Two runs cut short by a crash ----

  lemma OneSafeSample() returns (states: seq<Db>, ops: seq<Op>)
    ensures Run(states, ops) && |ops| == 1 && Safe(states[1])
    ensures Holds(states[1], {"a"}) && states[1].deps == {} && states[1].memories == map[] && states[1].notes == map[]
  {
    states, ops := OneSample();
    assert StepKeeps(states, ops, 0);
    StaysSafe(states, ops, 1);
  }

  /** A memory is written and forgotten, and the process dies before the last statement: its document stays. */
  lemma DocumentIsLeft() returns (states: seq<Db>, ops: seq<Op>)
    ensures Run(states, ops) && |ops| == 3 && ops[2] == CutForget("o", "m") && Breaks(states[2], ops[2])
    ensures Safe(states[2]) && !Safe(states[3])
    ensures MemoryDoc("o", "m", "text") in states[3].memoryDocs
    ensures "m" in states[3].memories && !states[3].memories["m"].active
  {
    states, ops := MemoryWritten();
    var s3 := ForgetsShort(states[2]);
    states, ops := Extend(states, ops, CutForget("o", "m"), s3);
  }

  lemma MemoryWritten() returns (states: seq<Db>, ops: seq<Op>)
    ensures Run(states, ops) && |ops| == 2 && Safe(states[2]) && Recallable(states[2], "o", "m")
    ensures MemoryDoc("o", "m", "text") in states[2].memoryDocs
  {
    states, ops := OneSafeSample();
    var s2 := Remembered(states[1]);
    states, ops := Extend(states, ops, Remember("o", "k", "text", [Ref("a", 0)], "m"), s2);
  }

  lemma ForgetsShort(db: Db) returns (after: Db)
    requires Safe(db) && Recallable(db, "o", "m") && MemoryDoc("o", "m", "text") in db.memoryDocs
    ensures after == CutForgetSpec(db, "o", "m") && !Safe(after) && Breaks(db, CutForget("o", "m"))
    ensures MemoryDoc("o", "m", "text") in after.memoryDocs && "m" in after.memories && !after.memories["m"].active
  {
    after := CutForgetSpec(db, "o", "m");
    CutForgetBreaks(db, "o", "m");
  }

  lemma Remembered(db: Db) returns (after: Db)
    requires Safe(db) && Holds(db, {"a"}) && db.memories == map[]
    ensures Remembers(db, "o", "k", "text", [Ref("a", 0)], "m", after) && Safe(after) && Recallable(after, "o", "m")
    ensures after.memories["m"].text == "text" && MemoryDoc("o", "m", "text") in after.memoryDocs
  {
    assert Valid(db.evidence, "o", [Ref("a", 0)]);
    after := RememberOver(db, None, "o", "k", "text", [Ref("a", 0)], "m");
    RememberSafe(db, "o", "k", "text", [Ref("a", 0)], "m", after);
  }

  /** A notification is written, and the process dies before its dependency is: deleting what it cites leaves it
      pending. */
  lemma NotificationOutlives() returns (states: seq<Db>, ops: seq<Op>)
    ensures Run(states, ops) && |ops| == 3 && Breaks(states[1], ops[1]) && ops[2] == Delete(Key("o", "a"))
    ensures ops[1] == CutNotify("n", "p", "o", "text", [Ref("a", 0)], 0)
    ensures "n" in states[3].notes && states[3].notes["n"].state.Pending? && states[3].notes["n"].refs == [Ref("a", 0)]
    ensures !Current(states[3].evidence, "o", Ref("a", 0))
  {
    states, ops := Notified();
    OutlivesDeletion(states[1], states[2]);
    states, ops := Extend(states, ops, Delete(Key("o", "a")), DeleteSpec(states[2], Key("o", "a")));
  }

  lemma Notified() returns (states: seq<Db>, ops: seq<Op>)
    ensures Run(states, ops) && |ops| == 2 && ops[1] == CutNotify("n", "p", "o", "text", [Ref("a", 0)], 0)
    ensures Breaks(states[1], ops[1]) && Valid(states[1].evidence, "o", [Ref("a", 0)])
    ensures states[1].notes == map[] && states[1].deps == {}
    ensures CutNotifySpec(states[1], "n", "p", "o", "text", [Ref("a", 0)], 0) == Some(states[2])
  {
    states, ops := OneSafeSample();
    var s2 := NotifiesShort(states[1]);
    states, ops := Extend(states, ops, CutNotify("n", "p", "o", "text", [Ref("a", 0)], 0), s2);
  }

  lemma NotifiesShort(db: Db) returns (after: Db)
    requires Holds(db, {"a"}) && db.deps == {} && db.notes == map[]
    ensures Valid(db.evidence, "o", [Ref("a", 0)])
    ensures CutNotifySpec(db, "n", "p", "o", "text", [Ref("a", 0)], 0) == Some(after)
    ensures Breaks(db, CutNotify("n", "p", "o", "text", [Ref("a", 0)], 0))
  {
    var refs := [Ref("a", 0)];
    assert Valid(db.evidence, "o", refs);
    assert refs[0] in refs && Upto(refs, 0) == [];
    after := CutNotifySpec(db, "n", "p", "o", "text", refs, 0).value;
  }

  lemma OutlivesDeletion(s1: Db, s2: Db)
    requires Valid(s1.evidence, "o", [Ref("a", 0)]) && s1.notes == map[] && s1.deps == {}
    requires s2 == CutNotifySpec(s1, "n", "p", "o", "text", [Ref("a", 0)], 0).value
    ensures var after := DeleteSpec(s2, Key("o", "a"));
            && "n" in after.notes && after.notes["n"].state.Pending? && after.notes["n"].refs == [Ref("a", 0)]
            && !Current(after.evidence, "o", Ref("a", 0))
  {
    var refs := [Ref("a", 0)];
    assert refs[0] == Ref("a", 0);
    UnrecordedOutlives(s1, "n", "p", "o", "text", refs, Ref("a", 0));
    assert s2.deps == {};
    assert forall kind, id :: !Tainted(s2, Key("o", "a"), kind, id);
    var dead := Below(s2, Key("o", "a")) + {Key("o", "a")};
    assert TargetsOf(s2.deps, dead) == {};
  }
}
