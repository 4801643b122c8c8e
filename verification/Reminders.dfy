/** Reminders and the tasks they wake: firing groups, cancelling one of a group, and settling finished wakes.
    A firing can stop part way, in a crash or because the event that wakes a group is refused for its length. */
module Reminders {
  import C = Cascade

  datatype Phase = Pending | Queued | Delivered | Resolved | Expired | Cancelled | Failed
  {
    predicate Closed() { !Pending? && !Queued? }
  }

  datatype Wake = Wake(reminder: string, task: string)

  /** What settling looks at: a task's status, whether its result was rejected, and whether it notified. */
  datatype Info = Info(status: C.Status, rejected: bool, notified: bool)

  /** `wakes` keeps every wake a reminder ever had, in order; `up` while a process runs. */
  datatype State = State(reminders: map<string, Phase>, wakes: seq<Wake>, tasks: map<string, Info>, up: bool)

  /** Reminders of one owner and person that become due together, the task made for them, and the length of the
      event that wakes it: the list of the reminders, and the encounter that called for them. */
  datatype Group = Group(task: string, members: seq<string>, size: nat)

  /** The longest text of an event; a longer one is refused, and the firing ends with an error. */
  const MAX_TEXT := 30000

  /** A crash comes after some groups of a firing, or with none; a restart recovers the tasks, then fires what is
      due, before anything else can happen. */
  datatype Op =
    | Create(id: string)
    | Expire(ids: set<string>)
    | Fire(expired: set<string>, groups: seq<Group>)
    | Cancel(id: string)
    | Invalidate(id: string)
    | SetTask(task: string, info: Info)
    | Reconcile
    | Prune(task: string)
    | Crash(fired: seq<Group>)
    | Restart(recovered: map<string, C.Status>, overdue: set<string>, due: seq<Group>)

  const DOWN := State(map[], [], map[], false)

  predicate ActiveTask(s: State, t: string) {
    t in s.tasks && s.tasks[t].status.Active()
  }

  // ---- Settling ----

  function Outcome(info: Info): Phase {
    if info.rejected then Failed
    else if info.notified then Delivered
    else if info.status.Completed? || info.status.Abstained? then Resolved
    else if info.status.Cancelled? then Cancelled
    else Failed
  }

  predicate IsOver(s: State, w: Wake) {
    w.reminder in s.reminders && s.reminders[w.reminder].Queued? && w.task in s.tasks && !ActiveTask(s, w.task)
  }

  /** The rows of the query: queued reminders joined with every wake they had whose task is over. */
  function Finished(s: State, wakes: seq<Wake>): seq<Wake> {
    if wakes == [] then []
    else
      var w := wakes[|wakes| - 1];
      Finished(s, wakes[..|wakes| - 1]) +
      if IsOver(s, w) then [w] else []
  }

  function Settle(s: State, rows: seq<Wake>): State {
    if rows == [] then s
    else
      var before, w := Settle(s, rows[..|rows| - 1]), rows[|rows| - 1];
      if w.task in s.tasks
      then before.(reminders := before.reminders[w.reminder := Outcome(s.tasks[w.task])])
      else before
  }

  function ReconcileSpec(s: State): State {
    Settle(s, Finished(s, s.wakes))
  }

  // ---- Firing and cancelling ----

  function WakesFor(members: seq<string>, task: string): seq<Wake> {
    seq(|members|, i requires 0 <= i < |members| => Wake(members[i], task))
  }

  function SetPhases(reminders: map<string, Phase>, ids: set<string>, from: Phase, to: Phase): map<string, Phase> {
    map r | r in reminders :: if r in ids && reminders[r] == from then to else reminders[r]
  }

  function Members(g: Group): set<string> {
    set m | m in g.members
  }

  predicate MayFire(s: State, g: Group) {
    && g.task !in s.tasks
    && (forall i, j :: 0 <= i < j < |g.members| ==> g.members[i] != g.members[j])
    && forall m :: m in g.members ==> m in s.reminders && s.reminders[m].Pending?
  }

  function FireGroup(s: State, g: Group): State {
    s.(tasks := s.tasks[g.task := Info(C.Queued, false, false)],
       wakes := s.wakes + WakesFor(g.members, g.task),
       reminders := SetPhases(s.reminders, Members(g), Pending, Queued))
  }

  function FireGroups(s: State, groups: seq<Group>): State {
    if groups == [] then s
    else
      var before, g := FireGroups(s, groups[..|groups| - 1]), groups[|groups| - 1];
      if MayFire(before, g) then FireGroup(before, g) else before
  }

  predicate Fits(g: Group) {
    g.size <= MAX_TEXT
  }

  /** The groups before the first whose event is too long. */
  function Fitting(groups: seq<Group>): (front: seq<Group>)
    ensures front <= groups && (forall i :: 0 <= i < |front| ==> Fits(front[i]))
    ensures |front| < |groups| ==> !Fits(groups[|front|])
  {
    if groups == [] || !Fits(groups[0]) then [] else [groups[0]] + Fitting(groups[1..])
  }

  function ExpireSpec(s: State, ids: set<string>): State {
    s.(reminders := SetPhases(s.reminders, ids, Pending, Expired))
  }

  /** Expire, fire group by group, and settle unless a group's event was refused. */
  function FireSpec(s: State, expired: set<string>, groups: seq<Group>): State {
    var fired := FireGroups(ExpireSpec(s, expired), Fitting(groups));
    if Fitting(groups) == groups then ReconcileSpec(fired) else fired
  }

  /** Recovery ends overdue and interrupted tasks and queues the others again. */
  function Recover(s: State, statuses: map<string, C.Status>): State {
    s.(tasks := map t | t in s.tasks ::
                  if t in statuses && ActiveTask(s, t) then s.tasks[t].(status := statuses[t]) else s.tasks[t])
  }

  function WokenBy(wakes: seq<Wake>, task: string): set<string> {
    set w | w in wakes && w.task == task :: w.reminder
  }

  /** Cancel the task of one wake and send back to pending the reminders it was to deliver. */
  function CancelWake(s: State, w: Wake): State {
    var tasks := if ActiveTask(s, w.task) then s.tasks[w.task := s.tasks[w.task].(status := C.Cancelled)] else s.tasks;
    s.(tasks := tasks, reminders := SetPhases(s.reminders, WokenBy(s.wakes, w.task), Queued, Pending))
  }

  function CancelWakes(s: State, wakes: seq<Wake>, id: string): State {
    if wakes == [] then s
    else
      var before, w := CancelWakes(s, wakes[..|wakes| - 1], id), wakes[|wakes| - 1];
      if w.reminder == id then CancelWake(before, w) else before
  }

  function CancelSpec(s: State, id: string): State {
    if id !in s.reminders then s
    else
      var after := CancelWakes(s, s.wakes, id);
      after.(reminders := after.reminders[id := Cancelled])
  }

  function Without(wakes: seq<Wake>, task: string): seq<Wake> {
    if wakes == [] then []
    else Without(wakes[..|wakes| - 1], task) + if wakes[|wakes| - 1].task == task then [] else [wakes[|wakes| - 1]]
  }

  function Step(s: State, op: Op): State {
    if op.Restart? then
      if s.up then s else FireSpec(Recover(s, op.recovered), op.overdue, op.due).(up := true)
    else if !s.up then s
    else RunningStep(s, op)
  }

  function RunningStep(s: State, op: Op): State
    requires !op.Restart?
  {
    match op
    case Create(id) => if id in s.reminders then s else s.(reminders := s.reminders[id := Pending])
    case Expire(ids) => ExpireSpec(s, ids)
    case Fire(expired, groups) => FireSpec(s, expired, groups)
    case Cancel(id) => CancelSpec(s, id)
    case Invalidate(id) => if id in s.reminders then s.(reminders := s.reminders[id := Cancelled]) else s
    case SetTask(t, info) =>
      if t in s.tasks && (ActiveTask(s, t) || !info.status.Active()) then s.(tasks := s.tasks[t := info]) else s
    case Reconcile => ReconcileSpec(s)
    case Prune(t) =>
      if t in s.tasks && !ActiveTask(s, t) then s.(tasks := s.tasks - {t}, wakes := Without(s.wakes, t)) else s
    case Crash(fired) => FireGroups(s, fired).(up := false)
  }

  // ---- What holds throughout ----

  predicate IsWake(s: State, i: int, r: string) {
    0 <= i < |s.wakes| && s.wakes[i].reminder == r
  }

  predicate ActiveWake(s: State, i: int, r: string) {
    IsWake(s, i, r) && ActiveTask(s, s.wakes[i].task)
  }

  ghost predicate Sound(s: State) {
    && (forall i :: 0 <= i < |s.wakes| ==> s.wakes[i].reminder in s.reminders && s.wakes[i].task in s.tasks)
    && (forall i, j, r :: ActiveWake(s, i, r) && ActiveWake(s, j, r) ==> i == j)
    && (forall i, r :: r in s.reminders && s.reminders[r].Pending? && IsWake(s, i, r) ==> !ActiveWake(s, i, r))
    && (forall i, j, r :: r in s.reminders && s.reminders[r].Queued? && IsWake(s, i, r) && IsWake(s, j, r) ==> i == j)
  }

  /** Until a firing is settled, a queued reminder may also have older wakes, whose tasks are over. */
  ghost predicate Firing(s: State) {
    && (forall i :: 0 <= i < |s.wakes| ==> s.wakes[i].reminder in s.reminders && s.wakes[i].task in s.tasks)
    && (forall i, j, r :: ActiveWake(s, i, r) && ActiveWake(s, j, r) ==> i == j)
    && (forall i, r :: r in s.reminders && s.reminders[r].Pending? && IsWake(s, i, r) ==> !ActiveWake(s, i, r))
    && (forall i, j, r :: r in s.reminders && s.reminders[r].Queued? && IsWake(s, i, r) && IsWake(s, j, r) && i < j ==>
      !ActiveWake(s, i, r))
  }

  lemma FireGroupKeeps(s: State, g: Group)
    requires Firing(s) && MayFire(s, g)
    ensures Firing(FireGroup(s, g))
  {
    var after, n := FireGroup(s, g), |s.wakes|;
    forall i | 0 <= i < |after.wakes|
      ensures after.wakes[i].reminder in after.reminders && after.wakes[i].task in after.tasks
      ensures ActiveTask(after, after.wakes[i].task) <==> i >= n || ActiveTask(s, after.wakes[i].task)
    {
      if i >= n { assert after.wakes[i] == Wake(g.members[i - n], g.task); } else {
        assert after.wakes[i] == s.wakes[i];
      }
    }
    forall i, r | IsWake(after, i, r) && i >= n ensures r in g.members && s.reminders[r].Pending? {
      assert after.wakes[i] == Wake(g.members[i - n], g.task);
    }
    forall i, r | IsWake(after, i, r) && i < n
      ensures IsWake(s, i, r) && (ActiveWake(after, i, r) <==> ActiveWake(s, i, r))
    {
      assert after.wakes[i] == s.wakes[i];
    }
    forall i, j, r | ActiveWake(after, i, r) && ActiveWake(after, j, r) ensures i == j {
      if i >= n && j >= n { assert g.members[i - n] == g.members[j - n]; }
    }
    forall i, j, r | r in after.reminders && after.reminders[r].Queued? && IsWake(after, i, r) && IsWake(after, j, r)
      && i < j
      ensures !ActiveWake(after, i, r)
    {}
  }

  lemma {:induction false} FireGroupsKeep(s: State, groups: seq<Group>)
    requires Firing(s)
    ensures Firing(FireGroups(s, groups))
  {
    if groups != [] {
      FireGroupsKeep(s, groups[..|groups| - 1]);
      var before := FireGroups(s, groups[..|groups| - 1]);
      if MayFire(before, groups[|groups| - 1]) { FireGroupKeeps(before, groups[|groups| - 1]); }
    }
  }

  predicate InRows(rows: seq<Wake>, r: string) {
    exists k :: 0 <= k < |rows| && rows[k].reminder == r
  }

  /** The last of the rows for a reminder decides. */
  predicate Decides(rows: seq<Wake>, k: int, r: string) {
    && 0 <= k < |rows| && rows[k].reminder == r
    && forall j :: k < j < |rows| ==> rows[j].reminder != r
  }

  lemma NotInFront(front: seq<Wake>, w: Wake, r: string)
    requires !InRows(front + [w], r)
    ensures !InRows(front, r) && w.reminder != r
  {
    assert (front + [w])[|front|] == w;
    assert forall k :: 0 <= k < |front| ==> (front + [w])[k] == front[k];
  }

  lemma {:induction false} SettleIs(s: State, rows: seq<Wake>)
    requires forall k :: 0 <= k < |rows| ==> rows[k].reminder in s.reminders && rows[k].task in s.tasks
    ensures var after := Settle(s, rows);
            && after.wakes == s.wakes && after.tasks == s.tasks && after.up == s.up
            && after.reminders.Keys == s.reminders.Keys
            && (forall r :: r in s.reminders && !InRows(rows, r) ==> after.reminders[r] == s.reminders[r])
            && forall k, r :: Decides(rows, k, r) ==> after.reminders[r] == Outcome(s.tasks[rows[k].task])
  {
    if rows != [] {
      var front, w := rows[..|rows| - 1], rows[|rows| - 1];
      SettleIs(s, front);
      assert rows == front + [w];
      forall r | r in s.reminders && !InRows(rows, r) ensures !InRows(front, r) && w.reminder != r {
        NotInFront(front, w, r);
      }
      forall k, r | Decides(rows, k, r) ensures k == |front| || (Decides(front, k, r) && w.reminder != r) {
        if k < |front| { assert rows[|front|].reminder != r; }
      }
    }
  }

  lemma {:induction false} FinishedIs(s: State, wakes: seq<Wake>)
    ensures forall w :: w in Finished(s, wakes) <==> w in wakes && IsOver(s, w)
  {
    if wakes != [] {
      FinishedIs(s, wakes[..|wakes| - 1]);
      assert wakes == wakes[..|wakes| - 1] + [wakes[|wakes| - 1]];
    }
  }

  /** The rows for a reminder end with its last wake that is over. */
  lemma {:induction false} FinishedEndsWith(s: State, wakes: seq<Wake>, i: nat) returns (k: nat)
    requires i < |wakes| && IsOver(s, wakes[i])
    requires forall j :: i < j < |wakes| && wakes[j].reminder == wakes[i].reminder ==> !IsOver(s, wakes[j])
    ensures Decides(Finished(s, wakes), k, wakes[i].reminder) && Finished(s, wakes)[k] == wakes[i]
  {
    var front := wakes[..|wakes| - 1];
    if i < |front| {
      k := FinishedEndsWith(s, front, i);
    } else {
      k := |Finished(s, front)|;
    }
  }

  predicate OverWake(s: State, i: int, r: string) {
    IsWake(s, i, r) && !ActiveWake(s, i, r)
  }

  /** The last wake of the reminder whose task is over. */
  predicate LastOver(s: State, i: int, r: string) {
    OverWake(s, i, r) && forall j :: i < j < |s.wakes| ==> !OverWake(s, j, r)
  }

  ghost predicate Closes(s: State, r: string) {
    r in s.reminders && s.reminders[r].Queued? && exists i :: OverWake(s, i, r)
  }

  predicate Linked(s: State) {
    forall i :: 0 <= i < |s.wakes| ==> s.wakes[i].reminder in s.reminders && s.wakes[i].task in s.tasks
  }

  /** Settling closes exactly the queued reminders that have a wake, however old, whose task is over, each as the
      task of the last such wake ended. */
  lemma ReconcileIs(s: State)
    requires Linked(s)
    ensures var after := ReconcileSpec(s);
            && after.wakes == s.wakes && after.tasks == s.tasks && after.up == s.up
            && after.reminders.Keys == s.reminders.Keys
            && (forall r :: r in s.reminders && !Closes(s, r) ==> after.reminders[r] == s.reminders[r])
            && (forall r :: Closes(s, r) ==> after.reminders[r].Closed() && exists i :: LastOver(s, i, r))
            && (forall r, i :: Closes(s, r) && LastOver(s, i, r) ==>
                  after.reminders[r] == Outcome(s.tasks[s.wakes[i].task]))
  {
    var rows := Finished(s, s.wakes);
    FinishedRows(s, rows);
    SettleIs(s, rows);
    forall r | Closes(s, r) ensures ReconcileSpec(s).reminders[r].Closed() && exists i :: LastOver(s, i, r) {
      var i :| OverWake(s, i, r);
      var l := FindLastOver(s, i, r);
      var k := LastDecides(s, l, r);
    }
    forall r, i | Closes(s, r) && LastOver(s, i, r)
      ensures ReconcileSpec(s).reminders[r] == Outcome(s.tasks[s.wakes[i].task])
    {
      var k := LastDecides(s, i, r);
    }
  }

  lemma FinishedRows(s: State, rows: seq<Wake>)
    requires Linked(s) && rows == Finished(s, s.wakes)
    ensures forall k :: 0 <= k < |rows| ==> rows[k].reminder in s.reminders && rows[k].task in s.tasks
    ensures forall r :: InRows(rows, r) ==> Closes(s, r)
  {
    FinishedIs(s, s.wakes);
    forall k | 0 <= k < |rows| ensures rows[k] in s.wakes && IsOver(s, rows[k]) { assert rows[k] in rows; }
    forall r | InRows(rows, r) ensures Closes(s, r) {
      var k :| 0 <= k < |rows| && rows[k].reminder == r;
      var i :| 0 <= i < |s.wakes| && s.wakes[i] == rows[k];
      assert OverWake(s, i, r);
    }
  }

  lemma LastDecides(s: State, i: int, r: string) returns (k: nat)
    requires Linked(s) && Closes(s, r) && LastOver(s, i, r)
    ensures Decides(Finished(s, s.wakes), k, r) && Finished(s, s.wakes)[k] == s.wakes[i]
  {
    forall j | i < j < |s.wakes| && s.wakes[j].reminder == r ensures !IsOver(s, s.wakes[j]) {
      assert !OverWake(s, j, r);
    }
    k := FinishedEndsWith(s, s.wakes, i);
  }

  lemma {:induction false} FindLastOver(s: State, i: int, r: string) returns (l: int)
    requires OverWake(s, i, r)
    ensures LastOver(s, l, r)
    decreases |s.wakes| - i
  {
    if j :| i < j < |s.wakes| && OverWake(s, j, r) {
      l := FindLastOver(s, j, r);
    } else {
      l := i;
    }
  }

  lemma SameWakes(s: State, after: State)
    requires after.wakes == s.wakes && after.tasks == s.tasks
    ensures forall i, r :: IsWake(after, i, r) <==> IsWake(s, i, r)
    ensures forall i, r :: ActiveWake(after, i, r) <==> ActiveWake(s, i, r)
  {
  }

  /** After settling, a reminder that is still queued has one wake, ever, and its task is active. */
  lemma ReconcileRestores(s: State)
    requires Firing(s)
    ensures Sound(ReconcileSpec(s))
  {
    ReconcileIs(s);
    var after := ReconcileSpec(s);
    SameWakes(s, after);
    forall i, j, r | r in after.reminders && after.reminders[r].Queued? && IsWake(after, i, r) && IsWake(after, j, r)
      ensures i == j
    {
      assert !Closes(s, r) && s.reminders[r].Queued?;
      assert !OverWake(s, i, r) && !OverWake(s, j, r);
    }
  }

  // ---- A cancellation in one step ----

  predicate Shares(wakes: seq<Wake>, r: string, tasks: set<string>) {
    exists i :: 0 <= i < |wakes| && wakes[i].reminder == r && wakes[i].task in tasks
  }

  function WakeTasks(wakes: seq<Wake>, id: string): set<string> {
    set w | w in wakes && w.reminder == id :: w.task
  }

  function CancelTasks(s: State, tasks: set<string>): State {
    s.(tasks := map t | t in s.tasks ::
                  if t in tasks && ActiveTask(s, t) then s.tasks[t].(status := C.Cancelled) else s.tasks[t],
       reminders := map r | r in s.reminders ::
                      if s.reminders[r].Queued? && Shares(s.wakes, r, tasks) then Pending else s.reminders[r])
  }

  lemma {:induction false} CancelWakesIs(s: State, wakes: seq<Wake>, id: string)
    ensures CancelWakes(s, wakes, id) == CancelTasks(s, WakeTasks(wakes, id))
  {
    if wakes == [] {
      assert CancelTasks(s, {}).tasks == s.tasks && CancelTasks(s, {}).reminders == s.reminders;
    } else {
      var front, w := wakes[..|wakes| - 1], wakes[|wakes| - 1];
      CancelWakesIs(s, front, id);
      assert wakes == front + [w];
      if w.reminder == id {
        assert WakeTasks(wakes, id) == WakeTasks(front, id) + {w.task};
        CancelOneMore(s, WakeTasks(front, id), w);
      } else {
        assert WakeTasks(wakes, id) == WakeTasks(front, id);
      }
    }
  }

  lemma CancelOneMore(s: State, tasks: set<string>, w: Wake)
    ensures CancelWake(CancelTasks(s, tasks), w) == CancelTasks(s, tasks + {w.task})
  {
    CancelOneMoreTask(s, tasks, w);
    SharesOneMore(s.wakes, tasks, w.task);
    assert CancelWake(CancelTasks(s, tasks), w).reminders == CancelTasks(s, tasks + {w.task}).reminders;
  }

  lemma CancelOneMoreTask(s: State, tasks: set<string>, w: Wake)
    ensures CancelWake(CancelTasks(s, tasks), w).tasks == CancelTasks(s, tasks + {w.task}).tasks
  {
  }

  lemma SharesOneMore(wakes: seq<Wake>, tasks: set<string>, t: string)
    ensures forall r :: Shares(wakes, r, tasks + {t}) <==> Shares(wakes, r, tasks) || r in WokenBy(wakes, t)
  {
    forall r ensures Shares(wakes, r, tasks + {t}) <==> Shares(wakes, r, tasks) || r in WokenBy(wakes, t) {
      if Shares(wakes, r, tasks + {t}) {
        var i :| 0 <= i < |wakes| && wakes[i].reminder == r && wakes[i].task in tasks + {t};
        assert wakes[i] in wakes;
      }
      if r in WokenBy(wakes, t) {
        var v :| v in wakes && v.task == t && v.reminder == r;
        var i :| 0 <= i < |wakes| && wakes[i] == v;
      }
    }
  }

  predicate Harms(s: State, id: string, r: string, i: int) {
    && r != id && r in s.reminders && s.reminders[r].Queued? && Shares(s.wakes, r, WakeTasks(s.wakes, id))
    && ActiveWake(s, i, r) && s.wakes[i].task !in WakeTasks(s.wakes, id)
  }

  /** Another reminder that shared a wake with this one has meanwhile been woken again, without it. */
  ghost predicate Harmful(s: State, id: string) {
    exists r, i :: Harms(s, id, r, i)
  }

  lemma CancelIs(s: State, id: string)
    requires id in s.reminders
    ensures var after, tasks := CancelSpec(s, id), WakeTasks(s.wakes, id);
            && after.wakes == s.wakes && after.tasks == CancelTasks(s, tasks).tasks && after.up == s.up
            && after.reminders == CancelTasks(s, tasks).reminders[id := Cancelled]
  {
    CancelWakesIs(s, s.wakes, id);
  }

  lemma CancelledWakes(s: State, id: string)
    requires id in s.reminders && Linked(s)
    ensures forall i, r :: IsWake(CancelSpec(s, id), i, r) <==> IsWake(s, i, r)
    ensures forall i, r :: ActiveWake(CancelSpec(s, id), i, r) <==>
              ActiveWake(s, i, r) && s.wakes[i].task !in WakeTasks(s.wakes, id)
  {
    CancelIs(s, id);
    var after, tasks := CancelSpec(s, id), WakeTasks(s.wakes, id);
    forall i, r ensures IsWake(after, i, r) <==> IsWake(s, i, r) {}
    forall i, r ensures ActiveWake(after, i, r) <==> ActiveWake(s, i, r) && s.wakes[i].task !in tasks {}
  }

  /** A cancellation leaves every pending reminder without an active wake, and none with two, exactly when it is
      not harmful. */
  lemma CancelKeepsExactly(s: State, id: string)
    requires Firing(s)
    ensures Firing(CancelSpec(s, id)) <==> id !in s.reminders || !Harmful(s, id)
  {
    if id in s.reminders {
      CancelIs(s, id);
      CancelledWakes(s, id);
      var after := CancelSpec(s, id);
      if r, i :| Harms(s, id, r, i) {
        assert IsWake(after, i, r) && ActiveWake(after, i, r) && after.reminders[r].Pending?;
      }
      if !Harmful(s, id) {
        HarmlessCancelKeeps(s, id);
      }
    }
  }

  lemma HarmlessCancelKeeps(s: State, id: string)
    requires Firing(s) && id in s.reminders && !Harmful(s, id)
    ensures Firing(CancelSpec(s, id))
  {
    CancelIs(s, id);
    CancelledWakes(s, id);
    var after := CancelSpec(s, id);
    forall i, r | r in after.reminders && after.reminders[r].Pending? && IsWake(after, i, r)
      ensures !ActiveWake(after, i, r)
    {
      assert !Harms(s, id, r, i);
    }
    forall i, j, r | r in after.reminders && after.reminders[r].Queued? && IsWake(after, i, r) && IsWake(after, j, r)
      && i < j
      ensures !ActiveWake(after, i, r)
    {
      assert s.reminders[r].Queued? && IsWake(s, i, r) && IsWake(s, j, r);
    }
  }

  /** In a settled state no cancellation is harmful, and the state stays settled. */
  lemma SettledCancelKeeps(s: State, id: string)
    requires Sound(s) && id in s.reminders
    ensures !Harmful(s, id) && Sound(CancelSpec(s, id))
  {
    forall r, i ensures !Harms(s, id, r, i) {
      if Harms(s, id, r, i) {
        var j :| 0 <= j < |s.wakes| && s.wakes[j].reminder == r && s.wakes[j].task in WakeTasks(s.wakes, id);
        assert IsWake(s, i, r) && IsWake(s, j, r);
      }
    }
    assert Firing(s);
    HarmlessCancelKeeps(s, id);
    CancelIs(s, id);
    CancelledWakes(s, id);
    var after := CancelSpec(s, id);
    forall i, j, r | r in after.reminders && after.reminders[r].Queued? && IsWake(after, i, r) && IsWake(after, j, r)
      ensures i == j
    {
      assert s.reminders[r].Queued? && IsWake(s, i, r) && IsWake(s, j, r);
    }
  }

  // ---- The other steps ----

  ghost predicate Keeps(s: State, after: State) {
    (Firing(s) ==> Firing(after)) && (Sound(s) ==> Sound(after))
  }

  /** Steps that make no task active and send no reminder back. */
  ghost predicate Quiet(s: State, after: State) {
    && after.wakes == s.wakes && s.reminders.Keys <= after.reminders.Keys && s.tasks.Keys == after.tasks.Keys
    && (forall t :: ActiveTask(after, t) ==> ActiveTask(s, t))
    && (forall r :: r in s.reminders ==> after.reminders[r] == s.reminders[r] || after.reminders[r].Closed())
    && forall r :: r in after.reminders && r !in s.reminders ==> after.reminders[r].Pending?
  }

  lemma QuietKeeps(s: State, after: State)
    requires Quiet(s, after)
    ensures Keeps(s, after)
  {
    forall i, r
      ensures (IsWake(after, i, r) <==> IsWake(s, i, r)) && (ActiveWake(after, i, r) ==> ActiveWake(s, i, r))
    {}
  }

  lemma {:induction false} WithoutIs(wakes: seq<Wake>, task: string, i: nat, j: nat) returns (x: nat, y: nat)
    requires i <= j < |Without(wakes, task)|
    ensures x <= y < |wakes| && wakes[x] == Without(wakes, task)[i] && wakes[y] == Without(wakes, task)[j]
    ensures wakes[x].task != task && wakes[y].task != task && (i < j <==> x < y)
    decreases |wakes|
  {
    var front := wakes[..|wakes| - 1];
    var before := Without(front, task);
    if j < |before| {
      x, y := WithoutIs(front, task, i, j);
    } else {
      y := |wakes| - 1;
      if i == j {
        x := y;
      } else {
        var _, z := WithoutIs(front, task, i, i);
        x := z;
      }
    }
  }

  lemma PruneKeeps(s: State, t: string)
    requires s.up && t in s.tasks && !ActiveTask(s, t)
    ensures Keeps(s, Step(s, Prune(t)))
  {
    var after := Step(s, Prune(t));
    if Firing(s) {
      forall i | 0 <= i < |after.wakes|
        ensures after.wakes[i].reminder in after.reminders && after.wakes[i].task in after.tasks
      {
        var x, y := WithoutIs(s.wakes, t, i, i);
      }
      forall i, r | IsWake(after, i, r) && r in after.reminders && after.reminders[r].Pending?
        ensures !ActiveWake(after, i, r)
      {
        var x, y := WithoutIs(s.wakes, t, i, i);
        assert IsWake(s, x, r) && !ActiveWake(s, x, r);
      }
      forall i, j, r | IsWake(after, i, r) && IsWake(after, j, r) && i < j
        ensures !(ActiveWake(after, i, r) && ActiveWake(after, j, r))
        ensures r in after.reminders && after.reminders[r].Queued? ==> !ActiveWake(after, i, r) && !Sound(s)
      {
        var x, y := WithoutIs(s.wakes, t, i, j);
        assert IsWake(s, x, r) && IsWake(s, y, r);
        assert !(ActiveWake(s, x, r) && ActiveWake(s, y, r));
      }
    }
  }

  lemma FiringKeeps(s: State, expired: set<string>, groups: seq<Group>)
    requires Firing(s)
    ensures Firing(FireSpec(s, expired, groups))
    ensures Fitting(groups) == groups ==> Sound(FireSpec(s, expired, groups))
  {
    var e := ExpireSpec(s, expired);
    QuietKeeps(s, e);
    FireGroupsKeep(e, Fitting(groups));
    if Fitting(groups) == groups {
      ReconcileRestores(FireGroups(e, groups));
    }
  }

  predicate AllFit(groups: seq<Group>) {
    forall i :: 0 <= i < |groups| ==> Fits(groups[i])
  }

  lemma AllFitting(groups: seq<Group>)
    requires AllFit(groups)
    ensures Fitting(groups) == groups
  {
  }

  lemma MarkKeeps(s: State, up: bool)
    ensures Keeps(s, s.(up := up))
  {
    SameWakes(s, s.(up := up));
  }

  lemma RestartKeeps(s: State, op: Op)
    requires Firing(s) && op.Restart? && !s.up
    ensures Firing(Step(s, op))
    ensures AllFit(op.due) ==> Sound(Step(s, op))
  {
    var r := Recover(s, op.recovered);
    QuietKeeps(s, r);
    FiringKeeps(r, op.overdue, op.due);
    if AllFit(op.due) { AllFitting(op.due); }
    MarkKeeps(FireSpec(r, op.overdue, op.due), true);
  }

  predicate IsHarmless(op: Op) {
    !op.Fire? && !op.Cancel? && !op.Crash? && !op.Restart?
  }

  lemma QuietStepKeeps(s: State, op: Op)
    requires s.up && IsHarmless(op)
    requires Firing(s)
    ensures Keeps(s, Step(s, op))
  {
    match op
    case Reconcile => ReconcileRestores(s);
    case Prune(t) => if t in s.tasks && !ActiveTask(s, t) { PruneKeeps(s, t); }
    case _ => SimpleKeeps(s, op);
  }

  lemma SimpleKeeps(s: State, op: Op)
    requires s.up && (op.Create? || op.Expire? || op.Invalidate? || op.SetTask?)
    ensures Keeps(s, Step(s, op))
  {
    QuietKeeps(s, Step(s, op));
  }

  ghost predicate HarmfulOp(s: State, op: Op) {
    s.up && op.Cancel? && op.id in s.reminders && Harmful(s, op.id)
  }

  /** Every step keeps what is to hold between firing and settling, but exactly a harmful cancellation. */
  lemma StepKeepsExactly(s: State, op: Op)
    requires Firing(s)
    ensures Firing(Step(s, op)) <==> !HarmfulOp(s, op)
  {
    if op.Restart? {
      if !s.up { RestartKeeps(s, op); }
    } else if s.up {
      match op
      case Fire(expired, groups) => FiringKeeps(s, expired, groups);
      case Cancel(id) => CancelKeepsExactly(s, id);
      case Crash(fired) =>
        FireGroupsKeep(s, fired);
        MarkKeeps(FireGroups(s, fired), false);
      case _ => QuietStepKeeps(s, op);
    }
  }

  /** No firing has a group whose event is too long. */
  predicate FitsOp(op: Op) {
    (op.Fire? ==> AllFit(op.groups)) && (op.Restart? ==> AllFit(op.due))
  }

  /** While a process runs its reminders are settled; a restart settles what a crash left. */
  lemma FittingStepSettles(s: State, op: Op)
    requires Firing(s) && (s.up ==> Sound(s)) && FitsOp(op)
    ensures !HarmfulOp(s, op)
    ensures Firing(Step(s, op)) && (Step(s, op).up ==> Sound(Step(s, op)))
  {
    if s.up && op.Cancel? && op.id in s.reminders { SettledCancelKeeps(s, op.id); }
    StepKeepsExactly(s, op);
    if op.Restart? {
      if !s.up { RestartKeeps(s, op); }
    } else if s.up {
      match op
      case Fire(expired, groups) => AllFitting(groups); FiringKeeps(s, expired, groups);
      case Cancel(id) =>
      case Crash(_) =>
      case _ => QuietStepKeeps(s, op);
    }
  }

  ghost predicate Run(states: seq<State>, ops: seq<Op>) {
    |states| == |ops| + 1 && states[0] == DOWN
    && forall i :: 0 <= i < |ops| ==> states[i + 1] == Step(states[i], ops[i])
  }

  ghost predicate OneActiveWake(s: State) {
    && (forall i, j, r :: ActiveWake(s, i, r) && ActiveWake(s, j, r) ==> i == j)
    && (forall i, r :: r in s.reminders && s.reminders[r].Pending? ==> !ActiveWake(s, i, r))
  }

  /** Over every run, with crashes anywhere in a firing and restarts, in which every event that wakes a group is
      accepted: no reminder ever has two active wake tasks, and a pending one has none. */
  lemma {:induction false} NeverTwoActiveWakes(states: seq<State>, ops: seq<Op>, n: nat)
    requires Run(states, ops) && n < |states|
    requires forall i :: 0 <= i < n ==> FitsOp(ops[i])
    ensures Firing(states[n]) && OneActiveWake(states[n]) && (states[n].up ==> Sound(states[n]))
  {
    if n > 0 {
      NeverTwoActiveWakes(states, ops, n - 1);
      FittingStepSettles(states[n - 1], ops[n - 1]);
    }
  }

  /** Whatever events are refused: every state of a run is as wanted if and only if no cancellation in it was
      harmful, and until the first that was, no reminder has two active wakes and a pending one has none. */
  lemma {:induction false} FailsExactlyAtHarmfulCancel(states: seq<State>, ops: seq<Op>, n: nat)
    requires Run(states, ops) && n < |states|
    ensures (forall k :: 0 <= k <= n ==> Firing(states[k])) <==>
              forall i :: 0 <= i < n ==> !HarmfulOp(states[i], ops[i])
    ensures (forall i :: 0 <= i < n ==> !HarmfulOp(states[i], ops[i])) ==> OneActiveWake(states[n])
  {
    if n > 0 {
      FailsExactlyAtHarmfulCancel(states, ops, n - 1);
      if Firing(states[n - 1]) {
        StepKeepsExactly(states[n - 1], ops[n - 1]);
        assert states[n] == Step(states[n - 1], ops[n - 1]);
      }
    }
  }

  // ---- A reminder that was sent back fires in vain ----

  ghost predicate HadWake(s: State, r: string) {
    exists i :: IsWake(s, i, r)
  }

  /** A pending reminder that fires stays queued exactly when it never had a wake: one that was sent back to pending,
      because a sibling of its group was cancelled, is closed at once by its old wake, with its new task active. */
  lemma SentBackReminderIsClosed(s: State, g: Group, r: string)
    requires s.up && Sound(s) && MayFire(s, g) && Fits(g) && r in g.members
    ensures var after := Step(s, Fire({}, [g]));
            && r in after.reminders && (after.reminders[r].Queued? <==> !HadWake(s, r))
            && (HadWake(s, r) ==> after.reminders[r].Closed())
            && exists i :: ActiveWake(after, i, r)
  {
    OneGroup(s, g);
    FireGroupKeeps(s, g);
    ReconcileIs(FireGroup(s, g));
    SameWakes(FireGroup(s, g), ReconcileSpec(FireGroup(s, g)));
    var i := NewWake(s, g, r);
    assert ActiveWake(ReconcileSpec(FireGroup(s, g)), i, r);
    OldWakes(s, g, r);
  }

  lemma OneGroup(s: State, g: Group)
    requires MayFire(s, g)
    ensures FireGroups(ExpireSpec(s, {}), [g]) == FireGroup(s, g)
    ensures Fits(g) ==> Fitting([g]) == [g]
  {
    assert ExpireSpec(s, {}).reminders == s.reminders;
    assert [g][..0] == [];
    if Fits(g) { AllFitting([g]); }
  }

  lemma NewWake(s: State, g: Group, r: string) returns (i: nat)
    requires r in g.members
    ensures ActiveWake(FireGroup(s, g), i, r)
  {
    var k :| 0 <= k < |g.members| && g.members[k] == r;
    i := |s.wakes| + k;
    assert FireGroup(s, g).wakes[i] == Wake(r, g.task);
  }

  /** After firing, the wakes of a member that are over are those it had before. */
  lemma OldWakes(s: State, g: Group, r: string)
    requires Sound(s) && MayFire(s, g) && r in g.members
    ensures FireGroup(s, g).reminders[r].Queued?
    ensures (exists i :: OverWake(FireGroup(s, g), i, r)) <==> HadWake(s, r)
  {
    var mid, n := FireGroup(s, g), |s.wakes|;
    if i :| IsWake(s, i, r) {
      assert mid.wakes[i] == s.wakes[i];
      assert !ActiveWake(s, i, r);
      assert OverWake(mid, i, r);
    }
    forall k | n <= k < |mid.wakes| ensures ActiveTask(mid, mid.wakes[k].task) {
      assert mid.wakes[k] == Wake(g.members[k - n], g.task);
    }
    if i :| OverWake(mid, i, r) {
      assert IsWake(s, i, r);
    }
  }

  // ---- Both failures happen ----

  const TA := Wake("a", "t")
  const TB := Wake("b", "t")
  const UB := Wake("b", "u")
  const QUEUED := Info(C.Queued, false, false)
  const CANCELLED := Info(C.Cancelled, false, false)

  /** Two reminders fire together; one of them is cancelled, and the other sent back. */
  const OPENING: seq<Op> :=
    [Restart(map[], {}, []), Create("a"), Create("b"), Fire({}, [Group("t", ["a", "b"], 500)]), Cancel("a")]

  const CREATED := State(map["a" := Pending, "b" := Pending], [], map[], true)
  const WOKEN := State(map["a" := Queued, "b" := Queued], [TA, TB], map["t" := QUEUED], true)
  const SENT_BACK := State(map["a" := Cancelled, "b" := Pending], [TA, TB], map["t" := CANCELLED], true)

  /** The first firing of all: nothing had a wake. */
  lemma FirstFiring(s: State, g: Group, woken: State)
    requires s.wakes == [] && MayFire(s, g) && Fits(g) && woken == FireGroup(s, g)
    ensures FireSpec(s, {}, [g]) == woken
  {
    OneGroup(s, g);
    AllActive(s, g);
    FinishedNone(woken, woken.wakes);
  }

  lemma AllActive(s: State, g: Group)
    requires s.wakes == []
    ensures forall w :: w in FireGroup(s, g).wakes ==> !IsOver(FireGroup(s, g), w)
  {
  }

  lemma {:induction false} FinishedNone(s: State, wakes: seq<Wake>)
    requires forall w :: w in wakes ==> !IsOver(s, w)
    ensures Finished(s, wakes) == []
  {
    if wakes == [] {
    } else {
      FinishedNone(s, wakes[..|wakes| - 1]);
    }
  }

  lemma OpeningFires(s: State, g: Group, woken: State)
    requires s == CREATED && g == Group("t", ["a", "b"], 500) && woken == WOKEN
    ensures FireSpec(s, {}, [g]) == woken
  {
    assert MayFire(s, g);
    assert Members(g) == {"a", "b"} && WakesFor(g.members, g.task) == [TA, TB];
    assert FireGroup(s, g).reminders == woken.reminders;
    FirstFiring(s, g, woken);
  }

  lemma SharedWakes(wakes: seq<Wake>)
    requires wakes == [TA, TB]
    ensures WakeTasks(wakes, "a") == {"t"} && Shares(wakes, "b", {"t"})
  {
    assert wakes[0] == TA && wakes[1] == TB && TA in wakes;
  }

  lemma OpeningCancels(s: State, after: State)
    requires s == WOKEN && after == SENT_BACK
    ensures CancelSpec(s, "a") == after
  {
    CancelIs(s, "a");
    SharedWakes(s.wakes);
    TaskCancelled(s);
    SentBack(s);
  }

  lemma TaskCancelled(s: State)
    requires s.tasks == map["t" := QUEUED]
    ensures CancelTasks(s, {"t"}).tasks == map["t" := CANCELLED]
  {
  }

  lemma SentBack(s: State)
    requires s.reminders == WOKEN.reminders && s.wakes == [TA, TB]
    ensures CancelTasks(s, {"t"}).reminders["a" := Cancelled] == SENT_BACK.reminders
  {
    SharedWakes(s.wakes);
    assert s.reminders.Keys == {"a", "b"};
  }

  lemma FirstStart(s: State)
    requires s == DOWN
    ensures Step(s, Restart(map[], {}, [])) == s.(up := true)
  {
    assert Recover(s, map[]).tasks == s.tasks;
    assert ExpireSpec(s, {}).reminders == s.reminders;
    assert Finished(s, []) == [];
  }

  lemma Creates(s: State, id: string)
    requires s.up && id !in s.reminders
    ensures Step(s, Create(id)) == s.(reminders := s.reminders[id := Pending])
  {
  }

  lemma TwoCreated() returns (states: seq<State>, ops: seq<Op>)
    ensures Run(states, ops) && ops == OPENING[..3] && states[3] == CREATED
  {
    states, ops := [DOWN], [];
    FirstStart(states[0]);
    states := Extend(states, ops, Restart(map[], {}, []));
    ops := ops + [Restart(map[], {}, [])];
    Creates(states[1], "a");
    states := Extend(states, ops, Create("a"));
    ops := ops + [Create("a")];
    Creates(states[2], "b");
    states := Extend(states, ops, Create("b"));
    ops := ops + [Create("b")];
  }

  lemma TwoFired() returns (states: seq<State>, ops: seq<Op>)
    ensures Run(states, ops) && ops == OPENING[..4] && states[4] == WOKEN
  {
    states, ops := TwoCreated();
    var g := Group("t", ["a", "b"], 500);
    OpeningFires(states[3], g, WOKEN);
    states := Extend(states, ops, Fire({}, [g]));
    ops := ops + [Fire({}, [g])];
  }

  lemma OpeningRuns() returns (states: seq<State>, ops: seq<Op>)
    ensures Run(states, ops) && ops == OPENING && states[5] == SENT_BACK
  {
    states, ops := TwoFired();
    OpeningCancels(states[4], SENT_BACK);
    states := Extend(states, ops, Cancel("a"));
    ops := ops + [Cancel("a")];
  }

  lemma Extend(states: seq<State>, ops: seq<Op>, op: Op) returns (more: seq<State>)
    requires Run(states, ops)
    ensures more == states + [Step(states[|ops|], op)] && Run(more, ops + [op])
  {
    more := states + [Step(states[|ops|], op)];
  }

  /** The reminder sent back is still open when it fires again, and is closed by that very step while the new task
      that is to deliver it runs. */
  lemma SentBackReminderRun() returns (states: seq<State>, ops: seq<Op>)
    ensures Run(states, ops) && |ops| == 6 && ops[..5] == OPENING && ops[5] == Fire({}, [Group("u", ["b"], 300)])
    ensures "b" in states[5].reminders && states[5].reminders["b"].Pending?
    ensures "b" in states[6].reminders && states[6].reminders["b"].Closed()
    ensures exists i :: ActiveWake(states[6], i, "b")
  {
    states, ops := OpeningRuns();
    var g := Group("u", ["b"], 300);
    NeverTwoActiveWakes(states, ops, 5);
    assert IsWake(states[5], 1, "b");
    SentBackReminderIsClosed(states[5], g, "b");
    states := Extend(states, ops, Fire({}, [g]));
    ops := ops + [Fire({}, [g])];
  }

  /** Ids of further reminders, all different. */
  function Further(i: nat): string {
    seq(i + 2, j => 'c')
  }

  function FurtherIds(n: nat): seq<string> {
    seq(n, i requires 0 <= i < n => Further(i))
  }

  /** What the opening leaves, with any reminders more. */
  ghost predicate LikeSentBack(s: State) {
    && s.up && s.wakes == [TA, TB] && s.tasks == map["t" := CANCELLED]
    && "a" in s.reminders && s.reminders["a"] == Cancelled && "b" in s.reminders && s.reminders["b"] == Pending
  }

  lemma {:induction false} FurtherCreated(n: nat) returns (states: seq<State>, ops: seq<Op>)
    ensures Run(states, ops) && |ops| == 5 + n && ops[..5] == OPENING
    ensures forall i :: 0 <= i < n ==> ops[5 + i] == Create(Further(i))
    ensures var s := states[5 + n];
            && LikeSentBack(s) && (forall i: nat :: i >= n ==> Further(i) !in s.reminders)
            && forall i :: 0 <= i < n ==> Further(i) in s.reminders && s.reminders[Further(i)].Pending?
  {
    if n == 0 {
      states, ops := OpeningRuns();
      assert |"a"| == 1 && |"b"| == 1;
      forall i: nat ensures Further(i) !in SENT_BACK.reminders { assert |Further(i)| == i + 2; }
    } else {
      states, ops := FurtherCreated(n - 1);
      var s, id := states[4 + n], Further(n - 1);
      Creates(s, id);
      states := Extend(states, ops, Create(id));
      ops := ops + [Create(id)];
      assert |id| == n + 1 && |"a"| == 1 && |"b"| == 1;
      forall i: nat | i != n - 1 ensures Further(i) != id { assert |Further(i)| == i + 2; }
    }
  }

  lemma SecondFires(s: State, g: Group, h: Group) returns (after: State)
    requires LikeSentBack(s) && g == Group("u", ["b"], 500) && !Fits(h)
    ensures after == FireSpec(s, {}, [g, h]) && LikeRefired(after)
  {
    assert [g, h][1..] == [h] && Fitting([h]) == [];
    assert Fitting([g, h]) == [g];
    assert MayFire(s, g);
    OneGroup(s, g);
    after := FireGroup(s, g);
    assert Members(g) == {"b"} && WakesFor(g.members, g.task) == [UB];
    assert after.wakes == [TA, TB] + [UB];
  }

  ghost predicate LikeRefired(s: State) {
    && s.up && s.wakes == [TA, TB, UB] && s.tasks == map["t" := CANCELLED, "u" := QUEUED]
    && "a" in s.reminders && "b" in s.reminders && s.reminders["b"] == Queued
  }

  const MANY: nat := 16

  lemma MayFireAll(s: State, n: nat)
    requires LikeSentBack(s) && forall i :: 0 <= i < n ==> Further(i) in s.reminders && s.reminders[Further(i)].Pending?
    ensures MayFire(s, Group("v", FurtherIds(n), 33000))
  {
    var ids := FurtherIds(n);
    forall i, j | 0 <= i < j < n ensures ids[i] != ids[j] { assert |ids[i]| == i + 2 && |ids[j]| == j + 2; }
  }

  /** Two groups are due, and the event of the second, with sixteen reminders of two thousand characters, is too
      long: the first group has fired, nothing is settled, and cancelling the old sibling again leaves a pending
      reminder with an active wake. */
  lemma RefusedEventRun() returns (states: seq<State>, ops: seq<Op>)
    ensures Run(states, ops) && |ops| == 7 + MANY && ops[..5] == OPENING
    ensures forall i :: 0 <= i < MANY ==> ops[5 + i] == Create(Further(i))
    ensures ops[5 + MANY] == Fire({}, [Group("u", ["b"], 500), Group("v", FurtherIds(MANY), 33000)])
    ensures MayFire(states[5 + MANY], Group("v", FurtherIds(MANY), 33000))
    ensures ops[6 + MANY] == Cancel("a") && HarmfulOp(states[6 + MANY], ops[6 + MANY])
    ensures !OneActiveWake(states[7 + MANY])
  {
    states, ops := FurtherCreated(MANY);
    var g, h := Group("u", ["b"], 500), Group("v", FurtherIds(MANY), 33000);
    MayFireAll(states[5 + MANY], MANY);
    var fired := SecondFires(states[5 + MANY], g, h);
    states := Extend(states, ops, Fire({}, [g, h]));
    ops := ops + [Fire({}, [g, h])];
    RefiredHarms(fired, Cancel("a"));
    states := Extend(states, ops, Cancel("a"));
    ops := ops + [Cancel("a")];
  }

  lemma RefiredHarms(s: State, op: Op)
    requires LikeRefired(s) && op == Cancel("a")
    ensures HarmfulOp(s, op) && !OneActiveWake(Step(s, op))
  {
    assert s.wakes[0] == TA && s.wakes[1] == TB && s.wakes[2] == UB;
    assert TA in s.wakes;
    assert WakeTasks(s.wakes, "a") == {"t"};
    assert Shares(s.wakes, "b", {"t"});
    assert Harms(s, "a", "b", 2);
    CancelIs(s, "a");
    CancelledWakes(s, "a");
    assert ActiveWake(CancelSpec(s, "a"), 2, "b") && CancelSpec(s, "a").reminders["b"].Pending?;
  }

  // ---- A refused event holds up what comes after it ----

  predicate MayAllFire(s: State, groups: seq<Group>) {
    && (forall i :: 0 <= i < |groups| ==> MayFire(s, groups[i]))
    && forall i, j :: 0 <= i < j < |groups| ==>
         groups[i].task != groups[j].task && Members(groups[i]) !! Members(groups[j])
  }

  /** Untouched by the groups: those that fire later may still fire. */
  ghost predicate Untouched(s: State, groups: seq<Group>, after: State) {
    && after.reminders.Keys == s.reminders.Keys
    && forall r :: r in s.reminders && (forall i :: 0 <= i < |groups| ==> r !in groups[i].members) ==>
         after.reminders[r] == s.reminders[r]
  }

  ghost predicate HasTask(groups: seq<Group>, t: string) {
    exists i :: 0 <= i < |groups| && groups[i].task == t
  }

  lemma {:induction false} FireGroupsIs(s: State, groups: seq<Group>)
    requires MayAllFire(s, groups)
    ensures forall t :: t in FireGroups(s, groups).tasks <==> t in s.tasks || HasTask(groups, t)
    ensures Untouched(s, groups, FireGroups(s, groups))
  {
    if groups == [] {
    } else {
      var front, g := groups[..|groups| - 1], groups[|groups| - 1];
      MayFrontFire(s, groups);
      FireGroupsIs(s, front);
      LastMayFire(s, groups, FireGroups(s, front));
      LastTask(front, g, groups);
      assert FireGroups(s, groups) == FireGroup(FireGroups(s, front), g);
    }
  }

  lemma MayFrontFire(s: State, groups: seq<Group>)
    requires MayAllFire(s, groups) && groups != []
    ensures MayAllFire(s, groups[..|groups| - 1])
  {
  }

  lemma LastTask(front: seq<Group>, g: Group, groups: seq<Group>)
    requires groups == front + [g]
    ensures forall t :: HasTask(groups, t) <==> HasTask(front, t) || g.task == t
  {
    assert groups[|front|] == g;
    assert forall i :: 0 <= i < |front| ==> groups[i] == front[i];
  }

  lemma LastMayFire(s: State, groups: seq<Group>, before: State)
    requires MayAllFire(s, groups) && groups != []
    requires Untouched(s, groups[..|groups| - 1], before)
    requires forall t :: t in before.tasks <==> t in s.tasks || HasTask(groups[..|groups| - 1], t)
    ensures MayFire(before, groups[|groups| - 1])
    ensures Untouched(s, groups, FireGroup(before, groups[|groups| - 1]))
  {
    var front, g := groups[..|groups| - 1], groups[|groups| - 1];
    forall m | m in g.members ensures m in before.reminders && before.reminders[m].Pending? {
      forall i | 0 <= i < |front| ensures m !in front[i].members {
        assert Members(groups[i]) !! Members(g) && m in Members(g);
      }
    }
    var after := FireGroup(before, g);
    forall r | r in s.reminders && forall i :: 0 <= i < |groups| ==> r !in groups[i].members
      ensures after.reminders[r] == s.reminders[r]
    {
      assert forall i :: 0 <= i < |front| ==> front[i] == groups[i];
      assert r !in g.members;
    }
  }

  /** Of the groups of a firing, one gets its task exactly if neither its own event nor one before it is too long. */
  lemma FiringStopsAtRefusal(s: State, groups: seq<Group>, k: nat)
    requires MayAllFire(s, groups) && k < |groups|
    ensures groups[k].task in FireSpec(s, {}, groups).tasks <==> forall i :: 0 <= i <= k ==> Fits(groups[i])
  {
    assert ExpireSpec(s, {}).reminders == s.reminders;
    var front := Fitting(groups);
    FireGroupsIs(s, front);
    if front == groups {
      SettleKeepsTasks(FireGroups(s, front), Finished(FireGroups(s, front), FireGroups(s, front).wakes));
    }
    if k < |front| {
      assert front[k] == groups[k] && HasTask(front, groups[k].task);
    } else {
      assert !Fits(groups[|front|]);
    }
  }

  lemma {:induction false} SettleKeepsTasks(s: State, rows: seq<Wake>)
    ensures Settle(s, rows).tasks == s.tasks
  {
    if rows != [] { SettleKeepsTasks(s, rows[..|rows| - 1]); }
  }

  // ---- The loops over wakes and groups ----

  class Table {
    var s: State

    constructor ()
      ensures s == DOWN.(up := true)
    {
      s := State(map[], [], map[], true);
    }

    method SettleFinished()
      modifies this
      ensures s == ReconcileSpec(old(s))
    {
      var rows := Finished(s, s.wakes);
      for i := 0 to |rows|
        invariant s == Settle(old(s), rows[..i]) && s.tasks == old(s).tasks
      {
        assert rows[..i + 1][..i] == rows[..i];
        if rows[i].task in s.tasks {
          s := s.(reminders := s.reminders[rows[i].reminder := Outcome(s.tasks[rows[i].task])]);
        }
      }
      assert rows[..|rows|] == rows;
    }

    /** Expire and fire what is due; a group whose event is too long ends the firing before reminders are settled. */
    method FireDue(expired: set<string>, groups: seq<Group>) returns (settled: bool)
      modifies this
      ensures s == FireSpec(old(s), expired, groups)
      ensures settled <==> AllFit(groups)
      ensures settled && Firing(old(s)) ==> Sound(s)
    {
      s := s.(reminders := SetPhases(s.reminders, expired, Pending, Expired));
      for i := 0 to |groups|
        invariant s == FireGroups(ExpireSpec(old(s), expired), groups[..i])
        invariant forall j :: 0 <= j < i ==> Fits(groups[j])
      {
        assert groups[..i + 1][..i] == groups[..i];
        var g := groups[i];
        if g.size > MAX_TEXT {
          assert |Fitting(groups)| == i && Fitting(groups) == groups[..i];
          return false;
        }
        if MayFire(s, g) {
          var pending := s.reminders;
          s := s.(tasks := s.tasks[g.task := Info(C.Queued, false, false)]);
          s := s.(wakes := s.wakes + WakesFor(g.members, g.task));
          s := s.(reminders := SetPhases(pending, Members(g), Pending, Queued));
        }
      }
      assert groups[..|groups|] == groups;
      AllFitting(groups);
      SettleFinished();
      if Firing(old(s)) { FiringKeeps(old(s), expired, groups); }
      return true;
    }

    method CancelReminder(id: string) returns (found: bool)
      modifies this
      ensures found <==> id in old(s).reminders
      ensures s == CancelSpec(old(s), id)
    {
      if id !in s.reminders {
        return false;
      }
      var wakes := s.wakes;
      for i := 0 to |wakes|
        invariant s == CancelWakes(old(s), wakes[..i], id)
      {
        assert wakes[..i + 1][..i] == wakes[..i];
        if wakes[i].reminder == id {
          var t := wakes[i].task;
          if ActiveTask(s, t) {
            s := s.(tasks := s.tasks[t := s.tasks[t].(status := C.Cancelled)]);
          }
          s := s.(reminders := SetPhases(s.reminders, WokenBy(s.wakes, t), Queued, Pending));
        }
      }
      assert wakes[..|wakes|] == wakes;
      s := s.(reminders := s.reminders[id := Cancelled]);
      return true;
    }
  }
}
