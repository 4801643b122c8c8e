/** Waiting parents and the completion messages that wake them.  The message and the wake-up are two statements, and
    a crash can fall between them. */
module Family {
  import opened Evidence
  import opened Cascade

  datatype Node = Node(parent: Option<string>, status: Status)

  /** Task rows, and the children whose completion message has been recorded. */
  datatype State = State(tasks: map<string, Node>, recorded: set<string>)

  datatype Step =
    | Create(id: string, parent: Option<string>)
    | Move(id: string, status: Status)
    | Wait(id: string)
    | Pass(window: seq<string>, upto: nat)
    | Cut(child: string)

  predicate ChildOf(s: State, c: string, p: string) {
    c in s.tasks && s.tasks[c].parent == Some(p)
  }

  predicate ActiveChild(s: State, c: string, p: string) {
    ChildOf(s, c, p) && s.tasks[c].status.Active()
  }

  /** A finished child whose completion nobody has told the parent yet. */
  predicate Untold(s: State, c: string, p: string) {
    ChildOf(s, c, p) && !s.tasks[c].status.Active() && c !in s.recorded
  }

  predicate Waiting(s: State, p: string) {
    p in s.tasks && s.tasks[p].status.Waiting?
  }

  function SetStatus(s: State, id: string, status: Status): State
    requires id in s.tasks
  {
    s.(tasks := s.tasks[id := s.tasks[id].(status := status)])
  }

  /** Record a message under the child's key; only a new one wakes the parent. */
  function Tell(s: State, c: string, p: string): State
    requires p in s.tasks
  {
    if c in s.recorded then s
    else
      var told := s.(recorded := s.recorded + {c});
      if s.tasks[p].status.Waiting? then SetStatus(told, p, Queued) else told
  }

  /** What a delivery pass does for one task of its list. */
  function Deliver(s: State, c: string): State {
    if c in s.tasks && s.tasks[c].parent.Some? && !s.tasks[c].status.Active()
       && s.tasks[c].parent.value in s.tasks && s.tasks[s.tasks[c].parent.value].status.Active()
    then Tell(s, c, s.tasks[c].parent.value)
    else s
  }

  function DeliverAll(s: State, window: seq<string>): State {
    if window == [] then s else Deliver(DeliverAll(s, window[..|window| - 1]), window[|window| - 1])
  }

  function After(s: State, step: Step): State {
    match step
    case Create(id, parent) => if id in s.tasks then s else s.(tasks := s.tasks[id := Node(parent, Queued)])
    case Move(id, status) =>
      if id in s.tasks && s.tasks[id].status.Active() && !status.Waiting? then SetStatus(s, id, status) else s
    case Wait(id) =>
      if id in s.tasks && s.tasks[id].status.Running? && exists c :: c in s.tasks && ActiveChild(s, c, id)
      then SetStatus(s, id, Status.Waiting) else s
    case Pass(window, upto) => DeliverAll(s, if upto <= |window| then window[..upto] else window)
    case Cut(c) => if Tells(s, c) then CutShort(s, c) else s
  }

  /** A pass would tell the parent of the task, for the first time. */
  predicate Tells(s: State, c: string) {
    c in s.tasks && s.tasks[c].parent.Some? && !s.tasks[c].status.Active() && c !in s.recorded
    && s.tasks[c].parent.value in s.tasks && s.tasks[s.tasks[c].parent.value].status.Active()
  }

  /** The process dies after recording the message of `c` and before waking its parent. */
  function CutShort(s: State, c: string): State {
    s.(recorded := s.recorded + {c})
  }

  /** The child is the last reason for its parent to wait. */
  ghost predicate LastReason(s: State, c: string, p: string) {
    Waiting(s, p) && Untold(s, c, p) && forall x :: x != c ==> !ActiveChild(s, x, p) && !Untold(s, x, p)
  }

  /** A crash between the two statements, on the last reason of a waiting parent. */
  ghost predicate LosesWakeUp(s: State, step: Step) {
    step.Cut? && Tells(s, step.child) && LastReason(s, step.child, s.tasks[step.child].parent.value)
  }

  /** A parent that waits has a child that is still active, or one whose completion is still to be told. */
  ghost predicate NoLostWakeUp(s: State) {
    && (forall p :: Waiting(s, p) ==> exists c :: ActiveChild(s, c, p) || Untold(s, c, p))
    && (forall c :: c in s.recorded ==> c in s.tasks && !s.tasks[c].status.Active())
  }

  lemma DeliverKeeps(s: State, c: string)
    requires NoLostWakeUp(s)
    ensures NoLostWakeUp(Deliver(s, c))
  {
    var after := Deliver(s, c);
    if after != s {
      var parent := s.tasks[c].parent.value;
      forall p | Waiting(after, p) ensures exists x :: ActiveChild(after, x, p) || Untold(after, x, p) {
        assert p != parent && Waiting(s, p);
        var x :| ActiveChild(s, x, p) || Untold(s, x, p);
        assert x != c;
        assert ActiveChild(after, x, p) || Untold(after, x, p);
      }
    }
  }

  lemma {:induction false} PassKeeps(s: State, window: seq<string>)
    requires NoLostWakeUp(s)
    ensures NoLostWakeUp(DeliverAll(s, window))
  {
    if window != [] {
      PassKeeps(s, window[..|window| - 1]);
      DeliverKeeps(DeliverAll(s, window[..|window| - 1]), window[|window| - 1]);
    }
  }

  /** A reason to wait outlives the move of any task. */
  lemma ReasonKept(s: State, id: string, status: Status, x: string, p: string)
    requires NoLostWakeUp(s) && id in s.tasks && s.tasks[id].status.Active()
    requires ActiveChild(s, x, p) || Untold(s, x, p)
    ensures ActiveChild(SetStatus(s, id, status), x, p) || Untold(SetStatus(s, id, status), x, p)
  {
    assert x == id ==> x !in s.recorded;
  }

  lemma MoveKeeps(s: State, id: string, status: Status)
    requires NoLostWakeUp(s) && id in s.tasks && s.tasks[id].status.Active()
    requires status.Waiting? ==> exists c :: ActiveChild(s, c, id)
    ensures NoLostWakeUp(SetStatus(s, id, status))
  {
    var after := SetStatus(s, id, status);
    forall p | Waiting(after, p) ensures exists x :: ActiveChild(after, x, p) || Untold(after, x, p) {
      if p == id {
        var x :| ActiveChild(s, x, id);
        ReasonKept(s, id, status, x, p);
      } else {
        assert Waiting(s, p);
        var x :| ActiveChild(s, x, p) || Untold(s, x, p);
        ReasonKept(s, id, status, x, p);
      }
    }
  }

  lemma StepKeeps(s: State, step: Step)
    requires NoLostWakeUp(s)
    ensures NoLostWakeUp(After(s, step)) <==> !LosesWakeUp(s, step)
  {
    match step
    case Create(id, parent) =>
      var after := After(s, step);
      forall p | Waiting(after, p) ensures exists x :: ActiveChild(after, x, p) || Untold(after, x, p) {
        assert Waiting(s, p);
        var x :| ActiveChild(s, x, p) || Untold(s, x, p);
        assert ActiveChild(after, x, p) || Untold(after, x, p);
      }
    case Move(id, status) =>
      if id in s.tasks && s.tasks[id].status.Active() && !status.Waiting? { MoveKeeps(s, id, status); }
    case Wait(id) =>
      if id in s.tasks && s.tasks[id].status.Running? && exists c :: c in s.tasks && ActiveChild(s, c, id) {
        MoveKeeps(s, id, Status.Waiting);
      }
    case Pass(window, upto) => PassKeeps(s, if upto <= |window| then window[..upto] else window);
    case Cut(c) => if Tells(s, c) { CutKeeps(s, c); }
  }

  /** The crash keeps a reason to wait for every waiting parent exactly when the child was not the last one. */
  lemma CutKeeps(s: State, c: string)
    requires NoLostWakeUp(s) && Tells(s, c)
    ensures NoLostWakeUp(CutShort(s, c)) <==> !LastReason(s, c, s.tasks[c].parent.value)
  {
    var after, parent := CutShort(s, c), s.tasks[c].parent.value;
    forall p | Waiting(after, p) && p != parent ensures exists x :: ActiveChild(after, x, p) || Untold(after, x, p) {
      assert Waiting(s, p);
      var x :| ActiveChild(s, x, p) || Untold(s, x, p);
      assert ActiveChild(after, x, p) || Untold(after, x, p);
    }
    if Waiting(s, parent) {
      assert Untold(s, c, parent);
      CrashLosesWakeUp(s, c, parent);
      assert Waiting(after, parent);
      if LastReason(s, c, parent) {
        assert !NoLostWakeUp(after);
      } else {
        var x :| x != c && (ActiveChild(s, x, parent) || Untold(s, x, parent));
        assert ActiveChild(after, x, parent) || Untold(after, x, parent);
      }
    }
  }

  ghost predicate Run(states: seq<State>, steps: seq<Step>) {
    |states| == |steps| + 1 && states[0] == State(map[], {})
    && forall i :: 0 <= i < |steps| ==> states[i + 1] == After(states[i], steps[i])
  }

  lemma {:induction false} StaysAwake(states: seq<State>, steps: seq<Step>, n: nat)
    requires Run(states, steps) && n < |states| && forall i :: 0 <= i < n ==> !LosesWakeUp(states[i], steps[i])
    ensures NoLostWakeUp(states[n])
  {
    if n > 0 {
      StaysAwake(states, steps, n - 1);
      StepKeeps(states[n - 1], steps[n - 1]);
    }
  }

  /** Over every interleaving of creation, completion, waiting, steering, cancellation and delivery, also of passes
      that stop part way or crash: every waiting parent has an active child or an untold one in every state, if and
      only if no crash fell between the message and the wake-up for the last reason of a waiting parent. */
  lemma NoWakeUpIsLost(states: seq<State>, steps: seq<Step>, n: nat)
    requires Run(states, steps) && n < |states|
    ensures (forall i :: 0 <= i <= n ==> NoLostWakeUp(states[i])) <==>
              forall i :: 0 <= i < n ==> !LosesWakeUp(states[i], steps[i])
  {
    if forall i :: 0 <= i < n ==> !LosesWakeUp(states[i], steps[i]) {
      forall i | 0 <= i <= n ensures NoLostWakeUp(states[i]) { StaysAwake(states, steps, i); }
    }
    if forall i :: 0 <= i <= n ==> NoLostWakeUp(states[i]) {
      forall i | 0 <= i < n ensures !LosesWakeUp(states[i], steps[i]) {
        assert NoLostWakeUp(states[i]) && NoLostWakeUp(states[i + 1]);
        StepKeeps(states[i], steps[i]);
      }
    }
  }

  // ---- What a pass achieves ----

  lemma {:induction false} PassFrame(s: State, window: seq<string>)
    ensures var after := DeliverAll(s, window);
            && after.tasks.Keys == s.tasks.Keys
            && forall t :: t in s.tasks ==>
                 (after.tasks[t].parent == s.tasks[t].parent
                   && after.tasks[t].status.Active() == s.tasks[t].status.Active())
    ensures s.recorded <= DeliverAll(s, window).recorded
    ensures forall c :: c in DeliverAll(s, window).recorded && c !in s.recorded ==> c in window
    ensures forall p :: Waiting(DeliverAll(s, window), p) ==> Waiting(s, p)
  {
    if window != [] {
      PassFrame(s, window[..|window| - 1]);
    }
  }

  /** A pass wakes a waiting parent exactly when its list holds a finished child the parent was not told of. */
  lemma {:induction false} PassWakesExactly(s: State, window: seq<string>, p: string)
    requires Waiting(s, p)
    ensures !Waiting(DeliverAll(s, window), p) <==> exists c :: c in window && Untold(s, c, p)
    ensures Waiting(DeliverAll(s, window), p) ==> forall c :: ChildOf(s, c, p) ==>
          (c in DeliverAll(s, window).recorded <==> c in s.recorded)
    ensures p in DeliverAll(s, window).tasks
    ensures !Waiting(DeliverAll(s, window), p) ==> DeliverAll(s, window).tasks[p].status.Queued?
  {
    if window != [] {
      var front, c := window[..|window| - 1], window[|window| - 1];
      PassWakesExactly(s, front, p);
      PassFrame(s, front);
      assert window == front + [c];
      if Waiting(DeliverAll(s, front), p) {
        assert !Waiting(DeliverAll(s, window), p) <==> Untold(s, c, p);
      }
    }
  }

  /** The pass finds the child in its list, finished, with a parent that is active. */
  predicate Reports(s: State, window: seq<string>, c: string) {
    && c in window && c in s.tasks && !s.tasks[c].status.Active()
    && s.tasks[c].parent.Some? && s.tasks[c].parent.value in s.tasks && s.tasks[s.tasks[c].parent.value].status.Active()
  }

  /** The list holds a finished child of the parent that it was not told of. */
  ghost predicate News(s: State, window: seq<string>, p: string) {
    exists c :: c in window && Untold(s, c, p)
  }

  ghost predicate TasksPassed(s: State, window: seq<string>, after: State) {
    && after.tasks.Keys == s.tasks.Keys
    && forall t :: t in s.tasks ==>
         after.tasks[t]
         == if Waiting(s, t) && News(s, window, t) then s.tasks[t].(status := Queued) else s.tasks[t]
  }

  ghost predicate MessagesPassed(s: State, window: seq<string>, after: State) {
    forall c :: c in after.recorded <==> c in s.recorded || Reports(s, window, c)
  }

  /** A pass records the message of every finished child in its list whose parent is active, whether or not that
      parent waits; it queues exactly the waiting parents with news; and it changes nothing else. */
  lemma {:induction false} PassIsExact(s: State, window: seq<string>)
    ensures MessagesPassed(s, window, DeliverAll(s, window)) && TasksPassed(s, window, DeliverAll(s, window))
  {
    if window != [] {
      var front, last := window[..|window| - 1], window[|window| - 1];
      PassIsExact(s, front);
      assert window == front + [last];
      MessagesOneMore(s, DeliverAll(s, front), front, last);
      TasksOneMore(s, DeliverAll(s, front), front, last);
    }
  }

  lemma MessagesOneMore(s: State, mid: State, front: seq<string>, last: string)
    requires MessagesPassed(s, front, mid) && TasksPassed(s, front, mid)
    ensures MessagesPassed(s, front + [last], Deliver(mid, last))
  {
    forall c ensures Reports(s, front + [last], c) <==> Reports(s, front, c) || (c == last && Reports(s, [last], c)) {}
    assert last in mid.tasks ==> mid.tasks[last].status.Active() == s.tasks[last].status.Active();
  }

  lemma NewsOneMore(s: State, front: seq<string>, last: string, p: string)
    ensures News(s, front + [last], p) <==> News(s, front, p) || Untold(s, last, p)
  {
    if Untold(s, last, p) { assert last in front + [last]; }
    if News(s, front, p) {
      var c :| c in front && Untold(s, c, p);
      assert c in front + [last];
    }
  }

  lemma TasksOneMore(s: State, mid: State, front: seq<string>, last: string)
    requires MessagesPassed(s, front, mid) && TasksPassed(s, front, mid)
    ensures TasksPassed(s, front + [last], Deliver(mid, last))
  {
    var after := Deliver(mid, last);
    forall t | t in s.tasks
      ensures after.tasks[t] == if Waiting(s, t) && News(s, front + [last], t)
                                then s.tasks[t].(status := Queued) else s.tasks[t]
    {
      NewsOneMore(s, front, last, t);
      if Waiting(s, t) && !News(s, front, t) {
        assert Waiting(mid, t);
        WakesNow(s, mid, front, last, t);
      }
    }
  }

  /** A parent that still waits is woken exactly by a child it was not told of. */
  lemma WakesNow(s: State, mid: State, front: seq<string>, last: string, p: string)
    requires MessagesPassed(s, front, mid) && TasksPassed(s, front, mid)
    requires Waiting(s, p) && Waiting(mid, p) && !News(s, front, p)
    ensures p in Deliver(mid, last).tasks
    ensures Deliver(mid, last).tasks[p]
            == if Untold(s, last, p) then mid.tasks[p].(status := Queued) else mid.tasks[p]
  {
    if Untold(s, last, p) {
      assert last !in mid.recorded by { assert Reports(s, front, last) ==> last in front; }
      assert !mid.tasks[last].status.Active();
    }
  }

  /** The list holds every task when there are at most a hundred: then a parent that still waits after a pass has
      an active child. */
  lemma FullPassLeavesActiveChild(s: State, window: seq<string>, p: string)
    requires NoLostWakeUp(s) && Waiting(s, p) && forall c :: c in s.tasks ==> c in window
    ensures Waiting(DeliverAll(s, window), p) ==> exists c :: ActiveChild(s, c, p)
    ensures p in DeliverAll(s, window).tasks
    ensures (forall c :: !ActiveChild(s, c, p)) ==> DeliverAll(s, window).tasks[p].status.Queued?
  {
    PassWakesExactly(s, window, p);
    var c :| ActiveChild(s, c, p) || Untold(s, c, p);
    assert c in window;
  }

  // ---- The message and the wake-up are two statements ----

  /** The crash loses the wake-up exactly when that child was the last reason to wait. */
  lemma CrashLosesWakeUp(s: State, c: string, p: string)
    requires NoLostWakeUp(s) && Waiting(s, p) && Untold(s, c, p)
    ensures (exists x :: ActiveChild(CutShort(s, c), x, p) || Untold(CutShort(s, c), x, p)) <==>
            (exists x :: x != c && (ActiveChild(s, x, p) || Untold(s, x, p)))
  {
    var after := CutShort(s, c);
    if x :| ActiveChild(after, x, p) || Untold(after, x, p) {
      assert x != c && (ActiveChild(s, x, p) || Untold(s, x, p));
    }
    if x :| x != c && (ActiveChild(s, x, p) || Untold(s, x, p)) {
      assert ActiveChild(after, x, p) || Untold(after, x, p);
    }
  }

  /** From then on no pass wakes the parent again. */
  lemma LostForGood(s: State, window: seq<string>, p: string)
    requires Waiting(s, p) && forall c :: !ActiveChild(s, c, p) && !Untold(s, c, p)
    ensures Waiting(DeliverAll(s, window), p)
    ensures forall c :: !ActiveChild(DeliverAll(s, window), c, p) && !Untold(DeliverAll(s, window), c, p)
  {
    PassWakesExactly(s, window, p);
    PassFrame(s, window);
    var after := DeliverAll(s, window);
    forall c ensures !ActiveChild(after, c, p) && !Untold(after, c, p) {
      assert !ActiveChild(s, c, p) && !Untold(s, c, p);
      assert ChildOf(after, c, p) <==> ChildOf(s, c, p);
    }
  }

  const WAITS := State(map["p" := Node(None, Status.Waiting), "c" := Node(Some("p"), Completed)], {})

  lemma Extend(states: seq<State>, steps: seq<Step>, step: Step) returns (more: seq<State>, then_: seq<Step>)
    requires Run(states, steps)
    ensures more == states + [After(states[|steps|], step)] && then_ == steps + [step] && Run(more, then_)
  {
    more, then_ := states + [After(states[|steps|], step)], steps + [step];
  }

  /** A parent waits, and its only child has finished. */
  lemma ChildFinishes() returns (states: seq<State>, steps: seq<Step>)
    ensures Run(states, steps) && |steps| == 5 && states[5] == WAITS
  {
    states, steps := [State(map[], {})], [];
    states, steps := Extend(states, steps, Create("p", None));
    states, steps := Extend(states, steps, Create("c", Some("p")));
    states, steps := Extend(states, steps, Move("p", Running));
    assert states[3].tasks == map["p" := Node(None, Running), "c" := Node(Some("p"), Queued)];
    assert ActiveChild(states[3], "c", "p");
    states, steps := Extend(states, steps, Wait("p"));
    states, steps := Extend(states, steps, Move("c", Completed));
    assert states[5].tasks == WAITS.tasks;
  }

  /** Then a crash falls between the two statements: no pass wakes the parent again. */
  lemma LostWakeUpExample() returns (states: seq<State>, steps: seq<Step>)
    ensures Run(states, steps) && |steps| == 6 && steps[5] == Cut("c") && LosesWakeUp(states[5], steps[5])
    ensures Waiting(states[6], "p")
    ensures forall window :: Waiting(DeliverAll(states[6], window), "p")
  {
    states, steps := ChildFinishes();
    assert Untold(WAITS, "c", "p");
    states, steps := Extend(states, steps, Cut("c"));
    var after := states[6];
    assert after.tasks == WAITS.tasks && after.recorded == {"c"};
    assert forall c :: !ActiveChild(after, c, "p") && !Untold(after, c, "p");
    forall window ensures Waiting(DeliverAll(after, window), "p") { LostForGood(after, window, "p"); }
  }

  // ---- A list of the newest hundred ----

  const WINDOW: nat := 100

  /** Ids of newer tasks, all different and none of them a parent's or a child's above. */
  function Newer(i: nat): string {
    seq(i + 2, j => 'n')
  }

  function NewerTasks(n: nat): seq<string> {
    seq(n, i requires 0 <= i < n => Newer(i))
  }

  lemma {:induction false} CreateNewer(n: nat) returns (states: seq<State>, steps: seq<Step>)
    ensures Run(states, steps) && |steps| == 5 + n && forall i :: 0 <= i < n ==> steps[5 + i] == Create(Newer(i), None)
    ensures var s := states[5 + n];
            Waiting(s, "p") && Untold(s, "c", "p") && forall i :: 0 <= i < n ==>
              Newer(i) in s.tasks && s.tasks[Newer(i)].parent.None?
    ensures forall i: nat :: i >= n ==> Newer(i) !in states[5 + n].tasks
  {
    if n == 0 {
      states, steps := ChildFinishes();
      forall i: nat ensures Newer(i) !in WAITS.tasks { assert |Newer(i)| == i + 2 && |"p"| == 1 && |"c"| == 1; }
    } else {
      states, steps := CreateNewer(n - 1);
      states, steps := Extend(states, steps, Create(Newer(n - 1), None));
      assert |Newer(n - 1)| == n + 1 && |"p"| == 1 && |"c"| == 1;
      forall i: nat | i != n - 1 ensures Newer(i) != Newer(n - 1) { assert |Newer(i)| == i + 2; }
    }
  }

  /** A hundred tasks were created after the child: the pass over the newest hundred leaves the parent waiting,
      though it has a finished child it was not told of. */
  lemma HundredNewerTasks() returns (states: seq<State>, steps: seq<Step>)
    ensures Run(states, steps) && |steps| == 5 + WINDOW
    ensures forall i :: 0 <= i < WINDOW ==> steps[5 + i] == Create(Newer(i), None)
    ensures Waiting(states[5 + WINDOW], "p") && Untold(states[5 + WINDOW], "c", "p")
    ensures Waiting(DeliverAll(states[5 + WINDOW], NewerTasks(WINDOW)), "p")
  {
    states, steps := CreateNewer(WINDOW);
    var s := states[5 + WINDOW];
    forall c | c in NewerTasks(WINDOW) ensures !Untold(s, c, "p") {
      var i :| 0 <= i < WINDOW && c == Newer(i);
    }
    PassWakesExactly(s, NewerTasks(WINDOW), "p");
  }

  // ---- The pass as a loop over the newest tasks ----

  class Scheduler {
    var s: State

    constructor ()
      ensures s == State(map[], {})
    {
      s := State(map[], {});
    }

    method Message(p: string, c: string)
      requires p in s.tasks
      modifies this
      ensures s == Tell(old(s), c, p)
    {
      var inserted := c !in s.recorded;
      s := s.(recorded := s.recorded + {c});
      if inserted && s.tasks[p].status.Waiting? {
        s := SetStatus(s, p, Queued);
      }
      assert !inserted ==> s.recorded == old(s).recorded;
    }

    method DeliverChildResults(window: seq<string>)
      modifies this
      ensures s == DeliverAll(old(s), window)
    {
      for i := 0 to |window|
        invariant s == DeliverAll(old(s), window[..i])
      {
        assert window[..i + 1][..i] == window[..i];
        var c := window[i];
        if c in s.tasks && s.tasks[c].parent.Some? && !s.tasks[c].status.Active() {
          var p := s.tasks[c].parent.value;
          if p in s.tasks && s.tasks[p].status.Active() {
            Message(p, c);
          }
        }
      }
      assert window[..|window|] == window;
    }

    /** `wait_for_subagents`. */
    method WaitForChildren(id: string)
      requires id in s.tasks && s.tasks[id].status.Running?
      modifies this
      ensures s == After(old(s), Wait(id))
    {
      var todo, busy := s.tasks.Keys, false;
      while todo != {} && !busy
        invariant todo <= s.tasks.Keys && s == old(s)
        invariant busy ==> exists c :: c in s.tasks && ActiveChild(s, c, id)
        invariant !busy ==> forall c :: c in s.tasks && ActiveChild(s, c, id) ==> c in todo
        decreases |todo|
      {
        var c :| c in todo;
        todo := todo - {c};
        busy := ActiveChild(s, c, id);
      }
      if busy {
        s := SetStatus(s, id, Status.Waiting);
      }
    }
  }
}
