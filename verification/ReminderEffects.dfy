/** What firing, cancelling and settling do to each reminder, task and wake, said without the steps they take. */
module ReminderEffects {
  import C = Cascade
  import opened Reminders

  // ---- Settling ----

  /** How a wake that is over closes its reminder: a rejected result fails it, a notification delivers it, and else the
      task's own end decides. */
  predicate ClosesAs(info: Info, phase: Phase) {
    && (phase.Failed? <==> info.rejected || (!info.notified && info.status.Failed?))
    && (phase.Delivered? <==> !info.rejected && info.notified)
    && (phase.Resolved? <==>
          !info.rejected && !info.notified && (info.status.Completed? || info.status.Abstained?))
    && (phase.Cancelled? <==> !info.rejected && !info.notified && info.status.Cancelled?)
  }

  /** Settling closes a queued reminder by the last of its wakes whose task is over, and touches nothing else. */
  lemma SettlingIsExact(s: State, r: string)
    requires Linked(s) && r in s.reminders
    ensures var after := ReconcileSpec(s);
            && after == s.(reminders := after.reminders) && after.reminders.Keys == s.reminders.Keys
            && (!Closes(s, r) ==> after.reminders[r] == s.reminders[r])
            && (Closes(s, r) ==>
                  exists i :: LastOver(s, i, r) && ClosesAs(s.tasks[s.wakes[i].task], after.reminders[r]))
  {
    ReconcileIs(s);
    if Closes(s, r) {
      var i :| LastOver(s, i, r);
      assert ClosesAs(s.tasks[s.wakes[i].task], Outcome(s.tasks[s.wakes[i].task]));
    }
  }

  // ---- Firing ----

  predicate InGroup(g: Group, w: Wake) {
    w.task == g.task && w.reminder in g.members
  }

  /** The group has its task, queued, and its reminders are queued and wait for it. */
  ghost predicate Fired(after: State, g: Group) {
    && g.task in after.tasks && after.tasks[g.task] == Info(C.Queued, false, false)
    && forall m :: m in g.members ==>
         m in after.reminders && after.reminders[m].Queued? && Wake(m, g.task) in after.wakes
  }

  lemma GroupFires(s: State, g: Group)
    requires MayFire(s, g)
    ensures var after := FireGroup(s, g);
            && Fired(after, g) && after.up == s.up
            && after.tasks.Keys == s.tasks.Keys + {g.task}
            && (forall t :: t in s.tasks ==> after.tasks[t] == s.tasks[t])
            && |after.wakes| == |s.wakes| + |g.members| && s.wakes <= after.wakes
            && (forall w :: w in after.wakes <==> w in s.wakes || InGroup(g, w))
            && after.reminders.Keys == s.reminders.Keys
            && (forall r :: r in s.reminders && r !in g.members ==> after.reminders[r] == s.reminders[r])
  {
    var new_ := WakesFor(g.members, g.task);
    forall m | m in g.members ensures Wake(m, g.task) in new_ {
      var j :| 0 <= j < |g.members| && g.members[j] == m;
      assert new_[j] == Wake(m, g.task);
    }
    assert forall w :: w in new_ ==> InGroup(g, w);
    assert forall w :: InGroup(g, w) ==> w == Wake(w.reminder, g.task);
  }

  /** Firing the groups that are due gives each its task and queues its reminders; it adds exactly their wakes, after
      the old ones, and leaves every other task and reminder as it was. */
  lemma {:induction false} FiringIsExact(s: State, groups: seq<Group>)
    requires MayAllFire(s, groups)
    ensures var after := FireGroups(s, groups);
            && (forall i :: 0 <= i < |groups| ==> Fired(after, groups[i]))
            && after.up == s.up && s.wakes <= after.wakes
            && (forall w :: w in after.wakes <==>
                  w in s.wakes || exists i :: 0 <= i < |groups| && InGroup(groups[i], w))
            && (forall t :: t in s.tasks ==> t in after.tasks && after.tasks[t] == s.tasks[t])
            && (forall t :: t in after.tasks ==> t in s.tasks || HasTask(groups, t))
            && Untouched(s, groups, after)
  {
    FireGroupsIs(s, groups);
    if groups != [] {
      var n := |groups| - 1;
      var front, g, before := groups[..n], groups[n], FireGroups(s, groups[..n]);
      MayFrontFire(s, groups);
      FiringIsExact(s, front);
      FireGroupsIs(s, front);
      LastMayFire(s, groups, before);
      GroupFires(before, g);
      assert forall i :: 0 <= i < n ==> front[i] == groups[i];
      forall i | 0 <= i < n ensures Fired(FireGroups(s, groups), groups[i]) {
        assert Fired(before, front[i]);
        forall m | m in groups[i].members ensures m !in g.members {
          assert m in Members(groups[i]) && Members(groups[i]) !! Members(g);
        }
      }
      forall w ensures w in FireGroups(s, groups).wakes <==>
                         w in s.wakes || exists i :: 0 <= i < |groups| && InGroup(groups[i], w)
      {
        if InGroup(g, w) { assert InGroup(groups[n], w); }
        if i :| 0 <= i < n && InGroup(front[i], w) { assert InGroup(groups[i], w); }
        if i :| 0 <= i < |groups| && InGroup(groups[i], w) { assert i == n || InGroup(front[i], w); }
      }
    }
  }

  /** Expiry closes what is pending and was named, recovery moves active tasks as told, and dropping a task that is over
      drops its wakes; nothing else changes. */
  lemma UpkeepIsExact(s: State, ids: set<string>, statuses: map<string, C.Status>, t: string)
    ensures var after := ExpireSpec(s, ids);
            && after == s.(reminders := after.reminders) && after.reminders.Keys == s.reminders.Keys
            && forall r :: r in s.reminders ==>
                 after.reminders[r] == if r in ids && s.reminders[r].Pending? then Expired else s.reminders[r]
    ensures var after := Recover(s, statuses);
            && after == s.(tasks := after.tasks) && after.tasks.Keys == s.tasks.Keys
            && forall x :: x in s.tasks ==>
                 after.tasks[x] == if ActiveTask(s, x) && x in statuses
                                   then s.tasks[x].(status := statuses[x]) else s.tasks[x]
    ensures forall w :: w in Without(s.wakes, t) <==> w in s.wakes && w.task != t
  {
    WithoutIs(s.wakes, t);
  }

  lemma {:induction false} WithoutIs(wakes: seq<Wake>, t: string)
    ensures forall w :: w in Without(wakes, t) <==> w in wakes && w.task != t
  {
    if wakes != [] {
      WithoutIs(wakes[..|wakes| - 1], t);
      assert wakes == wakes[..|wakes| - 1] + [wakes[|wakes| - 1]];
    }
  }

  // ---- Cancelling ----

  /** Some wake of the reminder is for the task. */
  ghost predicate WokenFor(s: State, r: string, t: string) {
    Wake(r, t) in s.wakes
  }

  /** Cancelling a reminder cancels the active tasks of its wakes, sends back the queued reminders that any of these
      tasks was to deliver, and touches nothing else. */
  lemma CancellingIsExact(s: State, id: string)
    requires id in s.reminders
    ensures var after := CancelSpec(s, id);
            && after == s.(tasks := after.tasks, reminders := after.reminders)
            && after.tasks.Keys == s.tasks.Keys && after.reminders.Keys == s.reminders.Keys
            && (forall t :: t in s.tasks ==>
                  after.tasks[t] == if ActiveTask(s, t) && WokenFor(s, id, t)
                                    then s.tasks[t].(status := C.Cancelled) else s.tasks[t])
            && after.reminders[id].Cancelled?
            && (forall r :: r in s.reminders && r != id ==>
                  after.reminders[r]
                  == if s.reminders[r].Queued? && (exists t :: WokenFor(s, id, t) && WokenFor(s, r, t))
                     then Pending else s.reminders[r])
  {
    CancelIs(s, id);
    var tasks := WakeTasks(s.wakes, id);
    forall t ensures t in tasks <==> WokenFor(s, id, t) {
      if t in tasks {
        var w :| w in s.wakes && w.reminder == id && w.task == t;
        assert w == Wake(id, t);
      }
    }
    forall r ensures Shares(s.wakes, r, tasks) <==> exists t :: WokenFor(s, id, t) && WokenFor(s, r, t) {
      if Shares(s.wakes, r, tasks) {
        var i :| 0 <= i < |s.wakes| && s.wakes[i].reminder == r && s.wakes[i].task in tasks;
        assert s.wakes[i] == Wake(r, s.wakes[i].task) && s.wakes[i] in s.wakes;
        assert WokenFor(s, id, s.wakes[i].task) && WokenFor(s, r, s.wakes[i].task);
      }
      if t :| WokenFor(s, id, t) && WokenFor(s, r, t) {
        var i :| 0 <= i < |s.wakes| && s.wakes[i] == Wake(r, t);
      }
    }
  }
}
