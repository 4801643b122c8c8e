/** Where the results in a task's log come from, and what becomes of the messages that steer it. */
module TaskResults {
  import opened Evidence
  import opened Cascade
  import opened TaskLog
  import opened TaskRun

  // ---- Every result in the log ----

  /** The step turns to the call at the head. */
  predicate Takes(s: State, op: Op) {
    op.Next? && s.status.Active() && s.mode.Calls? && s.mode.queue != []
  }

  /** The step skips the call at the head: there are messages, and it was never begun. */
  predicate Skips(s: State, op: Op, id: string) {
    Takes(s, op) && s.mode.queue[0].id == id && s.inbox != [] && id !in s.receipts
  }

  predicate Offers(tools: Tools, c: Call) {
    c.name in tools.safe && tools.accepts(c.name, c.args)
  }

  /** The call is refused: there is no such tool, or its id has a receipt of another call, or one that was begun, not
      finished, and may not be repeated. */
  predicate Refuses(tools: Tools, s: State, c: Call) {
    || !Offers(tools, c)
    || (c.id in s.receipts
        && var r := s.receipts[c.id];
           r.name != c.name || r.args != c.args || (!r.done && !tools.safe[c.name]))
  }

  /** The call was finished before. */
  predicate Finished(tools: Tools, s: State, c: Call) {
    && Offers(tools, c) && c.id in s.receipts
    && s.receipts[c.id].name == c.name && s.receipts[c.id].args == c.args && s.receipts[c.id].done
  }

  /** The step gives the call this text: what its execution returned or threw, why it was refused, or what its
      finished receipt says. */
  predicate Gives(tools: Tools, s: State, op: Op, c: Call, text: string) {
    || (op.End? && s.mode.InTool? && s.mode.call == c && text == op.text)
    || (op.Throw? && s.mode.InTool? && s.mode.call == c && text == op.error)
    || (Takes(s, op) && s.mode.queue[0] == c && !Skips(s, op, c.id)
        && ((Refuses(tools, s, c) && text == op.error) || (Finished(tools, s, c) && text == s.receipts[c.id].result)))
  }

  /** An earlier step gave the call this text. */
  ghost predicate GivenBefore(tools: Tools, states: seq<State>, ops: seq<Op>, i: nat, c: Call, text: string)
    requires i <= |ops| <= |states|
  {
    exists h :: 0 <= h < i && Gives(tools, states[h], ops[h], c, text)
  }

  /** The step appends a result: of a call it skips, or of a call that was given it. */
  ghost predicate Logs(tools: Tools, states: seq<State>, ops: seq<Op>, k: nat, m: Msg)
    requires k < |ops| < |states|
  {
    && m.ToolResult? && states[k + 1].log == states[k].log + [m]
    && (|| (Skips(states[k], ops[k], m.id) && m.text == SKIPPED)
        || (ops[k].Reply? && exists c: Call, text ::
              c.id == m.id && GivenBefore(tools, states, ops, k, c, text) && m.text == Clip(text)))
  }

  ghost predicate LoggedBefore(tools: Tools, states: seq<State>, ops: seq<Op>, i: nat, m: Msg)
    requires i <= |ops| < |states|
  {
    exists k: nat :: k < i && Logs(tools, states, ops, k, m)
  }

  /** What is about to be saved was given to that call. */
  ghost predicate ReplyGiven(tools: Tools, states: seq<State>, ops: seq<Op>, i: nat)
    requires i <= |ops| < |states|
  {
    states[i].mode.Replied? ==> GivenBefore(tools, states, ops, i, states[i].mode.call, states[i].mode.text)
  }

  lemma GivesReply(tools: Tools, s: State, op: Op)
    requires Step(tools, s, op).mode.Replied?
    ensures var m := Step(tools, s, op).mode; s.mode == m || Gives(tools, s, op, m.call, m.text)
  {}

  lemma GivenLater(tools: Tools, states: seq<State>, ops: seq<Op>, i: nat, c: Call, text: string)
    requires i < |ops| < |states| && GivenBefore(tools, states, ops, i, c, text)
    ensures GivenBefore(tools, states, ops, i + 1, c, text)
  {}

  lemma {:induction false} RepliesAreGiven(tools: Tools, states: seq<State>, ops: seq<Op>, i: nat)
    requires Run(tools, states, ops) && New(states[0]) && i < |states|
    ensures ReplyGiven(tools, states, ops, i)
  {
    if i > 0 {
      RepliesAreGiven(tools, states, ops, i - 1);
      var s, op := states[i - 1], ops[i - 1];
      if states[i].mode.Replied? {
        GivesReply(tools, s, op);
        if s.mode == states[i].mode {
          GivenLater(tools, states, ops, i - 1, s.mode.call, s.mode.text);
        } else {
          assert Gives(tools, states[i - 1], ops[i - 1], states[i].mode.call, states[i].mode.text);
        }
      }
    }
  }

  /** A step appends one result, of a call that it skips or saves, or adds no result. */
  lemma ResultsOfStep(tools: Tools, s: State, op: Op, m: Msg)
    requires m.ToolResult? && m in Step(tools, s, op).log && m !in s.log
    ensures Step(tools, s, op).log == s.log + [m]
    ensures || (Skips(s, op, m.id) && m.text == SKIPPED)
            || (op.Reply? && s.mode.Replied? && m.id == s.mode.call.id && m.text == Clip(s.mode.text))
  {
    if op.Compact? { NothingNew(s, op, m); }
  }

  lemma NothingNew(s: State, op: Op, m: Msg)
    requires op.Compact? && m.ToolResult?
    ensures |s.log| > 2 && m in Compacted(s.log, op.summary) ==> m in s.log
  {}

  /** Over every run, whatever the provider answers and wherever it is cut: each result in the log was appended by a
      step that skipped the call for new messages, and then says so; or was saved for the call, and then says what an
      earlier step gave that call: what its execution returned or threw, why it was refused, or what its finished
      receipt says. */
  lemma {:induction false} ResultsAreGiven(tools: Tools, states: seq<State>, ops: seq<Op>, i: nat, m: Msg)
    requires Run(tools, states, ops) && New(states[0]) && i < |states| && m in states[i].log && m.ToolResult?
    ensures LoggedBefore(tools, states, ops, i, m)
  {
    assert i > 0 by { if i == 0 { NewHasNoResult(states[0], m); } }
    if m in states[i - 1].log {
      ResultsAreGiven(tools, states, ops, i - 1, m);
    } else {
      ResultsOfStep(tools, states[i - 1], ops[i - 1], m);
      RepliesAreGiven(tools, states, ops, i - 1);
      assert Logs(tools, states, ops, i - 1, m);
    }
  }

  lemma NewHasNoResult(s: State, m: Msg)
    requires New(s) && m.ToolResult?
    ensures m !in s.log
  {}

  // ---- The log and the receipts ----

  /** What is about to be saved for a call that has a receipt is what the receipt says. */
  predicate ReplyIsReceipt(s: State) {
    s.mode.Replied? && s.mode.call.id in s.receipts ==>
      s.receipts[s.mode.call.id].done && s.receipts[s.mode.call.id].result == s.mode.text
  }

  lemma ReplyStaysReceipt(tools: Tools, s: State, op: Op)
    requires ReplyIsReceipt(s)
    ensures ReplyIsReceipt(Step(tools, s, op))
  {}

  lemma {:induction false} RepliesAreReceipts(tools: Tools, states: seq<State>, ops: seq<Op>, i: nat)
    requires Run(tools, states, ops) && New(states[0]) && i < |states|
    ensures ReplyIsReceipt(states[i])
  {
    if i > 0 {
      RepliesAreReceipts(tools, states, ops, i - 1);
      ReplyStaysReceipt(tools, states[i - 1], ops[i - 1]);
    }
  }

  /** The saved result of a call that has a receipt is the receipt's, up to its length. */
  lemma SavedIsReceipt(tools: Tools, states: seq<State>, ops: seq<Op>, k: nat)
    requires Run(tools, states, ops) && New(states[0]) && k < |ops| && ops[k].Reply?
    requires states[k].mode.Replied? && !states[k].status.Cancelled? && states[k].mode.call.id in states[k].receipts
    ensures var id := states[k].mode.call.id;
            && IsDone(states[k].receipts, id)
            && states[k + 1].log == states[k].log + [ToolResult(id, Clip(states[k].receipts[id].result))]
  {
    RepliesAreReceipts(tools, states, ops, k);
  }

  /** A result in the log of a call whose receipt is finished is the receipt's. */
  ghost predicate Agrees(log: seq<Msg>, receipts: map<string, Receipt>) {
    forall m :: m in log && m.ToolResult? && IsDone(receipts, m.id) ==> m.text == Clip(receipts[m.id].result)
  }

  lemma OpenHasNoResult(s: State, c: Call, m: Msg)
    requires InOrder(s) && s.status.Active() && c in Open(s.log).value && m in s.log
    ensures !IsResult(m, c.id)
  {
    OpenPairs(s.log);
    var i :| 0 <= i < |s.log| && s.log[i] == m;
    assert !HasResult(s.log, c.id);
  }

  /** Receipts change only for the call that is next or in execution, which has no result in the log yet. */
  lemma ReceiptsOfStep(tools: Tools, s: State, op: Op, id: string)
    requires InOrder(s) && s.status.Active() && Step(tools, s, op).status.Active()
    requires IsDone(Step(tools, s, op).receipts, id)
    requires !(id in s.receipts && s.receipts[id] == Step(tools, s, op).receipts[id])
    ensures exists c :: c in Open(s.log).value && c.id == id
  {
    if op.Next? {
      assert s.mode.queue[0] in Open(s.log).value;
    } else {
      assert s.mode.InTool?;
      assert ([s.mode.call] + s.mode.rest)[0] == s.mode.call;
      assert s.mode.call in Open(s.log).value;
    }
  }

  lemma AgreesKept(tools: Tools, s: State, op: Op)
    requires InOrder(s) && ReplyIsReceipt(s) && (s.status.Active() ==> Agrees(s.log, s.receipts))
    ensures var after := Step(tools, s, op); after.status.Active() ==> Agrees(after.log, after.receipts)
  {
    var after := Step(tools, s, op);
    if after.status.Active() {
      ActiveBefore(tools, s, op);
      forall m | m in after.log && m.ToolResult? && IsDone(after.receipts, m.id)
        ensures m.text == Clip(after.receipts[m.id].result)
      {
        AgreesOn(tools, s, op, m);
      }
    }
  }

  lemma ActiveBefore(tools: Tools, s: State, op: Op)
    requires Step(tools, s, op).status.Active()
    ensures s.status.Active()
  {}

  lemma AgreesOn(tools: Tools, s: State, op: Op, m: Msg)
    requires InOrder(s) && ReplyIsReceipt(s) && s.status.Active() && Agrees(s.log, s.receipts)
    requires Step(tools, s, op).status.Active() && m.ToolResult?
    requires m in Step(tools, s, op).log && IsDone(Step(tools, s, op).receipts, m.id)
    ensures m.text == Clip(Step(tools, s, op).receipts[m.id].result)
  {
    var after := Step(tools, s, op);
    if m !in s.log {
      ResultsOfStep(tools, s, op, m);
    } else if !(m.id in s.receipts && s.receipts[m.id] == after.receipts[m.id]) {
      ReceiptsOfStep(tools, s, op, m.id);
      var c :| c in Open(s.log).value && c.id == m.id;
      OpenHasNoResult(s, c, m);
    }
  }

  /** In every run whose responses leave the log in order: while the task is active, the result in the log of a call
      whose receipt is finished is what the receipt says. */
  lemma {:induction false} LogAgreesWithReceipts(tools: Tools, states: seq<State>, ops: seq<Op>, i: nat)
    requires FreshCallRun(tools, states, ops) && New(states[0]) && i < |states|
    ensures states[i].status.Active() ==> Agrees(states[i].log, states[i].receipts)
  {
    if i > 0 {
      LogAgreesWithReceipts(tools, states, ops, i - 1);
      OrderThroughout(tools, states, ops, i - 1);
      RepliesAreReceipts(tools, states, ops, i - 1);
      AgreesKept(tools, states[i - 1], ops[i - 1]);
    }
  }

  // ---- Messages that steer the task ----

  /** Looking for work finds calls and leaves the messages, or appends them all, in order, and turns to the model. */
  lemma LookTakesMessages(tools: Tools, s: State)
    requires s.mode.Top? && s.status.Active()
    ensures var after := Step(tools, s, Look);
            && (PendingCalls(s.log) != [] ==> after == s.(mode := Calls(PendingCalls(s.log))))
            && (PendingCalls(s.log) == [] ==>
                  && after == s.(log := after.log, inbox := [], mode := Preparing)
                  && |after.log| == |s.log| + |s.inbox| && after.log[..|s.log|] == s.log
                  && forall j :: 0 <= j < |s.inbox| ==> after.log[|s.log| + j] == User(s.inbox[j]))
  {
    assert PendingCalls(s.log) == [] ==> Step(tools, s, Look).log[..|s.log|] == s.log;
  }

  ghost predicate HeardBy(tools: Tools, states: seq<State>, ops: seq<Op>, k: nat, i: nat, text: string)
    requires i <= |ops| < |states|
  {
    exists h :: k <= h < i && text in states[h].inbox && states[h + 1].inbox == []
                && (ops[h].Purge? || (ops[h].Look? && User(text) in states[h + 1].log))
  }

  lemma InboxOfStep(tools: Tools, s: State, op: Op, text: string)
    requires text in s.inbox
    ensures var after := Step(tools, s, op);
            || text in after.inbox
            || (after.inbox == [] && (op.Purge? || (op.Look? && User(text) in after.log)))
  {
    var after := Step(tools, s, op);
    if op.Look? && text !in after.inbox {
      LookTakesMessages(tools, s);
      var j :| 0 <= j < |s.inbox| && s.inbox[j] == text;
      assert after.log[|s.log| + j] == User(text);
    }
  }

  /** A message that steers a task stays in its inbox, through crashes and restarts, until it is appended to the log
      or goes with a purge. */
  lemma {:induction false} SteeringIsHeard(tools: Tools, states: seq<State>, ops: seq<Op>, k: nat, i: nat)
    requires Run(tools, states, ops) && k < i < |states| && ops[k].Steer? && states[k].up
    ensures ops[k].text in states[i].inbox || HeardBy(tools, states, ops, k + 1, i, ops[k].text)
    decreases i
  {
    var text := ops[k].text;
    if i == k + 1 {
      assert states[i].inbox[|states[k].inbox|] == text;
    } else {
      SteeringIsHeard(tools, states, ops, k, i - 1);
      if text in states[i - 1].inbox {
        InboxOfStep(tools, states[i - 1], ops[i - 1], text);
      } else {
        var h :| k + 1 <= h < i - 1 && text in states[h].inbox && states[h + 1].inbox == []
                 && (ops[h].Purge? || (ops[h].Look? && User(text) in states[h + 1].log));
      }
    }
  }

  // ---- Where a task goes ----

  /** A restart leaves a task active exactly when it was, is not overdue, and no tool that must not be repeated was cut
      off; it is then queued, or waits as before.  Otherwise it is cancelled if overdue, and else failed. */
  lemma RecoveryIsExact(tools: Tools, s: State, late: bool)
    requires !s.up
    ensures var after := Step(tools, s, Recover(late));
            && after.up && after == s.(up := true, status := after.status)
            && (after.status.Active() <==>
                  && s.status.Active() && !late
                  && forall id :: id in s.receipts ==> s.receipts[id].done || s.receipts[id].safe)
            && (after.status.Active() ==> after.status == if s.status.Waiting? then Status.Waiting else Queued)
            && (!s.status.Active() ==> after.status == s.status)
            && (s.status.Active() && !after.status.Active() ==> after.status == if late then Cancelled else Failed)
  {}

  /** An answer is dropped if messages came meanwhile; else it is appended, and the task goes on with its calls, or
      ends without a result if there are none.  Anything but an assistant's message fails the task. */
  lemma ResponsesAreTaken(tools: Tools, s: State, m: Msg)
    requires s.mode.Asking? && s.status.Active()
    ensures var after := Step(tools, s, Respond(m));
            && after == s.(log := after.log, status := after.status, mode := after.mode)
            && (s.inbox != [] ==> after.log == s.log && after.status == s.status && after.mode.Top?)
            && (s.inbox == [] && m.Assistant? ==>
                  && after.log == s.log + [m]
                  && (if m.calls == [] then after.status.Abstained? && after.mode.Idle?
                      else after.status == s.status && after.mode.Top?))
            && (s.inbox == [] && !m.Assistant? ==> after.log == s.log && after.status.Failed? && after.mode.Idle?)
  {}

  // ---- Compaction ----

  /** The part of the log that starts with its last assistant message, if that is not among the first three. */
  predicate LastTurnFrom(log: seq<Msg>, t: nat) {
    && t <= |log| && (forall j :: t < j < |log| ==> !log[j].Assistant?)
    && (if t < |log| then t > 2 && log[t].Assistant? else forall j :: 2 < j < |log| ==> !log[j].Assistant?)
  }

  lemma {:induction false} TailIs(log: seq<Msg>, from: nat)
    requires from < |log| && forall j :: from < j < |log| ==> !log[j].Assistant?
    ensures LastTurnFrom(log, TailStart(log, from))
    decreases from
  {
    if from > 2 && !log[from].Assistant? { TailIs(log, from - 1); }
  }

  /** Compaction keeps the instructions, the task and the whole last turn, and puts the summary for the rest. */
  lemma CompactionKeepsLastTurn(log: seq<Msg>, summary: string) returns (t: nat)
    requires |log| > 2
    ensures LastTurnFrom(log, t)
    ensures Compacted(log, summary) == [log[0], log[1], User(summary)] + log[t..]
  {
    t := TailStart(log, |log| - 1);
    TailIs(log, |log| - 1);
  }
}
