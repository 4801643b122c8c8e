/** One task's run: pending calls, receipts, steering, and the crashes and cancellations that can fall between
    any two steps.  Every stretch of code between two awaits is one step; what the scheduler, the provider and
    the outside world choose is in the operation. */
module TaskRun {
  import opened Evidence
  import opened Cascade
  import opened TaskLog

  datatype Receipt = Receipt(name: string, args: string, done: bool, result: string, safe: bool)

  /** The tools a task may call: which are safe to repeat, and which arguments each accepts. */
  datatype Tools = Tools(safe: map<string, bool>, accepts: (string, string) -> bool)

  datatype Mode =
    | Idle
    | Top
    | Calls(queue: seq<Call>)
    | InTool(call: Call, rest: seq<Call>, fired: bool)
    | Replied(call: Call, rest: seq<Call>, text: string)
    | Preparing
    | Asking

  datatype Effect = Effect(id: string, safe: bool)

  datatype State = State(log: seq<Msg>, inbox: seq<string>, receipts: map<string, Receipt>, status: Status,
                         mode: Mode, up: bool, effects: seq<Effect>)

  datatype Op =
    | Start
    | Look
    | Next(error: string)
    | Act
    | Move(status: Status)
    | End(text: string)
    | Throw(error: string)
    | Reply
    | Compact(summary: string)
    | Request
    | Respond(m: Msg)
    | Steer(text: string)
    | Fail(stopped: bool)
    | Cancel
    | Purge
    | Crash
    | Recover(late: bool)

  const SKIPPED := "New task context superseded this unexecuted call"

  const LONGEST := 24000

  /** What the log keeps of a result. */
  function Clip(text: string): string {
    if |text| <= LONGEST then text else text[..LONGEST]
  }

  // ---- The receipt protocol ----

  datatype Outcome = Stored(text: string) | Started | Refused

  predicate Known(tools: Tools, c: Call) {
    c.name in tools.safe && tools.accepts(c.name, c.args)
  }

  /** The opening of `execute`. */
  function Admit(tools: Tools, receipts: map<string, Receipt>, c: Call): Outcome {
    if !Known(tools, c) then Refused
    else if c.id !in receipts then Started
    else
      var r := receipts[c.id];
      if r.name != c.name || r.args != c.args then Refused
      else if r.done then Stored(r.result)
      else if !tools.safe[c.name] then Refused
      else Started
  }

  function Begun(tools: Tools, receipts: map<string, Receipt>, c: Call): map<string, Receipt>
    requires Known(tools, c)
  {
    if c.id in receipts then receipts else receipts[c.id :=
      Receipt.Receipt(c.name, c.args, false, "", tools.safe[c.name])]
  }

  function Ended(receipts: map<string, Receipt>, id: string, text: string): map<string, Receipt> {
    if id in receipts then receipts[id := receipts[id].(done := true, result := text)] else receipts
  }

  function Broken(s: State): State {
    s.(mode := Idle, status := if s.status.Active() then Failed else s.status)
  }

  /** A tool that threw: recorded as its result if it is safe to repeat, fatal if its outcome is unknown. */
  function Thrown(s: State, c: Call, rest: seq<Call>, error: string): State {
    if c.id in s.receipts && !s.receipts[c.id].safe then Broken(s)
    else s.(receipts := Ended(s.receipts, c.id, error), mode := Replied(c, rest, error))
  }

  function Continue(rest: seq<Call>): Mode {
    if rest == [] then Top else Calls(rest)
  }

  /** The next pending call: superseded by steering, answered from its receipt, refused, or begun. */
  function NextSpec(tools: Tools, s: State, error: string): State
    requires s.mode.Calls? && s.mode.queue != []
  {
    var c, rest := s.mode.queue[0], s.mode.queue[1..];
    if s.inbox != [] && c.id !in s.receipts then
      s.(log := s.log + [ToolResult(c.id, SKIPPED)], mode := Continue(rest))
    else match Admit(tools, s.receipts, c)
      case Stored(text) => s.(mode := Replied(c, rest, text))
      case Started => s.(receipts := Begun(tools, s.receipts, c), mode := InTool(c, rest, false))
      case Refused => Thrown(s, c, rest, error)
  }

  function Drained(log: seq<Msg>, inbox: seq<string>): seq<Msg> {
    log + seq(|inbox|, i requires 0 <= i < |inbox| => User(inbox[i]))
  }

  function LookSpec(s: State): State {
    var pending := PendingCalls(s.log);
    if pending != [] then s.(mode := Calls(pending))
    else s.(log := Drained(s.log, s.inbox), inbox := [], mode := Preparing)
  }

  function ReplySpec(s: State): State
    requires s.mode.Replied?
  {
    if s.status.Cancelled? then s.(mode := Idle)
    else s.(log := s.log + [ToolResult(s.mode.call.id, Clip(s.mode.text))],
            mode := if s.status.Running? then Continue(s.mode.rest) else Idle)
  }

  function RespondSpec(s: State, m: Msg): State {
    if s.inbox != [] then s.(mode := Top)
    else if !m.Assistant? then Broken(s)
    else if m.calls == [] then s.(log := s.log + [m], status := Abstained, mode := Idle)
    else s.(log := s.log + [m], mode := Top)
  }

  predicate Unknown(receipts: map<string, Receipt>) {
    exists id :: id in receipts && !receipts[id].done && !receipts[id].safe
  }

  function RecoverSpec(s: State, late: bool): State {
    var status :=
      if !s.status.Active() then s.status
      else if late then Cancelled
      else if Unknown(s.receipts) then Failed
      else if s.status.Running? then Queued
      else s.status;
    s.(up := true, status := status)
  }

  /** One step; an operation that is not possible in a state changes nothing. */
  function Step(tools: Tools, s: State, op: Op): State {
    match op
    case Start => if s.up && s.mode.Idle? && s.status.Queued? then s.(status := Running, mode := Top) else s
    case Look => if s.mode.Top? && s.status.Active() then LookSpec(s) else s
    case Next(error) =>
      if s.mode.Calls? && s.mode.queue != [] && s.status.Active() then NextSpec(tools, s, error) else s
    case Act =>
      if s.mode.InTool? && !s.mode.fired && s.mode.call.name in tools.safe
      then s.(mode := s.mode.(fired := true),
              effects := s.effects + [Effect(s.mode.call.id, tools.safe[s.mode.call.name])])
      else s
    case Move(status) =>
      if s.mode.InTool? && s.status.Running? && (status.Waiting? || status.Completed? || status.Abstained?)
      then s.(status := status) else s
    case End(text) =>
      if s.mode.InTool?
      then s.(receipts := Ended(s.receipts, s.mode.call.id, text), mode := Replied(s.mode.call, s.mode.rest, text))
      else s
    case Throw(error) => if s.mode.InTool? then Thrown(s, s.mode.call, s.mode.rest, error) else s
    case Reply => if s.mode.Replied? then ReplySpec(s) else s
    case Compact(summary) =>
      if s.mode.Preparing? && s.status.Active() && |s.log| > 2 then s.(log := Compacted(s.log, summary)) else s
    case Request => if s.mode.Preparing? then s.(mode := Asking) else s
    case Respond(m) => if s.mode.Asking? && s.status.Active() then RespondSpec(s, m) else s
    case Steer(text) =>
      if s.up then s.(inbox := s.inbox + [text], status := if s.status.Waiting? then Queued else s.status) else s
    case Fail(stopped) =>
      if s.mode.Idle? then s
      else if stopped then s.(mode := Idle, up := false, status := if s.status.Active() then Queued else s.status)
      else Broken(s)
    case Cancel => if s.status.Active() then s.(status := Cancelled) else s
    case Purge =>
      if s.status.Cancelled? || (s.mode.Idle? && !s.status.Active())
      then s.(log := [], receipts := map[], inbox := []) else s
    case Crash => s.(mode := Idle, up := false)
    case Recover(late) => if s.up then s else RecoverSpec(s, late)
  }

  ghost predicate Run(tools: Tools, states: seq<State>, ops: seq<Op>) {
    |states| == |ops| + 1 && forall i :: 0 <= i < |ops| ==> states[i + 1] == Step(tools, states[i], ops[i])
  }

  /** A new task: its instructions, nothing executed. */
  predicate New(s: State) {
    |s.log| == 2 && s.log[0].System? && s.log[1].User? && s.inbox == [] && s.receipts == map[]
    && s.status.Queued? && s.mode.Idle? && s.effects == []
  }

  // ---- An unsafe effect happens at most once per call id ----

  function Times(effects: seq<Effect>, id: string): nat {
    if effects == [] then 0
    else Times(effects[..|effects| - 1], id) +
         if effects[|effects| - 1] == Effect(id, false) then 1 else 0
  }

  ghost predicate OnceSafe(tools: Tools, s: State) {
    && (forall id :: Times(s.effects, id) <= 1)
    && (s.status.Active() ==> forall id :: Times(s.effects, id) > 0 ==> id in s.receipts && !s.receipts[id].safe)
    && (s.mode.InTool? ==> s.mode.call.name in tools.safe)
    && (s.mode.InTool? && !tools.safe[s.mode.call.name] ==>
        && (!s.mode.fired ==> Times(s.effects, s.mode.call.id) == 0)
        && (s.status.Active() ==> s.mode.call.id in s.receipts && !s.receipts[s.mode.call.id].safe))
  }

  lemma TimesStep(effects: seq<Effect>, e: Effect, id: string)
    ensures Times(effects + [e], id) == Times(effects, id) + if e == Effect(id, false) then 1 else 0
  {
    assert (effects + [e])[..|effects|] == effects;
  }

  lemma OnceAct(tools: Tools, s: State)
    requires OnceSafe(tools, s) && s.mode.InTool? && !s.mode.fired
    ensures OnceSafe(tools, Step(tools, s, Act))
  {
    forall id { TimesStep(s.effects, Effect(s.mode.call.id, tools.safe[s.mode.call.name]), id); }
  }

  lemma OnceNext(tools: Tools, s: State, error: string)
    requires OnceSafe(tools, s) && s.mode.Calls? && s.mode.queue != [] && s.status.Active()
    ensures OnceSafe(tools, NextSpec(tools, s, error))
  {
    var c := s.mode.queue[0];
    if c.id !in s.receipts { assert Times(s.effects, c.id) == 0; }
  }

  lemma OnceEnded(tools: Tools, s: State, id: string, text: string)
    requires OnceSafe(tools, s)
    ensures OnceSafe(tools, s.(receipts := Ended(s.receipts, id, text)))
  {}

  /** Steps that leave receipts and effects alone and start no tool. */
  predicate Quiet(s: State, after: State) {
    && after.effects == s.effects
    && (after.mode == s.mode || !after.mode.InTool?)
    && (after.status.Active() ==> s.status.Active() && after.receipts == s.receipts)
  }

  lemma OnceFrame(tools: Tools, s: State, after: State)
    requires OnceSafe(tools, s) && Quiet(s, after)
    ensures OnceSafe(tools, after)
  {}

  lemma OthersAreQuiet(tools: Tools, s: State, op: Op)
    requires !op.Act? && !op.Next? && !op.End? && !op.Throw?
    ensures Quiet(s, Step(tools, s, op))
  {}

  lemma ThrowKeepsOnce(tools: Tools, s: State, error: string)
    requires OnceSafe(tools, s) && s.mode.InTool?
    ensures OnceSafe(tools, Thrown(s, s.mode.call, s.mode.rest, error))
  {
    OnceEnded(tools, s, s.mode.call.id, error);
  }

  lemma OnceKept(tools: Tools, s: State, op: Op)
    requires OnceSafe(tools, s)
    ensures OnceSafe(tools, Step(tools, s, op))
  {
    if op.Act? {
      if s.mode.InTool? && !s.mode.fired { OnceAct(tools, s); }
    } else if op.Next? {
      if s.mode.Calls? && s.mode.queue != [] && s.status.Active() { OnceNext(tools, s, op.error); }
    } else if op.End? {
      if s.mode.InTool? { OnceEnded(tools, s, s.mode.call.id, op.text); }
    } else if op.Throw? {
      if s.mode.InTool? { ThrowKeepsOnce(tools, s, op.error); }
    } else {
      OthersAreQuiet(tools, s, op);
      OnceFrame(tools, s, Step(tools, s, op));
    }
  }

  /** Whatever the provider answers, however ids are reused, and wherever the run is stopped, crashes, is
      cancelled or restarted: no unsafe tool acts twice for one call id. */
  lemma {:induction false} UnsafeEffectsHappenOnce(tools: Tools, states: seq<State>, ops: seq<Op>, i: nat, id: string)
    requires Run(tools, states, ops) && New(states[0]) && i < |states|
    ensures Times(states[i].effects, id) <= 1
  {
    OnceThroughout(tools, states, ops, i);
  }

  lemma {:induction false} OnceThroughout(tools: Tools, states: seq<State>, ops: seq<Op>, i: nat)
    requires Run(tools, states, ops) && New(states[0]) && i < |states|
    ensures OnceSafe(tools, states[i])
  {
    if i > 0 {
      OnceThroughout(tools, states, ops, i - 1);
      OnceKept(tools, states[i - 1], ops[i - 1]);
    }
  }

  // ---- The log stays fit to send ----

  /** The provider gives the calls of a response distinct ids, none of which the log has a result for: ids that
      compaction dropped may come back. */
  predicate FreshCalls(s: State, op: Op) {
    op.Respond? && op.m.Assistant? ==> Unused(op.m.calls, s.log)
  }

  ghost predicate FreshCallRun(tools: Tools, states: seq<State>, ops: seq<Op>) {
    Run(tools, states, ops) && forall i :: 0 <= i < |ops| ==> FreshCalls(states[i], ops[i])
  }

  /** Ids that have no receipt either were never used by this task. */
  predicate FreshIds(s: State, op: Op) {
    FreshCalls(s, op) &&
    (op.Respond? && op.m.Assistant? ==> forall i :: 0 <= i < |op.m.calls| ==> op.m.calls[i].id !in s.receipts)
  }

  ghost predicate FreshRun(tools: Tools, states: seq<State>, ops: seq<Op>) {
    Run(tools, states, ops) && forall i :: 0 <= i < |ops| ==> FreshIds(states[i], ops[i])
  }

  /** The calls the run believes are pending. */
  function Believed(mode: Mode): Option<seq<Call>> {
    match mode
    case Idle => None
    case Top => None
    case Calls(queue) => Some(queue)
    case InTool(c, rest, _) => Some([c] + rest)
    case Replied(c, rest, _) => Some([c] + rest)
    case _ => Some([])
  }

  /** The receipt was written for this call. */
  predicate Matches(tools: Tools, c: Call, r: Receipt) {
    Known(tools, c) && r.name == c.name && r.args == c.args && r.safe == tools.safe[c.name]
  }

  predicate Headed(log: seq<Msg>) {
    |log| >= 2 && log[0].System? && log[1].User?
  }

  /** What is open at the end of the log is what the run believes. */
  ghost predicate InOrder(s: State) {
    s.status.Active() ==>
      && Headed(s.log)
      && Open(s.log).Some? && Distinct(Open(s.log).value)
      && (Believed(s.mode).Some? ==> Open(s.log) == Believed(s.mode))
  }

  lemma OpenAppend(log: seq<Msg>, m: Msg)
    requires Open(log).Some?
    ensures m.Assistant? && Open(log).value == [] && Unused(m.calls, log) ==> Open(log + [m]) == Some(m.calls)
    ensures m.ToolResult? && Open(log).value != [] && Open(log).value[0].id == m.id ==>
          Open(log + [m]) == Some(Open(log).value[1..])
    ensures m.User? && Open(log).value == [] ==> Open(log + [m]) == Some([])
  {
    assert (log + [m])[..|log|] == log;
  }

  lemma {:induction false} OpenDrained(log: seq<Msg>, inbox: seq<string>)
    requires Open(log) == Some([])
    ensures Open(Drained(log, inbox)) == Some([])
  {
    if inbox == [] {
      assert Drained(log, inbox) == log;
    } else {
      var front := inbox[..|inbox| - 1];
      OpenDrained(log, front);
      assert Drained(log, inbox) == Drained(log, front) + [User(inbox[|inbox| - 1])];
      OpenAppend(Drained(log, front), User(inbox[|inbox| - 1]));
    }
  }

  lemma NextKeepsOrder(tools: Tools, s: State, error: string)
    requires InOrder(s) && s.mode.Calls? && s.mode.queue != [] && s.status.Active()
    ensures InOrder(NextSpec(tools, s, error))
  {
    var open, c, rest := s.mode.queue, s.mode.queue[0], s.mode.queue[1..];
    assert [c] + rest == open;
    if s.inbox != [] && c.id !in s.receipts {
      SkipKeepsOrder(s, open, c, rest);
    } else {
      HeadKeepsOrder(tools, s, c, rest, error);
    }
  }

  lemma SkipKeepsOrder(s: State, open: seq<Call>, c: Call, rest: seq<Call>)
    requires InOrder(s) && s.mode == Calls(open) && open == [c] + rest && s.status.Active()
    ensures InOrder(s.(log := s.log + [ToolResult(c.id, SKIPPED)], mode := Continue(rest)))
  {
    OpenAppend(s.log, ToolResult(c.id, SKIPPED));
    assert open[1..] == rest;
  }

  lemma HeadKeepsOrder(tools: Tools, s: State, c: Call, rest: seq<Call>, error: string)
    requires InOrder(s) && s.mode.Calls? && s.mode.queue == [c] + rest && s.status.Active()
    ensures InOrder(s.(mode := InTool(c, rest, false)))
    ensures forall text :: InOrder(s.(mode := Replied(c, rest, text)))
    ensures InOrder(Thrown(s, c, rest, error))
  {}

  lemma LookKeepsOrder(s: State)
    requires InOrder(s) && s.mode.Top? && s.status.Active()
    ensures InOrder(LookSpec(s))
  {
    PendingIsOpen(s.log);
    if Open(s.log).value == [] { OpenDrained(s.log, s.inbox); }
  }

  lemma ReplyKeepsOrder(s: State)
    requires InOrder(s) && s.mode.Replied?
    ensures InOrder(ReplySpec(s))
  {
    if s.status.Active() { AnswerKeepsOrder(s, s.mode.call, s.mode.rest, Clip(s.mode.text)); }
  }

  lemma AnswerKeepsOrder(s: State, c: Call, rest: seq<Call>, text: string)
    requires InOrder(s) && s.mode.Replied? && s.mode.call == c && s.mode.rest == rest && s.status.Active()
    ensures InOrder(s.(log := s.log + [ToolResult(c.id, text)], mode := Continue(rest)))
    ensures InOrder(s.(log := s.log + [ToolResult(c.id, text)], mode := Idle))
  {
    OpenAppend(s.log, ToolResult(c.id, text));
    assert ([c] + rest)[1..] == rest;
  }

  lemma RespondKeepsOrder(s: State, m: Msg)
    requires InOrder(s) && s.mode.Asking? && s.status.Active() && FreshCalls(s, Respond(m))
    ensures InOrder(RespondSpec(s, m))
  {
    OpenAppend(s.log, m);
  }

  lemma OrderKept(tools: Tools, s: State, op: Op)
    requires InOrder(s) && FreshCalls(s, op)
    ensures InOrder(Step(tools, s, op))
  {
    match op
    case Look => if s.mode.Top? && s.status.Active() { LookKeepsOrder(s); }
    case Next(error) => if s.mode.Calls? && s.mode.queue != [] && s.status.Active() { NextKeepsOrder(tools, s, error); }
    case Reply => if s.mode.Replied? { ReplyKeepsOrder(s); }
    case Compact(summary) =>
      if s.mode.Preparing? && s.status.Active() && |s.log| > 2 { CompactionKeepsOrder(s.log, summary); }
    case Respond(m) => if s.mode.Asking? && s.status.Active() { RespondKeepsOrder(s, m); }
    case _ =>
  }

  lemma {:induction false} OrderThroughout(tools: Tools, states: seq<State>, ops: seq<Op>, i: nat)
    requires FreshCallRun(tools, states, ops) && New(states[0]) && i < |states|
    ensures InOrder(states[i])
  {
    if i > 0 {
      OrderThroughout(tools, states, ops, i - 1);
      OrderKept(tools, states[i - 1], ops[i - 1]);
    } else {
      NewIsOpen(states[0].log);
    }
  }

  lemma NewIsOpen(log: seq<Msg>)
    requires |log| == 2 && log[0].System? && log[1].User?
    ensures Open(log) == Some([])
  {
    assert log[..1] == [log[0]] && [log[0]][..0] == [];
    assert Open([log[0]]) == Some([]);
  }

  /** At every model request of every run whose responses leave the log in order, each tool call in the log has
      exactly one result, after it and before the next assistant message: across steering, yielding part way,
      restarts and compaction. */
  lemma RequestsArePaired(tools: Tools, states: seq<State>, ops: seq<Op>, i: nat)
    requires FreshCallRun(tools, states, ops) && New(states[0]) && i < |states|
    requires states[i].mode.Asking? && states[i].status.Active()
    ensures Paired(states[i].log)
    ensures forall j :: 0 <= j < |ProviderInput(states[i].log)| && ProviderInput(states[i].log)[j].FunctionOutput? ==>
              exists k :: 0 <= k < j && ProviderInput(states[i].log)[k]
                == FunctionCall(ProviderInput(states[i].log)[j].id)
  {
    OrderThroughout(tools, states, ops, i);
    var log := states[i].log;
    BalancedIsPaired(log);
    forall j | 0 <= j < |ProviderInput(log)| && ProviderInput(log)[j].FunctionOutput?
      ensures exists k :: 0 <= k < j && ProviderInput(log)[k] == FunctionCall(ProviderInput(log)[j].id)
    {
      var k := OutputsFollowCalls(log, j);
    }
  }

  // ---- A finished receipt is final ----

  predicate IsDone(receipts: map<string, Receipt>, id: string) {
    id in receipts && receipts[id].done
  }

  /** A finished receipt stays as it is, or goes with a purge; and a call that has one is not executed. */
  predicate Kept(before: State, after: State, id: string) {
    IsDone(before.receipts, id) ==>
      (id in after.receipts ==> after.receipts[id] == before.receipts[id]) &&
      (after.mode.Replied? && after.mode.call.id == id && !before.mode.Replied? ==>
         after.mode.text == before.receipts[id].result)
  }

  /** While a call executes, its receipt is not finished. */
  predicate Unfinished(s: State) {
    s.mode.InTool? ==> !IsDone(s.receipts, s.mode.call.id)
  }

  lemma UnfinishedKept(tools: Tools, s: State, op: Op)
    requires Unfinished(s)
    ensures Unfinished(Step(tools, s, op))
  {}

  lemma {:induction false} UnfinishedThroughout(tools: Tools, states: seq<State>, ops: seq<Op>, i: nat)
    requires Run(tools, states, ops) && New(states[0]) && i < |states|
    ensures Unfinished(states[i])
  {
    if i > 0 {
      UnfinishedThroughout(tools, states, ops, i - 1);
      UnfinishedKept(tools, states[i - 1], ops[i - 1]);
    }
  }

  /** The next call has the id of a finished receipt of a tool that is safe to repeat, and does not match it. */
  predicate Overwrites(tools: Tools, s: State, op: Op, id: string) {
    && op.Next? && s.mode.Calls? && s.mode.queue != [] && s.status.Active() && s.mode.queue[0].id == id
    && IsDone(s.receipts, id)
    && var c, r := s.mode.queue[0], s.receipts[id];
       r.safe && !(Known(tools, c) && r.name == c.name && r.args == c.args) && r.result != op.error
  }

  /** A finished receipt survives a step, unless a purge takes it, exactly when the step is no such call. */
  lemma DoneSurvivesExactly(tools: Tools, s: State, op: Op, id: string)
    requires Unfinished(s) && IsDone(s.receipts, id) && id in Step(tools, s, op).receipts
    ensures Step(tools, s, op).receipts[id] == s.receipts[id] <==> !Overwrites(tools, s, op, id)
  {}

  /** Receipts never come back once a task has ended. */
  lemma GoneStaysGone(tools: Tools, s: State, op: Op, id: string)
    requires !s.status.Active() && id !in s.receipts
    ensures !Step(tools, s, op).status.Active() && id !in Step(tools, s, op).receipts
  {}

  lemma PurgedHasEnded(tools: Tools, s: State, op: Op, id: string)
    requires id in s.receipts && id !in Step(tools, s, op).receipts
    ensures !Step(tools, s, op).status.Active()
  {}

  /** The receipt stands in the later state as it was, or the task has ended and is purged. */
  predicate Final(before: State, after: State, id: string)
    requires id in before.receipts
  {
    if id in after.receipts then after.receipts[id] == before.receipts[id] else !after.status.Active()
  }

  /** Over any run, with any reuse of ids: a finished receipt keeps its result in every later state, until a purge
      takes it, if no step in between overwrites it. */
  lemma {:induction false} FinalUnlessOverwritten(tools: Tools, states: seq<State>, ops: seq<Op>, i: nat, j: nat,
                                                  id: string)
    requires Run(tools, states, ops) && New(states[0]) && i <= j < |states| && IsDone(states[i].receipts, id)
    requires forall k :: i <= k < j ==> !Overwrites(tools, states[k], ops[k], id)
    ensures Final(states[i], states[j], id)
    decreases j - i
  {
    if i < j {
      FinalUnlessOverwritten(tools, states, ops, i, j - 1, id);
      var s, op := states[j - 1], ops[j - 1];
      if id in s.receipts {
        UnfinishedThroughout(tools, states, ops, j - 1);
        if id in states[j].receipts { DoneSurvivesExactly(tools, s, op, id); } else {
          PurgedHasEnded(tools, s, op, id);
        }
      } else {
        GoneStaysGone(tools, s, op, id);
      }
    }
  }

  /** It stays as it was in all these states exactly when no step overwrites it. */
  lemma DoneReceiptIsFinalExactly(tools: Tools, states: seq<State>, ops: seq<Op>, i: nat, j: nat, id: string)
    requires Run(tools, states, ops) && New(states[0]) && i <= j < |states| && IsDone(states[i].receipts, id)
    ensures (forall m :: i <= m <= j ==> Final(states[i], states[m], id)) <==>
              forall k :: i <= k < j ==> !Overwrites(tools, states[k], ops[k], id)
  {
    if forall k :: i <= k < j ==> !Overwrites(tools, states[k], ops[k], id) {
      forall m | i <= m <= j ensures Final(states[i], states[m], id) {
        FinalUnlessOverwritten(tools, states, ops, i, m, id);
      }
    }
    if forall m :: i <= m <= j ==> Final(states[i], states[m], id) {
      forall k | i <= k < j ensures !Overwrites(tools, states[k], ops[k], id) {
        assert Final(states[i], states[k], id) && Final(states[i], states[k + 1], id);
        UnfinishedThroughout(tools, states, ops, k);
        if IsDone(states[k].receipts, id) && id in states[k + 1].receipts {
          DoneSurvivesExactly(tools, states[k], ops[k], id);
        }
      }
    }
  }

  /** The receipt of an unsafe tool is final once it is done, whatever the provider reuses. */
  lemma UnsafeReceiptIsFinal(tools: Tools, states: seq<State>, ops: seq<Op>, i: nat, j: nat, id: string)
    requires Run(tools, states, ops) && New(states[0]) && i <= j < |states|
    requires IsDone(states[i].receipts, id) && !states[i].receipts[id].safe
    ensures Final(states[i], states[j], id)
    decreases j - i
  {
    if i < j {
      UnsafeReceiptIsFinal(tools, states, ops, i, j - 1, id);
      var s, op := states[j - 1], ops[j - 1];
      if id in s.receipts {
        UnfinishedThroughout(tools, states, ops, j - 1);
        if id in states[j].receipts { DoneSurvivesExactly(tools, s, op, id); } else {
          PurgedHasEnded(tools, s, op, id);
        }
      } else {
        GoneStaysGone(tools, s, op, id);
      }
    }
  }

  // ---- With ids never used before, every finished receipt is final ----

  /** The receipts of open calls were written for these calls. */
  ghost predicate PendingMatch(tools: Tools, receipts: map<string, Receipt>, open: seq<Call>) {
    Distinct(open) && forall i :: 0 <= i < |open| && open[i].id in receipts ==>
      Matches(tools, open[i], receipts[open[i].id])
  }

  ghost predicate Matched(tools: Tools, s: State) {
    InOrder(s) && (s.status.Active() ==> PendingMatch(tools, s.receipts, Open(s.log).value))
  }

  lemma BegunMatch(tools: Tools, receipts: map<string, Receipt>, open: seq<Call>)
    requires PendingMatch(tools, receipts, open) && open != [] && Known(tools, open[0])
    ensures PendingMatch(tools, Begun(tools, receipts, open[0]), open)
  {}

  lemma EndedMatch(tools: Tools, receipts: map<string, Receipt>, open: seq<Call>, id: string, text: string)
    requires PendingMatch(tools, receipts, open)
    ensures PendingMatch(tools, Ended(receipts, id, text), open)
  {}

  lemma NextKeepsMatch(tools: Tools, s: State, error: string)
    requires Matched(tools, s) && s.mode.Calls? && s.mode.queue != [] && s.status.Active()
    ensures Matched(tools, NextSpec(tools, s, error))
  {
    var open, c := s.mode.queue, s.mode.queue[0];
    NextKeepsOrder(tools, s, error);
    OpenAppend(s.log, ToolResult(c.id, SKIPPED));
    EndedMatch(tools, s.receipts, open, c.id, error);
    if Known(tools, c) { BegunMatch(tools, s.receipts, open); }
  }

  lemma LookKeepsMatch(tools: Tools, s: State)
    requires Matched(tools, s) && s.mode.Top? && s.status.Active()
    ensures Matched(tools, LookSpec(s))
  {
    PendingIsOpen(s.log);
    LookKeepsOrder(s);
    if Open(s.log).value == [] { OpenDrained(s.log, s.inbox); }
  }

  lemma ReplyKeepsMatch(tools: Tools, s: State)
    requires Matched(tools, s) && s.mode.Replied?
    ensures Matched(tools, ReplySpec(s))
  {
    ReplyKeepsOrder(s);
    if s.status.Active() { OpenAppend(s.log, ToolResult(s.mode.call.id, Clip(s.mode.text))); }
  }

  lemma RespondKeepsMatch(tools: Tools, s: State, m: Msg)
    requires Matched(tools, s) && s.mode.Asking? && s.status.Active() && FreshIds(s, Respond(m))
    ensures Matched(tools, RespondSpec(s, m))
  {
    RespondKeepsOrder(s, m);
    OpenAppend(s.log, m);
  }

  lemma MatchKept(tools: Tools, s: State, op: Op)
    requires Matched(tools, s) && FreshIds(s, op)
    ensures Matched(tools, Step(tools, s, op))
  {
    match op
    case Look => if s.mode.Top? && s.status.Active() { LookKeepsMatch(tools, s); }
    case Next(error) => if s.mode.Calls? && s.mode.queue != [] && s.status.Active() { NextKeepsMatch(tools, s, error); }
    case End(text) =>
      if s.mode.InTool? && s.status.Active() { EndedMatch(tools, s.receipts, Open(s.log).value, s.mode.call.id, text); }
    case Throw(error) =>
      if s.mode.InTool? && s.status.Active() {
        EndedMatch(tools, s.receipts, Open(s.log).value, s.mode.call.id, error);
      }
    case Reply => if s.mode.Replied? { ReplyKeepsMatch(tools, s); }
    case Compact(summary) =>
      if s.mode.Preparing? && s.status.Active() && |s.log| > 2 { CompactionKeepsOrder(s.log, summary); }
    case Respond(m) => if s.mode.Asking? && s.status.Active() { RespondKeepsMatch(tools, s, m); }
    case _ => OrderKept(tools, s, op);
  }

  lemma {:induction false} MatchThroughout(tools: Tools, states: seq<State>, ops: seq<Op>, i: nat)
    requires FreshRun(tools, states, ops) && New(states[0]) && i < |states|
    ensures Matched(tools, states[i])
  {
    if i > 0 {
      MatchThroughout(tools, states, ops, i - 1);
      MatchKept(tools, states[i - 1], ops[i - 1]);
    } else {
      NewIsOpen(states[0].log);
    }
  }

  lemma DoneKept(tools: Tools, s: State, op: Op, id: string)
    requires Matched(tools, s) && Unfinished(s)
    ensures Kept(s, Step(tools, s, op), id) && !Overwrites(tools, s, op, id)
  {
    if op.Next? && s.mode.Calls? && s.mode.queue != [] && s.status.Active() {
      var c := s.mode.queue[0];
      assert c.id in s.receipts ==> Matches(tools, c, s.receipts[c.id]);
    }
  }

  /** Once a call's receipt is done it keeps its result in every later state of the run, until a purge removes
      it for good. */
  lemma DoneReceiptIsFinal(tools: Tools, states: seq<State>, ops: seq<Op>, i: nat, j: nat, id: string)
    requires FreshRun(tools, states, ops) && New(states[0]) && i <= j < |states|
    requires IsDone(states[i].receipts, id)
    ensures Final(states[i], states[j], id)
  {
    forall k | i <= k < j ensures !Overwrites(tools, states[k], ops[k], id) {
      MatchThroughout(tools, states, ops, k);
      UnfinishedThroughout(tools, states, ops, k);
      DoneKept(tools, states[k], ops[k], id);
    }
    FinalUnlessOverwritten(tools, states, ops, i, j, id);
  }

  // ---- A provider that reuses an id ----

  /** A finished receipt is overwritten by the error of a later call with its id exactly when the tool it named was
      safe to repeat and the new call does not match it. */
  lemma ReusedIdOverwrites(tools: Tools, s: State, error: string)
    requires s.mode.Calls? && s.mode.queue != [] && s.status.Active() && IsDone(s.receipts, s.mode.queue[0].id)
    requires s.receipts[s.mode.queue[0].id].result != error
    ensures var c := s.mode.queue[0]; var r := s.receipts[c.id];
            Step(tools, s, Next(error)).receipts[c.id] == r <==>
            !r.safe || (Known(tools, c) && r.name == c.name && r.args == c.args)
  {}

  const READER := Tools(map["read" := true], (name: string, args: string) => true)
  const TWICE := Assistant("", [Call("x", "read", "1"), Call("x", "read", "2")])
  const LOG2 := [System("rules"), User("task")]
  const NEW_TASK := State(LOG2, [], map[], Queued, Idle, true, [])
  const READ1 := Receipt.Receipt("read", "1", true, "one", true)

  lemma Extend(tools: Tools, states: seq<State>, ops: seq<Op>, op: Op) returns (more: seq<State>, then_: seq<Op>)
    requires Run(tools, states, ops)
    ensures more == states + [Step(tools, states[|ops|], op)] && then_ == ops + [op] && Run(tools, more, then_)
  {
    more, then_ := states + [Step(tools, states[|ops|], op)], ops + [op];
  }

  /** Up to the model's answer. */
  lemma AskedOnce() returns (states: seq<State>, ops: seq<Op>)
    ensures Run(READER, states, ops) && |ops| == 4 && states[0] == NEW_TASK
    ensures states[4] == NEW_TASK.(log := LOG2 + [TWICE], status := Running, mode := Top)
  {
    states, ops := [NEW_TASK], [];
    states, ops := Extend(READER, states, ops, Start);
    NoCalls(LOG2);
    assert Drained(LOG2, []) == LOG2;
    states, ops := Extend(READER, states, ops, Look);
    states, ops := Extend(READER, states, ops, Request);
    states, ops := Extend(READER, states, ops, Respond(TWICE));
  }

  lemma NoCalls(log: seq<Msg>)
    requires log == LOG2
    ensures PendingCalls(log) == []
  {
    assert log[..1] == [log[0]] && [log[0]][..0] == [];
    assert LastCalls([log[0]]) == [];
  }

  lemma BothPending(log: seq<Msg>)
    requires log == LOG2 + [TWICE]
    ensures PendingCalls(log) == TWICE.calls
  {
    assert LastCalls(log) == TWICE.calls;
    assert forall id :: !HasResult(log, id);
    NoneAnswered(TWICE.calls, log);
  }

  /** A response with two calls of one id: the second call overwrites the finished receipt of the first. */
  lemma OverwriteRun() returns (states: seq<State>, ops: seq<Op>)
    ensures Run(READER, states, ops) && New(states[0]) && |ops| == 9
    ensures "x" in states[8].receipts && states[8].receipts["x"] == READ1
    ensures "x" in states[9].receipts && states[9].receipts["x"] == READ1.(result := "mismatch")
  {
    states, ops := AskedOnce();
    BothPending(states[4].log);
    states, ops := Extend(READER, states, ops, Look);
    assert states[5] == states[4].(mode := Calls(TWICE.calls));
    states, ops := Extend(READER, states, ops, Next(""));
    states, ops := Extend(READER, states, ops, End("one"));
    states, ops := Extend(READER, states, ops, Reply);
    states, ops := Extend(READER, states, ops, Next("mismatch"));
  }

  // ---- The run as it updates the task row, the receipts and its own position ----

  class Runner {
    const tools: Tools
    var s: State

    constructor (tools: Tools, s: State)
      ensures this.tools == tools && this.s == s
    {
      this.tools := tools;
      this.s := s;
    }

    /** `execute` refused the call, or the tool threw. */
    method OnError(c: Call, rest: seq<Call>, error: string)
      modifies this
      ensures s == Thrown(old(s), c, rest, error)
    {
      if c.id in s.receipts {
        if !s.receipts[c.id].safe {
          if s.status.Active() { s := s.(status := Failed); }
          s := s.(mode := Idle);
          return;
        }
        s := s.(receipts := s.receipts[c.id := s.receipts[c.id].(done := true, result := error)]);
      }
      s := s.(mode := Replied(c, rest, error));
    }

    method ExecuteNext(error: string)
      requires s.mode.Calls? && s.mode.queue != [] && s.status.Active()
      modifies this
      ensures s == Step(tools, old(s), Next(error))
      ensures s.effects == old(s).effects
      // a finished receipt is never executed again, and answers the call it was written for
      ensures IsDone(old(s).receipts, old(s).mode.queue[0].id) ==> !s.mode.InTool?
      ensures var c := old(s).mode.queue[0];
              IsDone(old(s).receipts, c.id) && Matches(tools, c, old(s).receipts[c.id]) ==>
                s == old(s).(mode := Replied(c, old(s).mode.queue[1..], old(s).receipts[c.id].result))
      // a call of an unsafe tool that was begun and not finished ends the task
      ensures var c := old(s).mode.queue[0];
              c.id in old(s).receipts && !old(s).receipts[c.id].done && !old(s).receipts[c.id].safe
              && !(c.name in tools.safe && tools.safe[c.name]) ==>
                s.mode.Idle? && s.status.Failed?
      // what is executed is the call at the head, with an unfinished receipt written before
      ensures s.mode.InTool? ==>
              var c := old(s).mode.queue[0];
              s.mode.call == c && Known(tools, c) && c.id in s.receipts && !s.receipts[c.id].done
              && s.receipts[c.id].name == c.name && s.receipts[c.id].args == c.args
      // at most one result is appended, that the call at the head was skipped for new messages
      ensures s.log == old(s).log
              || (old(s).inbox != [] && s.log == old(s).log + [ToolResult(old(s).mode.queue[0].id, SKIPPED)])
    {
      var c, rest := s.mode.queue[0], s.mode.queue[1..];
      if s.inbox != [] && c.id !in s.receipts {
        s := s.(log := s.log + [ToolResult(c.id, SKIPPED)]);
        s := s.(mode := if rest == [] then Top else Calls(rest));
        return;
      }
      if c.name !in tools.safe || !tools.accepts(c.name, c.args) {
        OnError(c, rest, error);
        return;
      }
      if c.id in s.receipts {
        var prior := s.receipts[c.id];
        if prior.name != c.name || prior.args != c.args {
          OnError(c, rest, error);
          return;
        }
        if prior.done {
          s := s.(mode := Replied(c, rest, prior.result));
          return;
        }
        if !tools.safe[c.name] {
          OnError(c, rest, error);
          return;
        }
      } else {
        s := s.(receipts := s.receipts[c.id := Receipt.Receipt(c.name, c.args, false, "", tools.safe[c.name])]);
      }
      s := s.(mode := InTool(c, rest, false));
    }

    method SaveResult()
      requires s.mode.Replied?
      modifies this
      ensures s == Step(tools, old(s), Reply)
      ensures InOrder(old(s)) ==> InOrder(s)
      ensures s.mode.Calls? || s.mode.Top? ==> s.status.Running? && |s.log| == |old(s).log| + 1
    {
      if InOrder(s) { ReplyKeepsOrder(s); }
      var c, rest, text := s.mode.call, s.mode.rest, s.mode.text;
      if s.status.Cancelled? {
        s := s.(mode := Idle);
        return;
      }
      s := s.(log := s.log + [ToolResult(c.id, if |text| > LONGEST then text[..LONGEST] else text)]);
      if !s.status.Running? {
        s := s.(mode := Idle);
      } else if rest == [] {
        s := s.(mode := Top);
      } else {
        s := s.(mode := Calls(rest));
      }
    }

    /** The top of the loop: collect the calls without a result, or take in the messages and turn to the model. */
    method LookForWork()
      requires s.mode.Top? && s.status.Active()
      modifies this
      ensures s == Step(tools, old(s), Look)
    {
      var pending := FindPending(s.log);
      if pending != [] {
        s := s.(mode := Calls(pending));
      } else {
        var log, inbox := s.log, s.inbox;
        for i := 0 to |inbox|
          invariant s == old(s).(log := Drained(log, inbox[..i]))
        {
          s := s.(log := s.log + [User(inbox[i])]);
        }
        assert inbox[..|inbox|] == inbox;
        s := s.(inbox := [], mode := Preparing);
      }
    }

    /** Replace all but the instructions and the last turn by a summary. */
    method CompactLog(summary: string)
      requires s.mode.Preparing? && s.status.Active() && |s.log| > 2
      modifies this
      ensures s == Step(tools, old(s), Compact(summary))
      ensures InOrder(old(s)) ==> InOrder(s) && Paired(s.log)
    {
      if InOrder(s) { CompactionKeepsOrder(s.log, summary); }
      var t := FindTail(s.log);
      s := s.(log := s.log[..2] + [User(summary)] + s.log[t..]);
    }

    method TakeResponse(m: Msg)
      requires s.mode.Asking? && s.status.Active()
      modifies this
      ensures s == Step(tools, old(s), Respond(m))
      ensures InOrder(old(s)) && FreshCalls(old(s), Respond(m)) ==> InOrder(s)
      // an answer to a log that lacks new messages is dropped
      ensures old(s).inbox != [] ==> s.log == old(s).log && s.mode.Top?
    {
      if InOrder(s) && FreshCalls(s, Respond(m)) { RespondKeepsOrder(s, m); }
      if s.inbox != [] {
        s := s.(mode := Top);
        return;
      }
      if !m.Assistant? {
        s := s.(status := Failed, mode := Idle);
        return;
      }
      s := s.(log := s.log + [m]);
      if m.calls == [] {
        s := s.(status := Abstained);
        s := s.(mode := Idle);
      } else {
        s := s.(mode := Top);
      }
    }
  }

  method FindLastCalls(log: seq<Msg>) returns (calls: seq<Call>)
    ensures calls == LastCalls(log)
  {
    var i := |log|;
    assert log[..i] == log;
    while i > 0
      invariant 0 <= i <= |log|
      invariant LastCalls(log[..i]) == LastCalls(log)
    {
      if log[i - 1].Assistant? { return log[i - 1].calls; }
      assert log[..i][..i - 1] == log[..i - 1];
      i := i - 1;
    }
    calls := [];
  }

  lemma {:induction false} UnansweredStep(calls: seq<Call>, log: seq<Msg>, k: nat)
    requires k < |calls|
    ensures Unanswered(calls[..k + 1], log)
         == Unanswered(calls[..k], log) + if HasResult(log, calls[k].id) then [] else [calls[k]]
  {
    if k == 0 {
      assert calls[..1][1..] == [];
    } else {
      UnansweredStep(calls[1..], log, k - 1);
      assert calls[..k + 1][1..] == calls[1..][..k] && calls[..k][1..] == calls[1..][..k - 1];
    }
  }

  method FindPending(log: seq<Msg>) returns (pending: seq<Call>)
    ensures pending == PendingCalls(log)
  {
    var calls := FindLastCalls(log);
    pending := [];
    for k := 0 to |calls|
      invariant pending == Unanswered(calls[..k], log)
    {
      UnansweredStep(calls, log, k);
      if !HasResult(log, calls[k].id) { pending := pending + [calls[k]]; }
    }
    assert calls[..|calls|] == calls;
  }
}
