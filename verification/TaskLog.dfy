/** A task's message log: which tool calls await a result, what makes the log fit to send to a model, and the
    compaction that shortens it. */
module TaskLog {
  import opened Evidence

  datatype Call = Call(id: string, name: string, args: string)

  datatype Msg =
    | System(text: string)
    | User(text: string)
    | Assistant(text: string, calls: seq<Call>)
    | ToolResult(id: string, text: string)

  predicate IsResult(m: Msg, id: string) {
    m.ToolResult? && m.id == id
  }

  predicate HasResult(log: seq<Msg>, id: string) {
    exists i :: 0 <= i < |log| && IsResult(log[i], id)
  }

  /** The calls of the last assistant message. */
  function LastCalls(log: seq<Msg>): seq<Call> {
    if log == [] then []
    else if log[|log| - 1].Assistant? then log[|log| - 1].calls
    else LastCalls(log[..|log| - 1])
  }

  function Unanswered(calls: seq<Call>, log: seq<Msg>): seq<Call> {
    if calls == [] then []
    else (if HasResult(log, calls[0].id) then [] else [calls[0]]) + Unanswered(calls[1..], log)
  }

  /** What `run` has to execute before it may ask the model again. */
  function PendingCalls(log: seq<Msg>): seq<Call> {
    Unanswered(LastCalls(log), log)
  }

  // ---- Well-formed logs ----

  predicate Distinct(calls: seq<Call>) {
    forall i, j :: 0 <= i < j < |calls| ==> calls[i].id != calls[j].id
  }

  /** No id of these calls is used twice or was answered before. */
  predicate Unused(calls: seq<Call>, log: seq<Msg>) {
    Distinct(calls) && forall i :: 0 <= i < |calls| ==> !HasResult(log, calls[i].id)
  }

  /** Read a log from the start: the calls still open at its end, or `None` if it is out of order. */
  function Open(log: seq<Msg>): Option<seq<Call>> {
    if log == [] then Some([])
    else
      var front, last := log[..|log| - 1], log[|log| - 1];
      var open := Open(front);
      if open.None? then None
      else match last
        case Assistant(_, calls) => if open.value == [] && Unused(calls, front) then Some(calls) else None
        case ToolResult(id, _) => if open.value != [] && open.value[0].id == id then Some(open.value[1..]) else None
        case _ => if open.value == [] then Some([]) else None
  }

  /** No assistant message lies strictly between two positions. */
  predicate SameTurn(log: seq<Msg>, i: int, j: int) {
    0 <= i < j < |log| && forall k :: i < k < j ==> !log[k].Assistant?
  }

  /** The one result with an id in the whole log. */
  predicate OnlyResult(log: seq<Msg>, j: int, id: string) {
    0 <= j < |log| && IsResult(log[j], id) && forall k :: 0 <= k < |log| && k != j ==> !IsResult(log[k], id)
  }

  ghost predicate AnsweredOnce(log: seq<Msg>, i: int, id: string) {
    exists j :: SameTurn(log, i, j) && OnlyResult(log, j, id)
  }

  predicate IsCall(log: seq<Msg>, i: int, c: Call) {
    0 <= i < |log| && log[i].Assistant? && c in log[i].calls
  }

  /** Every tool call has exactly one result in the whole log, after it and before the next assistant message. */
  ghost predicate Paired(log: seq<Msg>) {
    forall i, c :: IsCall(log, i, c) ==> AnsweredOnce(log, i, c.id)
  }

  predicate LastTurn(log: seq<Msg>, i: int) {
    0 <= i < |log| && log[i].Assistant? && forall k :: i < k < |log| ==> !log[k].Assistant?
  }

  /** As `Paired`, but for calls of the last assistant message that are still open and have no result yet. */
  ghost predicate PairedBut(log: seq<Msg>, open: seq<Call>) {
    && (forall i, c :: IsCall(log, i, c) ==> AnsweredOnce(log, i, c.id) || (c in open && LastTurn(log, i)))
    && (forall c :: c in open ==> !HasResult(log, c.id))
    && Distinct(open)
    && (open != [] ==> exists i :: LastTurn(log, i))
  }

  lemma AnswerKept(log: seq<Msg>, m: Msg, i: int, id: string)
    requires AnsweredOnce(log, i, id) && !IsResult(m, id)
    ensures AnsweredOnce(log + [m], i, id)
  {
    var j :| SameTurn(log, i, j) && OnlyResult(log, j, id);
    assert SameTurn(log + [m], i, j) && OnlyResult(log + [m], j, id);
  }

  /** A log that reads in order pairs every call, but for those open at its end. */
  lemma {:induction false} OpenPairs(log: seq<Msg>)
    requires Open(log).Some?
    ensures PairedBut(log, Open(log).value)
    decreases |log|
  {
    if log != [] {
      var front, last := log[..|log| - 1], log[|log| - 1];
      OpenPairs(front);
      OpenStep(front, last, Open(front).value, Open(log).value);
      assert log == front + [last];
    }
  }

  lemma OpenStep(front: seq<Msg>, last: Msg, before: seq<Call>, after: seq<Call>)
    requires PairedBut(front, before)
    requires match last
             case Assistant(_, calls) => before == [] && Unused(calls, front) && after == calls
             case ToolResult(id, _) => before != [] && before[0].id == id && after == before[1..]
             case _ => before == [] && after == []
    ensures PairedBut(front + [last], after)
  {
    match last
    case Assistant(_, _) => OpenAssistant(front, last);
    case ToolResult(_, _) => OpenResult(front, last, before);
    case _ => OpenText(front, last);
  }

  lemma OpenText(front: seq<Msg>, last: Msg)
    requires PairedBut(front, []) && !last.Assistant? && !last.ToolResult?
    ensures PairedBut(front + [last], [])
  {
    forall i, c | IsCall(front + [last], i, c) ensures AnsweredOnce(front + [last], i, c.id) {
      assert IsCall(front, i, c);
      AnswerKept(front, last, i, c.id);
    }
  }

  lemma OpenAssistant(front: seq<Msg>, last: Msg)
    requires PairedBut(front, []) && last.Assistant? && Unused(last.calls, front)
    ensures PairedBut(front + [last], last.calls)
  {
    var log := front + [last];
    assert LastTurn(log, |front|);
    forall i, c | IsCall(log, i, c) ensures AnsweredOnce(log, i, c.id) || (c in last.calls && LastTurn(log, i)) {
      if i < |front| {
        assert IsCall(front, i, c);
        AnswerKept(front, last, i, c.id);
      }
    }
    forall c | c in last.calls ensures !HasResult(log, c.id) {
      var k :| 0 <= k < |last.calls| && last.calls[k] == c;
      HasResultStep(front, last, c.id);
    }
  }

  lemma OpenResult(front: seq<Msg>, last: Msg, before: seq<Call>)
    requires PairedBut(front, before) && last.ToolResult? && before != [] && before[0].id == last.id
    ensures PairedBut(front + [last], before[1..])
  {
    var log := front + [last];
    var t :| LastTurn(front, t);
    assert LastTurn(log, t);
    forall i, c | IsCall(log, i, c) ensures AnsweredOnce(log, i, c.id) || (c in before[1..] && LastTurn(log, i)) {
      assert IsCall(front, i, c);
      ResultCall(front, last, before, i, c);
    }
    forall c | c in before[1..] ensures !HasResult(log, c.id) {
      var k :| 1 <= k < |before| && before[k] == c;
      HasResultStep(front, last, c.id);
    }
  }

  lemma ResultCall(front: seq<Msg>, last: Msg, before: seq<Call>, i: int, c: Call)
    requires PairedBut(front, before) && last.ToolResult? && before != [] && before[0].id == last.id
        && IsCall(front, i, c)
    ensures AnsweredOnce(front + [last], i, c.id) || (c in before[1..] && LastTurn(front + [last], i))
  {
    assert !HasResult(front, before[0].id);
    if AnsweredOnce(front, i, c.id) {
      AnswerKept(front, last, i, c.id);
    } else if c == before[0] {
      assert SameTurn(front + [last], i, |front|);
      forall k | 0 <= k < |front| ensures !IsResult(front[k], c.id) {}
      assert OnlyResult(front + [last], |front|, c.id);
    }
  }

  lemma BalancedIsPaired(log: seq<Msg>)
    requires Open(log) == Some([])
    ensures Paired(log)
  {
    OpenPairs(log);
  }

  lemma {:induction false} LastCallsIs(log: seq<Msg>, i: int)
    requires LastTurn(log, i)
    ensures LastCalls(log) == log[i].calls
    decreases |log|
  {
    if i < |log| - 1 { LastCallsIs(log[..|log| - 1], i); }
  }

  /** In a log that reads in order, what is pending is what is open. */
  lemma {:induction false} PendingIsOpen(log: seq<Msg>)
    requires Open(log).Some?
    ensures PendingCalls(log) == Open(log).value
    decreases |log|
  {
    if log != [] {
      var front, last := log[..|log| - 1], log[|log| - 1];
      assert log == front + [last];
      PendingIsOpen(front);
      OpenPairs(log);
      match last
      case Assistant(_, calls) => NoneAnswered(calls, log);
      case ToolResult(id, _) =>
        OpenPairs(front);
        AnswerFirst(LastCalls(front), front, last);
      case _ => SameAnswers(LastCalls(front), front, last);
    }
  }

  lemma {:induction false} NoneAnswered(calls: seq<Call>, log: seq<Msg>)
    requires forall c :: c in calls ==> !HasResult(log, c.id)
    ensures Unanswered(calls, log) == calls
  {
    if calls != [] {
      assert calls[0] in calls;
      NoneAnswered(calls[1..], log);
    }
  }

  lemma HasResultStep(log: seq<Msg>, m: Msg, id: string)
    ensures HasResult(log + [m], id) <==> HasResult(log, id) || IsResult(m, id)
  {
    if HasResult(log, id) {
      var i :| 0 <= i < |log| && IsResult(log[i], id);
      assert IsResult((log + [m])[i], id);
    }
    if IsResult(m, id) { assert IsResult((log + [m])[|log|], id); }
  }

  lemma {:induction false} SameAnswers(calls: seq<Call>, log: seq<Msg>, m: Msg)
    requires !m.ToolResult?
    ensures Unanswered(calls, log + [m]) == Unanswered(calls, log)
  {
    if calls != [] {
      HasResultStep(log, m, calls[0].id);
      SameAnswers(calls[1..], log, m);
    }
  }

  /** Answering the first of the pending calls leaves the others pending. */
  lemma {:induction false} AnswerFirst(calls: seq<Call>, log: seq<Msg>, m: Msg)
    requires m.ToolResult? && Unanswered(calls, log) != [] && Unanswered(calls, log)[0].id == m.id
    requires Distinct(Unanswered(calls, log))
    ensures Unanswered(calls, log + [m]) == Unanswered(calls, log)[1..]
  {
    HasResultStep(log, m, calls[0].id);
    if HasResult(log, calls[0].id) {
      assert Unanswered(calls, log) == Unanswered(calls[1..], log);
      AnswerFirst(calls[1..], log, m);
    } else {
      assert Unanswered(calls, log)[1..] == Unanswered(calls[1..], log);
      forall i | 0 <= i < |Unanswered(calls[1..], log)| ensures Unanswered(calls[1..], log)[i].id != m.id {
        assert Unanswered(calls, log)[i + 1] == Unanswered(calls[1..], log)[i];
      }
      OtherAnswers(calls[1..], log, m);
    }
  }

  lemma {:induction false} OtherAnswers(calls: seq<Call>, log: seq<Msg>, m: Msg)
    requires m.ToolResult? && forall i :: 0 <= i < |Unanswered(calls, log)| ==> Unanswered(calls, log)[i].id != m.id
    ensures Unanswered(calls, log + [m]) == Unanswered(calls, log)
  {
    if calls != [] {
      HasResultStep(log, m, calls[0].id);
      var rest := Unanswered(calls[1..], log);
      if HasResult(log, calls[0].id) {
        assert Unanswered(calls, log) == rest;
      } else {
        assert Unanswered(calls, log)[0] == calls[0] && Unanswered(calls, log)[1..] == rest;
        forall i | 0 <= i < |rest| ensures rest[i].id != m.id { assert Unanswered(calls, log)[i + 1] == rest[i]; }
      }
      OtherAnswers(calls[1..], log, m);
    }
  }

  // ---- Exactly which responses keep the log paired ----

  function Results(calls: seq<Call>): seq<Msg> {
    seq(|calls|, i requires 0 <= i < |calls| => ToolResult(calls[i].id, ""))
  }

  /** A response appended, and every call then pending executed in order. */
  function AfterTurn(log: seq<Msg>, m: Msg): seq<Msg> {
    log + [m] + Results(PendingCalls(log + [m]))
  }

  /** A response leaves a paired log exactly when its call ids are distinct and none was answered before: a
      provider that reuses an id leaves a call without a result of its own, or with two. */
  lemma ResponseKeepsPairing(log: seq<Msg>, m: Msg)
    requires Open(log) == Some([]) && m.Assistant?
    ensures Paired(AfterTurn(log, m)) <==> Unused(m.calls, log)
  {
    assert (log + [m])[..|log|] == log;
    if Unused(m.calls, log) {
      assert Open(log + [m]) == Some(m.calls);
      PendingIsOpen(log + [m]);
      ResultsClose(log + [m], m.calls);
      BalancedIsPaired(AfterTurn(log, m));
    } else {
      ReuseBreaksPairing(log, m);
    }
  }

  /** Two calls of one response with the same id: one result cannot answer both. */
  lemma DuplicateIdsBreakPairing()
    ensures !Paired(AfterTurn([System("rules"), User("task")],
                              Assistant("", [Call("x", "read", "1"), Call("x", "read", "2")])))
  {
    var log, m := [System("rules"), User("task")], Assistant("", [Call("x", "read", "1"), Call("x", "read", "2")]);
    assert log[..1] == [log[0]] && [log[0]][..0] == [];
    assert Open([log[0]]) == Some([]);
    assert m.calls[0].id == m.calls[1].id;
    ResponseKeepsPairing(log, m);
  }

  lemma {:induction false} ResultsClose(log: seq<Msg>, calls: seq<Call>)
    requires Open(log) == Some(calls)
    ensures Open(log + Results(calls)) == Some([])
    decreases |calls|
  {
    if calls == [] {
      assert log + Results(calls) == log;
    } else {
      var r := ToolResult(calls[0].id, "");
      assert (log + [r])[..|log|] == log;
      ResultsClose(log + [r], calls[1..]);
      assert log + Results(calls) == log + [r] + Results(calls[1..]);
    }
  }

  lemma {:induction false} UnansweredOnly(calls: seq<Call>, log: seq<Msg>, c: Call)
    ensures c in Unanswered(calls, log) <==> c in calls && !HasResult(log, c.id)
  {
    if calls != [] { UnansweredOnly(calls[1..], log, c); }
  }

  lemma ReuseBreaksPairing(log: seq<Msg>, m: Msg)
    requires m.Assistant? && !Unused(m.calls, log)
    ensures !Paired(AfterTurn(log, m))
  {
    if k :| 0 <= k < |m.calls| && HasResult(log, m.calls[k].id) {
      AnsweredBefore(log, m, m.calls[k]);
    } else {
      var a, b :| 0 <= a < b < |m.calls| && m.calls[a].id == m.calls[b].id;
      AnsweredTwice(log, m, a, b);
    }
  }

  /** A call whose id already has a result gets none of its own. */
  lemma AnsweredBefore(log: seq<Msg>, m: Msg, c: Call)
    requires m.Assistant? && c in m.calls && HasResult(log, c.id)
    ensures !Paired(AfterTurn(log, m))
  {
    var full := AfterTurn(log, m);
    var x :| 0 <= x < |log| && IsResult(log[x], c.id);
    assert IsResult(full[x], c.id);
    assert IsCall(full, |log|, c);
    forall j | SameTurn(full, |log|, j) ensures !OnlyResult(full, j, c.id) {}
    assert !AnsweredOnce(full, |log|, c.id);
  }

  /** Two calls with one id get two results. */
  lemma AnsweredTwice(log: seq<Msg>, m: Msg, a: nat, b: nat)
    requires m.Assistant? && a < b < |m.calls| && m.calls[a].id == m.calls[b].id && !HasResult(log, m.calls[a].id)
    ensures !Paired(AfterTurn(log, m))
  {
    var full, sent, pending, id := AfterTurn(log, m), log + [m], PendingCalls(log + [m]), m.calls[a].id;
    HasResultStep(log, m, id);
    var p, q := DuplicatesStay(m.calls, sent, a, b);
    assert IsResult(full[|sent| + p], id) && IsResult(full[|sent| + q], id);
    assert IsCall(full, |log|, m.calls[a]);
    forall j ensures !OnlyResult(full, j, id) {}
    assert !AnsweredOnce(full, |log|, id);
  }

  lemma {:induction false} DuplicatesStay(calls: seq<Call>, log: seq<Msg>, a: nat, b: nat) returns (p: nat, q: nat)
    requires a < b < |calls| && calls[a].id == calls[b].id && !HasResult(log, calls[a].id)
    ensures p < q < |Unanswered(calls, log)|
    ensures Unanswered(calls, log)[p].id == calls[a].id && Unanswered(calls, log)[q].id == calls[a].id
    decreases |calls|
  {
    var rest, all := Unanswered(calls[1..], log), Unanswered(calls, log);
    if a == 0 {
      assert calls[b] == calls[1..][b - 1];
      UnansweredOnly(calls[1..], log, calls[b]);
      var i :| 0 <= i < |rest| && rest[i] == calls[b];
      assert all == [calls[0]] + rest;
      p, q := 0, i + 1;
    } else {
      assert calls[1..][a - 1] == calls[a] && calls[1..][b - 1] == calls[b];
      p, q := DuplicatesStay(calls[1..], log, a - 1, b - 1);
      if !HasResult(log, calls[0].id) {
        assert all == [calls[0]] + rest;
        p, q := p + 1, q + 1;
      } else {
        assert all == rest;
      }
    }
  }

  // ---- Compaction ----

  /** The last assistant message after the first three, or the end. */
  function TailStart(log: seq<Msg>, from: nat): (t: nat)
    requires from < |log|
    ensures t <= |log| && (t == |log| || (t > 2 && log[t].Assistant?))
  {
    if from <= 2 then |log| else if log[from].Assistant? then from else TailStart(log, from - 1)
  }

  function Compacted(log: seq<Msg>, summary: string): seq<Msg>
    requires |log| > 2
  {
    log[..2] + [User(summary)] + log[TailStart(log, |log| - 1)..]
  }

  lemma {:induction false} OpenPrefix(log: seq<Msg>, i: nat)
    requires Open(log).Some? && i <= |log|
    ensures Open(log[..i]).Some?
    ensures i < |log| && log[i].Assistant? ==> Open(log[..i]) == Some([])
    decreases |log|
  {
    if i < |log| {
      var front := log[..|log| - 1];
      if i < |front| {
        assert log[..i] == front[..i];
        OpenPrefix(front, i);
      }
    } else {
      assert log[..i] == log;
    }
  }

  /** A log that reads in order still does when a closed stretch before an assistant message is replaced. */
  lemma {:induction false} OpenSuffix(a: seq<Msg>, b: seq<Msg>, tail: seq<Msg>)
    requires Open(a) == Some([]) && Open(b) == Some([]) && Open(a + tail).Some?
    requires forall i :: 0 <= i < |b| ==> !b[i].ToolResult?
    ensures Open(b + tail) == Open(a + tail)
    decreases |tail|
  {
    if tail == [] {
      assert a + tail == a && b + tail == b;
    } else {
      var front, m := tail[..|tail| - 1], tail[|tail| - 1];
      Snoc(a, tail);
      Snoc(b, tail);
      OpenSuffix(a, b, front);
      forall id | HasResult(b + front, id) ensures HasResult(a + front, id) { SuffixResult(a, b, front, id); }
    }
  }

  lemma Snoc(a: seq<Msg>, tail: seq<Msg>)
    requires tail != []
    ensures a + tail == a + tail[..|tail| - 1] + [tail[|tail| - 1]]
  {}

  lemma SuffixResult(a: seq<Msg>, b: seq<Msg>, tail: seq<Msg>, id: string)
    requires forall i :: 0 <= i < |b| ==> !b[i].ToolResult?
    ensures HasResult(b + tail, id) ==> HasResult(a + tail, id)
  {
    if HasResult(b + tail, id) {
      var k :| 0 <= k < |b + tail| && IsResult((b + tail)[k], id);
      assert IsResult((a + tail)[k - |b| + |a|], id);
    }
  }

  /** Compacting a log that is fit to send leaves it fit to send. */
  lemma CompactionKeepsOrder(log: seq<Msg>, summary: string)
    requires |log| > 2 && Open(log) == Some([]) && log[0].System? && log[1].User?
    ensures Open(Compacted(log, summary)) == Some([])
    ensures Paired(Compacted(log, summary))
  {
    CompactionKeepsOpen(log, summary);
    BalancedIsPaired(Compacted(log, summary));
  }

  lemma CompactionKeepsOpen(log: seq<Msg>, summary: string)
    requires |log| > 2 && Open(log) == Some([]) && log[0].System? && log[1].User?
    ensures Open(Compacted(log, summary)) == Some([])
  {
    ReplaceHead(log, TailStart(log, |log| - 1), log[0], log[1], User(summary));
    FirstTwo(log, User(summary));
  }

  lemma FirstTwo(log: seq<Msg>, m: Msg)
    requires |log| >= 2
    ensures log[..2] + [m] == [log[0], log[1], m]
  {}

  lemma ReplaceHead(log: seq<Msg>, t: nat, a: Msg, b: Msg, c: Msg)
    requires Open(log) == Some([]) && (t == |log| || (t < |log| && log[t].Assistant?))
    requires !a.Assistant? && !a.ToolResult? && !b.Assistant? && !b.ToolResult? && !c.Assistant? && !c.ToolResult?
    ensures Open([a, b, c] + log[t..]) == Some([])
  {
    HeadOpen(a, b, c);
    OpenPrefix(log, t);
    if t == |log| { assert log[..t] == log; }
    assert log == log[..t] + log[t..];
    OpenSuffix(log[..t], [a, b, c], log[t..]);
  }

  lemma HeadOpen(a: Msg, b: Msg, c: Msg)
    requires !a.Assistant? && !a.ToolResult? && !b.Assistant? && !b.ToolResult? && !c.Assistant? && !c.ToolResult?
    ensures Open([a, b, c]) == Some([])
  {
    assert [a][..0] == [] && [a, b][..1] == [a] && [a, b, c][..2] == [a, b];
    assert Open([a]) == Some([]);
    assert Open([a, b]) == Some([]);
  }

  /** The loop that looks for the start of the tail. */
  method FindTail(log: seq<Msg>) returns (t: nat)
    requires |log| > 2
    ensures t == TailStart(log, |log| - 1)
  {
    t := |log| - 1;
    while t > 2 && !log[t].Assistant?
      invariant t < |log|
      invariant TailStart(log, t) == TailStart(log, |log| - 1)
    {
      t := t - 1;
    }
    if t <= 2 {
      t := |log|;
    }
  }

  // ---- What the provider is sent ----

  datatype Item = Input(role: string, text: string) | FunctionCall(id: string) | FunctionOutput(id: string)

  function CallItems(calls: seq<Call>): (r: seq<Item>)
    ensures |r| == |calls| && forall i :: 0 <= i < |calls| ==> r[i] == FunctionCall(calls[i].id)
  {
    seq(|calls|, i requires 0 <= i < |calls| => FunctionCall(calls[i].id))
  }

  function MsgItems(m: Msg): seq<Item> {
    match m
    case System(text) => if text != "" then [Input("system", text)] else []
    case User(text) => if text != "" then [Input("user", text)] else []
    case Assistant(text, calls) => (if text != "" then [Input("assistant", text)] else []) + CallItems(calls)
    case ToolResult(id, _) => [FunctionOutput(id)]
  }

  function ProviderInput(log: seq<Msg>): seq<Item> {
    if log == [] then [] else ProviderInput(log[..|log| - 1]) + MsgItems(log[|log| - 1])
  }

  lemma {:induction false} OpenCallsSent(log: seq<Msg>, c: Call)
    requires Open(log).Some? && c in Open(log).value
    ensures FunctionCall(c.id) in ProviderInput(log)
    decreases |log|
  {
    var front, last := log[..|log| - 1], log[|log| - 1];
    if last.Assistant? {
      var k :| 0 <= k < |last.calls| && last.calls[k] == c;
      assert CallItems(last.calls)[k] == FunctionCall(c.id);
      assert FunctionCall(c.id) in MsgItems(last);
    } else {
      OpenCallsSent(front, c);
    }
  }

  /** Every output the provider reads follows the call it answers. */
  lemma {:induction false} OutputsFollowCalls(log: seq<Msg>, j: nat) returns (i: nat)
    requires Open(log).Some? && j < |ProviderInput(log)| && ProviderInput(log)[j].FunctionOutput?
    ensures i < j && ProviderInput(log)[i] == FunctionCall(ProviderInput(log)[j].id)
    decreases |log|
  {
    var front, last := log[..|log| - 1], log[|log| - 1];
    var before := ProviderInput(front);
    assert ProviderInput(log) == before + MsgItems(last);
    if j < |before| {
      i := OutputsFollowCalls(front, j);
    } else {
      var item := MsgItems(last)[j - |before|];
      assert last.ToolResult?;
      OpenCallsSent(front, Open(front).value[0]);
      i :| 0 <= i < |before| && before[i] == FunctionCall(item.id);
    }
  }
}
