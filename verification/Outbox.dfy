/** The transactional outbox between the memory service and the agent: requests can be lost, delayed past a
    retry, delivered again, or cut by a restart of either side. */
module Outbox {
  import opened Evidence
  import opened Cascade
  import opened LedgerOps
  import opened LedgerSafety
  import opened Derivations
  import opened Intake
  import LedgerFindings
  import LedgerRuns

  const MAX_ROWS: nat := 32
  const MAX_BYTES: nat := 800000

  // ---- Which rows one request carries ----

  /** The undelivered rows among the first `n`, in order. */
  function Undelivered(n: nat, delivered: set<nat>): seq<nat> {
    if n == 0 then [] else Undelivered(n - 1, delivered) + if n - 1 in delivered then [] else [n - 1]
  }

  function Limited(rows: seq<nat>): seq<nat> {
    if |rows| <= MAX_ROWS then rows else rows[..MAX_ROWS]
  }

  predicate Within(outbox: seq<Item>, rows: seq<nat>) {
    forall i :: 0 <= i < |rows| ==> rows[i] < |outbox|
  }

  function Bytes(outbox: seq<Item>, rows: seq<nat>, size: Item -> nat): nat
    requires Within(outbox, rows)
  {
    if rows == [] then 0 else Bytes(outbox, rows[..|rows| - 1], size) + size(outbox[rows[|rows| - 1]])
  }

  /** Keep each row up to which the running total stays below the limit. */
  function Fitting(outbox: seq<Item>, rows: seq<nat>, size: Item -> nat): seq<nat>
    requires Within(outbox, rows)
  {
    if rows == [] then []
    else Fitting(outbox, rows[..|rows| - 1], size) +
         if Bytes(outbox, rows, size) < MAX_BYTES then [rows[|rows| - 1]] else []
  }

  lemma {:induction false} UndeliveredIs(n: nat, delivered: set<nat>)
    ensures forall r: nat :: r in Undelivered(n, delivered) <==> r < n && r !in delivered
    ensures forall i :: 0 <= i < |Undelivered(n, delivered)| ==> Undelivered(n, delivered)[i] < n
  {
    if n > 0 { UndeliveredIs(n - 1, delivered); }
  }

  function Batch(outbox: seq<Item>, delivered: set<nat>, size: Item -> nat): seq<nat> {
    UndeliveredIs(|outbox|, delivered);
    Fitting(outbox, Limited(Undelivered(|outbox|, delivered)), size)
  }

  /** `count` numbers from `start` on. */
  function Range(start: nat, count: nat): seq<nat> {
    seq(count, i requires 0 <= i < count => start + i)
  }

  function Upto(n: nat): (s: set<nat>)
    ensures forall i: nat :: i in s <==> i < n
  {
    if n == 0 then {} else Upto(n - 1) + {n - 1}
  }

  lemma {:induction false} UndeliveredTail(n: nat, d: nat)
    requires d <= n
    ensures Undelivered(n, Upto(d)) == Range(d, n - d)
  {
    if n > d {
      UndeliveredTail(n - 1, d);
      assert Range(d, n - d) == Range(d, n - 1 - d) + [n - 1];
    } else if n > 0 {
      UndeliveredNone(n, d);
      assert Range(d, 0) == [];
    }
  }

  lemma {:induction false} UndeliveredNone(n: nat, d: nat)
    requires n <= d
    ensures Undelivered(n, Upto(d)) == []
  {
    if n > 0 { UndeliveredNone(n - 1, d); }
  }

  /** Dropping rows by running total drops a tail. */
  lemma {:induction false} FittingIsPrefix(outbox: seq<Item>, rows: seq<nat>, size: Item -> nat)
    requires Within(outbox, rows)
    ensures var kept := Fitting(outbox, rows, size);
            && kept <= rows
            && (|kept| == |rows| <==> rows == [] || Bytes(outbox, rows, size) < MAX_BYTES)
  {
    if rows != [] {
      FittingIsPrefix(outbox, rows[..|rows| - 1], size);
    }
  }

  ghost predicate SmallRows(outbox: seq<Item>, rows: seq<nat>, size: Item -> nat) {
    forall i :: 0 <= i < |rows| && rows[i] < |outbox| ==> size(outbox[rows[i]]) < MAX_BYTES
  }

  /** A kept row is smaller than the limit. */
  lemma {:induction false} FittingIsSmall(outbox: seq<Item>, rows: seq<nat>, size: Item -> nat)
    requires Within(outbox, rows)
    ensures SmallRows(outbox, Fitting(outbox, rows, size), size)
  {
    if rows != [] {
      var front, last := rows[..|rows| - 1], rows[|rows| - 1];
      FittingIsSmall(outbox, front, size);
      assert Bytes(outbox, rows, size) == Bytes(outbox, front, size) + size(outbox[last]);
    }
  }

  /** A request carries the first undelivered rows, without a gap, at most as many as it may. */
  lemma BatchIsPrefix(outbox: seq<Item>, d: nat, size: Item -> nat) returns (k: nat)
    requires d <= |outbox|
    ensures k <= |outbox| - d && k <= MAX_ROWS && Batch(outbox, Upto(d), size) == Range(d, k)
    ensures forall i :: d <= i < d + k ==> size(outbox[i]) < MAX_BYTES
  {
    var rows := Limited(Range(d, |outbox| - d));
    UndeliveredTail(|outbox|, d);
    UndeliveredIs(|outbox|, Upto(d));
    k := FittingRange(outbox, d, rows, size);
  }

  lemma FittingRange(outbox: seq<Item>, d: nat, rows: seq<nat>, size: Item -> nat) returns (k: nat)
    requires d <= |outbox| && rows == Limited(Range(d, |outbox| - d)) && Within(outbox, rows)
    ensures k <= |outbox| - d && k <= MAX_ROWS && Fitting(outbox, rows, size) == Range(d, k)
    ensures forall i :: d <= i < d + k ==> size(outbox[i]) < MAX_BYTES
  {
    FittingIsPrefix(outbox, rows, size);
    FittingIsSmall(outbox, rows, size);
    var kept := Fitting(outbox, rows, size);
    k := |kept|;
    assert kept == Range(d, k);
    forall i | d <= i < d + k ensures size(outbox[i]) < MAX_BYTES { assert kept[i - d] == i; }
  }

  /** Nothing can be sent while rows are waiting exactly when the first of them alone reaches the limit. */
  lemma BlockedExactlyByAnOversizedRow(outbox: seq<Item>, d: nat, size: Item -> nat)
    requires d < |outbox|
    ensures Batch(outbox, Upto(d), size) == [] <==> size(outbox[d]) >= MAX_BYTES
  {
    var rows := BatchRows(outbox, d, size);
    FirstDecides(outbox, rows, size);
  }

  lemma BatchRows(outbox: seq<Item>, d: nat, size: Item -> nat) returns (rows: seq<nat>)
    requires d < |outbox|
    ensures rows != [] && rows[0] == d && Within(outbox, rows)
        && Batch(outbox, Upto(d), size) == Fitting(outbox, rows, size)
  {
    rows := Limited(Range(d, |outbox| - d));
    assert rows[0] == d;
    assert Undelivered(|outbox|, Upto(d)) == Range(d, |outbox| - d) by { UndeliveredTail(|outbox|, d); }
  }

  lemma FirstDecides(outbox: seq<Item>, rows: seq<nat>, size: Item -> nat)
    requires Within(outbox, rows) && rows != []
    ensures Fitting(outbox, rows, size) == [] <==> size(outbox[rows[0]]) >= MAX_BYTES
  {
    var first := rows[..1];
    assert first == [rows[0]] && first[..0] == [];
    assert Bytes(outbox, first, size) == size(outbox[rows[0]]);
    FittingPrefixKept(outbox, rows, 1, size);
  }

  lemma {:induction false} FittingPrefixKept(outbox: seq<Item>, rows: seq<nat>, n: nat, size: Item -> nat)
    requires Within(outbox, rows) && n <= |rows|
    ensures Fitting(outbox, rows[..n], size) <= Fitting(outbox, rows, size)
    ensures Bytes(outbox, rows[..n], size) <= Bytes(outbox, rows, size)
    ensures Fitting(outbox, rows[..n], size) == [] && n > 0 ==> Fitting(outbox, rows, size) == []
    decreases |rows|
  {
    if n == |rows| {
      assert rows[..n] == rows;
    } else {
      var front := rows[..|rows| - 1];
      assert front[..n] == rows[..n];
      FittingPrefixKept(outbox, front, n, size);
      FittingIsPrefix(outbox, rows[..n], size);
    }
  }

  // ---- The protocol ----

  /** A request on its way or answered; `ok` once the agent has committed it. */
  datatype Request = Request(rows: seq<nat>, ok: bool)

  datatype Sys = Sys(outbox: seq<Item>, delivered: set<nat>, requests: seq<Request>, waiting: Option<nat>,
                     agent: Agent, applied: set<nat>)

  datatype Move =
    | Write(item: Item)
    | Send
    | Arrive(request: nat, at: int)
    | Answer
    | GiveUp
    | Other(op: LedgerRuns.Op)

  function ItemsOf(outbox: seq<Item>, rows: seq<nat>): seq<Item>
    requires Within(outbox, rows)
  {
    seq(|rows|, i requires 0 <= i < |rows| => outbox[rows[i]])
  }

  function RowSet(rows: seq<nat>): set<nat> {
    set r | r in rows
  }

  /** Ledger operations of the agent itself bring in no event that names a removed person. */
  predicate Silent(op: LedgerRuns.Op, removed: set<string>) {
    match op
    case Ingest(_, e, _) => !Names(e, removed)
    case Record(_, _, e, _) => !Names(e, removed)
    case CutRecord(_, _, e, _, _) => !Names(e, removed)
    case CreateReminder(_, _, _, _, _, e, _) => !Names(e, removed)
    case Derive(_, _, e, _) => !Names(e, removed)
    case _ => true
  }

  ghost predicate Step(s: Sys, owner: string, size: Item -> nat, move: Move, after: Sys) {
    match move
    case Write(item) => after == s.(outbox := s.outbox + [item])
    case Send =>
      && s.waiting.None?
      && after == s.(requests := s.requests + [Request(Batch(s.outbox, s.delivered, size), false)],
                     waiting := Some(|s.requests|))
    case Arrive(k, at) =>
      && k < |s.requests| && Within(s.outbox, s.requests[k].rows)
      && var handled := Handle(s.agent, owner, ItemsOf(s.outbox, s.requests[k].rows), at);
         after == if handled.None? then s
                  else s.(agent := handled.value, applied := s.applied + RowSet(s.requests[k].rows),
                          requests := s.requests[k := s.requests[k].(ok := true)])
    case Answer =>
      && s.waiting.Some? && s.waiting.value < |s.requests| && s.requests[s.waiting.value].ok
      && after == s.(delivered := s.delivered + RowSet(s.requests[s.waiting.value].rows), waiting := None)
    case GiveUp => after == s.(waiting := None)
    case Other(op) =>
      && LedgerRuns.Allowed(op) && Silent(op, s.agent.removed)
      && after == s.(agent := s.agent.(db := after.agent.db))
      && LedgerRuns.Completes(s.agent.db, op, after.agent.db)
  }

  ghost predicate Run(states: seq<Sys>, moves: seq<Move>, owner: string, size: Item -> nat) {
    |states| == |moves| + 1 && forall i :: 0 <= i < |moves| ==> Step(states[i], owner, size, moves[i], states[i + 1])
  }

  predicate Starts(s: Sys) {
    s.outbox == [] && s.delivered == {} && s.requests == [] && s.waiting.None? && s.agent == Agent(EMPTY, {})
      && s.applied == {}
  }

  /** `d` rows are marked delivered and `a` are applied; every request carries a stretch that starts at the latest
      with the first undelivered row. */
  ghost predicate Prefixes(s: Sys, a: nat, d: nat) {
    && d <= a <= |s.outbox| && s.applied == Upto(a) && s.delivered == Upto(d)
    && forall k :: 0 <= k < |s.requests| ==> Stretch(s, a, d, s.requests[k])
  }

  ghost predicate Stretch(s: Sys, a: nat, d: nat, r: Request) {
    exists from: nat, count: nat :: Carries(s, a, d, r, from, count)
  }

  ghost predicate Carries(s: Sys, a: nat, d: nat, r: Request, from: nat, count: nat) {
    && r.rows == Range(from, count) && from <= d && count <= MAX_ROWS && from + count <= |s.outbox|
    && (r.ok ==> from + count <= a)
  }

  /** No row that reaches the size limit was ever carried. */
  ghost predicate Small(s: Sys, size: Item -> nat) {
    && (forall i :: i in s.applied && i < |s.outbox| ==> size(s.outbox[i]) < MAX_BYTES)
    && forall k :: 0 <= k < |s.requests| ==> SmallRows(s.outbox, s.requests[k].rows, size)
  }

  ghost predicate Faithful(s: Sys, owner: string, a: nat) {
    a <= |s.outbox| && (forall i :: 0 <= i < a ==> Applied(s.agent, owner, s.outbox[i])) && NoNames(s.agent, owner)
  }

  lemma OtherGrows(agent: Agent, owner: string, op: LedgerRuns.Op, after: Db)
    requires LedgerRuns.Allowed(op) && LedgerRuns.Completes(agent.db, op, after) && Silent(op, agent.removed)
    requires NoNames(agent, owner)
    ensures Grows(agent.db, after) && NoNames(agent.(db := after), owner)
  {
    var db := agent.db;
    match op
    case Ingest(o, e, at) => if IngestSpec(db, o, e, at).Some? { IngestGrows(db, o, e, at); }
    case Record(task, o, e, at) => if IngestSpec(db, o, e, at).Some? { IngestGrows(db, o, e, at); }
    case CreateReminder(id, o, task, text, refs, e, at) =>
      var armed := ArmedReminder(db, id, o, task, text, refs);
      if IngestSpec(armed, o, e, at).Some? { IngestGrows(armed, o, e, at); }
    case CutRecord(task, o, e, at, linked) => if IngestSpec(db, o, e, at).Some? { IngestGrows(db, o, e, at); }
    case Derive(o, refs, e, at) => if IngestSpec(db, o, e, at).Some? { IngestGrows(db, o, e, at); }
    case CutForget(o, id) =>
      if Recallable(db, o, id) { ApplyGrows(db, Retrievers(db, o, db.memories[id].refs), {}, {}); }
    case Delete(key) =>
      var dead := Below(db, key) + {key};
      ApplyGrows(db, TargetsOf(db.deps, dead), TargetsOf(db.deps, dead), dead);
    case Forget(o, id) =>
      if Recallable(db, o, id) { ApplyGrows(db, Retrievers(db, o, db.memories[id].refs), {}, {}); }
    case _ =>
  }

  lemma StretchLater(s: Sys, a: nat, d: nat, after: Sys, a': nat, d': nat, r: Request)
    requires Stretch(s, a, d, r) && a <= a' && d <= d' && |s.outbox| <= |after.outbox|
    ensures Stretch(after, a', d', r)
  {
    var from: nat, count: nat :| Carries(s, a, d, r, from, count);
    assert Carries(after, a', d', r, from, count);
  }

  lemma RangeSet(from: nat, count: nat, a: nat)
    requires from <= a
    ensures Upto(a) + RowSet(Range(from, count)) == Upto(if from + count > a then from + count else a)
  {
    forall i: nat | from <= i < from + count
      ensures i in Range(from, count)
    {
      assert Range(from, count)[i - from] == i;
    }
  }

  lemma ArriveKeeps(s: Sys, owner: string, k: nat, at: int, after: Sys, a: nat, d: nat) returns (a': nat)
    requires Good(s, owner, a, d) && k < |s.requests| && Within(s.outbox, s.requests[k].rows)
    requires Handle(s.agent, owner, ItemsOf(s.outbox, s.requests[k].rows), at) == Some(after.agent)
    requires after == s.(agent := after.agent, applied := s.applied + RowSet(s.requests[k].rows),
                         requests := s.requests[k := s.requests[k].(ok := true)])
    ensures Good(after, owner, a', d)
  {
    var from: nat, count: nat :| Carries(s, a, d, s.requests[k], from, count);
    a' := if from + count > a then from + count else a;
    ArrivePrefixes(s, k, after, from, count, a, a', d);
    HandleFaithful(s.agent, after.agent, owner, s.outbox, from, count, a, a', at);
    HandleKeeps(s.agent, owner, ItemsOf(s.outbox, s.requests[k].rows), at);
    assert CarriesFrom(after, d);
  }

  lemma ArrivePrefixes(s: Sys, k: nat, after: Sys, from: nat, count: nat, a: nat, a': nat, d: nat)
    requires Prefixes(s, a, d) && k < |s.requests| && Carries(s, a, d, s.requests[k], from, count)
    requires a' == if from + count > a then from + count else a
    requires after.outbox == s.outbox && after.delivered == s.delivered
    requires after.applied == s.applied + RowSet(s.requests[k].rows)
    requires after.requests == s.requests[k := s.requests[k].(ok := true)]
    ensures Prefixes(after, a', d)
  {
    RangeSet(from, count, a);
    assert Carries(after, a', d, after.requests[k], from, count);
    forall j | 0 <= j < |after.requests| ensures Stretch(after, a', d, after.requests[j]) {
      if j != k { StretchLater(s, a, d, after, a', d, s.requests[j]); }
    }
  }

  lemma HandleFaithful(agent: Agent, after: Agent, owner: string, outbox: seq<Item>, from: nat, count: nat, a: nat,
                       a': nat, at: int)
    requires from <= a <= a' <= |outbox| && from + count <= |outbox| && (a' == a || a' == from + count)
    requires forall i :: 0 <= i < a ==> Applied(agent, owner, outbox[i])
    requires NoNames(agent, owner) && Handle(agent, owner, ItemsOf(outbox, Range(from, count)), at) == Some(after)
    ensures forall i :: 0 <= i < a' ==> Applied(after, owner, outbox[i])
    ensures NoNames(after, owner)
  {
    var items := ItemsOf(outbox, Range(from, count));
    HandleApplies(agent, owner, items, at);
    CarriedApply(after, owner, outbox, from, count);
    forall i | 0 <= i < a ensures Applied(after, owner, outbox[i]) {
      StaysApplied(agent, after, owner, outbox[i]);
    }
  }

  lemma CarriedApply(after: Agent, owner: string, outbox: seq<Item>, from: nat, count: nat)
    requires from + count <= |outbox|
    requires forall i :: i in ItemsOf(outbox, Range(from, count)) ==> Applied(after, owner, i)
    ensures forall i :: from <= i < from + count ==> Applied(after, owner, outbox[i])
  {
    var items := ItemsOf(outbox, Range(from, count));
    forall i | from <= i < from + count ensures Applied(after, owner, outbox[i]) {
      assert items[i - from] == outbox[i] && outbox[i] in items;
    }
  }

  lemma StaysApplied(agent: Agent, after: Agent, owner: string, item: Item)
    requires Applied(agent, owner, item) && Grows(agent.db, after.db) && agent.removed <= after.removed
    ensures Applied(after, owner, item)
  {
    if item.Observe? && !Names(item.event, after.removed) {
      assert !Names(item.event, agent.removed);
    }
  }

  lemma AnswerKeeps(s: Sys, owner: string, after: Sys, size: Item -> nat, a: nat, d: nat) returns (d': nat)
    requires Prefixes(s, a, d) && Step(s, owner, size, Answer, after) && CarriesFrom(s, d)
    ensures Prefixes(after, a, d')
  {
    CarriesMatch(s, a, d);
    var count: nat :| Carries(s, a, d, s.requests[s.waiting.value], d, count);
    RangeSet(d, count, d);
    d' := d + count;
    forall j | 0 <= j < |after.requests| ensures Stretch(after, a, d', after.requests[j]) {
      StretchLater(s, a, d, after, a, d', s.requests[j]);
    }
  }

  /** The request being waited for starts at the first undelivered row. */
  ghost predicate CarriesFrom(s: Sys, d: nat) {
    s.waiting.Some? ==> (s.waiting.value < |s.requests| && IsRange(s.requests[s.waiting.value].rows, d))
  }

  ghost predicate IsRange(rows: seq<nat>, from: nat) {
    exists count: nat :: rows == Range(from, count)
  }

  ghost predicate Good(s: Sys, owner: string, a: nat, d: nat) {
    Prefixes(s, a, d) && Faithful(s, owner, a) && CarriesFrom(s, d) && Rooted(s.agent.db)
  }

  lemma WriteKeeps(s: Sys, owner: string, item: Item, after: Sys, size: Item -> nat, a: nat, d: nat)
    requires Good(s, owner, a, d) && Step(s, owner, size, Write(item), after)
    ensures Good(after, owner, a, d)
  {
    forall j | 0 <= j < |after.requests| ensures Stretch(after, a, d, after.requests[j]) {
      StretchLater(s, a, d, after, a, d, s.requests[j]);
    }
  }

  lemma SendGood(s: Sys, owner: string, after: Sys, size: Item -> nat, a: nat, d: nat)
    requires Good(s, owner, a, d) && Step(s, owner, size, Send, after)
    ensures Good(after, owner, a, d)
  {
    var k := BatchIsPrefix(s.outbox, d, size);
    assert Carries(after, a, d, Request(Range(d, k), false), d, k);
    assert IsRange(Range(d, k), d);
    forall j | 0 <= j < |after.requests| ensures Stretch(after, a, d, after.requests[j]) {
      if j < |s.requests| { StretchLater(s, a, d, after, a, d, s.requests[j]); }
    }
  }

  lemma OtherKeeps(s: Sys, owner: string, op: LedgerRuns.Op, after: Sys, size: Item -> nat, a: nat, d: nat)
    requires Good(s, owner, a, d) && Step(s, owner, size, Other(op), after)
    ensures Good(after, owner, a, d)
  {
    OtherGrows(s.agent, owner, op, after.agent.db);
    StepCycles(s.agent.db, op, after.agent.db);
    forall i | 0 <= i < a ensures Applied(after.agent, owner, after.outbox[i]) {
      StaysApplied(s.agent, after.agent, owner, s.outbox[i]);
    }
    forall j | 0 <= j < |after.requests| ensures Stretch(after, a, d, after.requests[j]) {
      StretchLater(s, a, d, after, a, d, s.requests[j]);
    }
  }

  lemma CarriesMatch(s: Sys, a: nat, d: nat)
    requires Prefixes(s, a, d) && CarriesFrom(s, d) && s.waiting.Some?
    ensures exists count: nat :: Carries(s, a, d, s.requests[s.waiting.value], d, count)
  {
    var r := s.requests[s.waiting.value];
    var n: nat :| r.rows == Range(d, n);
    var from: nat, count: nat :| Carries(s, a, d, r, from, count);
    assert |r.rows| == n == count;
    if n > 0 { assert r.rows[0] == d && r.rows[0] == from; }
    assert Carries(s, a, d, r, d, n);
  }

  lemma AnswerGood(s: Sys, owner: string, after: Sys, size: Item -> nat, a: nat, d: nat) returns (d': nat)
    requires Good(s, owner, a, d) && Step(s, owner, size, Answer, after)
    ensures Good(after, owner, a, d')
  {
    d' := AnswerKeeps(s, owner, after, size, a, d);
  }

  lemma StepGood(s: Sys, owner: string, move: Move, after: Sys, size: Item -> nat, a: nat, d: nat)
    returns (a': nat, d': nat)
    requires Good(s, owner, a, d) && Step(s, owner, size, move, after)
    ensures Good(after, owner, a', d')
  {
    a', d' := a, d;
    match move
    case Write(item) => WriteKeeps(s, owner, item, after, size, a, d);
    case Send => SendGood(s, owner, after, size, a, d);
    case Arrive(k, at) => if after != s { a' := ArriveKeeps(s, owner, k, at, after, a, d); }
    case Answer => d' := AnswerGood(s, owner, after, size, a, d);
    case GiveUp =>
      forall j | 0 <= j < |after.requests| ensures Stretch(after, a, d, after.requests[j]) {
        StretchLater(s, a, d, after, a, d, s.requests[j]);
      }
    case Other(op) => OtherKeeps(s, owner, op, after, size, a, d);
  }

  /** In every state of every run: the rows applied are the first `a` and those marked delivered the first `d`,
      with `d <= a`, so a marked row was applied; what each applied row asked for still holds; and no stored
      evidence of the owner names a removed person. */
  lemma {:induction false} OutboxIsFaithful(states: seq<Sys>, moves: seq<Move>, owner: string, size: Item -> nat,
                                            i: nat)
    returns (a: nat, d: nat)
    requires Run(states, moves, owner, size) && Starts(states[0]) && i < |states|
    ensures d <= a <= |states[i].outbox| && states[i].applied == Upto(a) && states[i].delivered == Upto(d)
    ensures forall r :: 0 <= r < a ==> Applied(states[i].agent, owner, states[i].outbox[r])
    ensures NoNames(states[i].agent, owner)
    ensures Good(states[i], owner, a, d)
  {
    if i == 0 {
      a, d := 0, 0;
      assert EMPTY.deps == {} && EMPTY.evidence == [];
    } else {
      a, d := OutboxIsFaithful(states, moves, owner, size, i - 1);
      a, d := StepGood(states[i - 1], owner, moves[i - 1], states[i], size, a, d);
    }
  }

  /** A request the agent has committed arrives once more, in any later state: it is refused exactly when a deletion
      it repeats meets a derivation cycle or one of its events was deleted since, and otherwise leaves live evidence
      as it is exactly when none of it derives from what the request invalidates. */
  lemma RepeatedArrival(states: seq<Sys>, moves: seq<Move>, owner: string, size: Item -> nat, i: nat, k: nat, at: int)
    requires Run(states, moves, owner, size) && Starts(states[0]) && i < |states|
    requires k < |states[i].requests| && states[i].requests[k].ok
    ensures Within(states[i].outbox, states[i].requests[k].rows)
    ensures var agent, items := states[i].agent, ItemsOf(states[i].outbox, states[i].requests[k].rows);
            var again := Handle(agent, owner, items, at);
            && (again.None? <==> !AllAcyclic(agent.db, Invalidated(items, owner))
                                 || Stale(Cleared(agent, owner, items), agent.removed, owner, EventsOf(items)))
            && (again.Some? ==> (SameLive(agent.db, again.value.db) <==>
              NothingDerived(agent.db, Invalidated(items, owner))))
  {
    var a: nat, d: nat := OutboxIsFaithful(states, moves, owner, size, i);
    var from: nat, count: nat :| Carries(states[i], a, d, states[i].requests[k], from, count);
    var items := CommittedItems(states[i], owner, k, a, d, from, count);
    HandleAgain(states[i].agent, owner, items, at);
  }

  lemma CommittedItems(s: Sys, owner: string, k: nat, a: nat, d: nat, from: nat, count: nat) returns (items: seq<Item>)
    requires Good(s, owner, a, d) && k < |s.requests| && s.requests[k].ok
        && Carries(s, a, d, s.requests[k], from, count)
    ensures Within(s.outbox, s.requests[k].rows) && items == ItemsOf(s.outbox, s.requests[k].rows)
    ensures forall x :: x in items ==> Applied(s.agent, owner, x)
  {
    items := ItemsOf(s.outbox, s.requests[k].rows);
  }

  // ---- An event that was deleted at the agent blocks the outbox ----

  /** The first undelivered row is an event deleted at the agent, and no committed request is about to be answered. */
  ghost predicate Blocked(s: Sys, owner: string, d: nat, e: Event) {
    && d < |s.outbox| && s.outbox[d] == Observe(e) && s.delivered == Upto(d)
    && Key(owner, e.id) in s.agent.db.tombs && !Names(e, s.agent.removed)
    && (s.waiting.Some? && s.waiting.value < |s.requests| && s.requests[s.waiting.value].ok ==>
          s.requests[s.waiting.value].rows == [])
  }

  /** A row in reach of the requests that carry row `d` forgets somebody whom its event names. */
  predicate ForgottenNearby(outbox: seq<Item>, d: nat, e: Event) {
    exists r :: d <= r < |outbox| && r < d + MAX_ROWS && outbox[r].Forget? && outbox[r].person in e.personIds
  }

  /** A request with a deleted event is refused, unless it also forgets somebody the event names. */
  lemma TombstonedIsRefused(agent: Agent, owner: string, items: seq<Item>, e: Event, at: int)
    requires Observe(e) in items && Key(owner, e.id) in agent.db.tombs
    requires !Names(e, agent.removed + Forgotten(items))
    ensures Handle(agent, owner, items, at).None?
  {
    EventsOfIs(items, e);
    var removed, cleared := agent.removed + Forgotten(items), Cleared(agent, owner, items);
    TombstoneStops(cleared, removed, owner, EventsOf(items), e, at);
  }

  lemma {:induction false} TombstoneStops(db: Db, removed: set<string>, owner: string, events: seq<Event>, e: Event,
                                          at: int)
    requires e in events && !Names(e, removed) && Key(owner, e.id) in db.tombs
    ensures IngestAll(db, removed, owner, events, at).None?
    decreases |events|
  {
    var front := events[..|events| - 1];
    assert events == front + [events[|events| - 1]];
    if e in front {
      TombstoneStops(db, removed, owner, front, e, at);
    } else if IngestAll(db, removed, owner, front, at).Some? {
      IngestAllGrows(db, removed, owner, front, at);
    }
  }

  /** Neither what is delivered and applied nor who is removed changes. */
  ghost predicate Stuck(s: Sys, after: Sys) {
    after.delivered == s.delivered && after.applied == s.applied && after.agent.removed == s.agent.removed
  }

  lemma BlockedArrive(s: Sys, owner: string, k: nat, at: int, after: Sys, size: Item -> nat, a: nat, d: nat, e: Event)
    requires Good(s, owner, a, d) && Blocked(s, owner, d, e) && !ForgottenNearby(s.outbox, d, e)
    requires Step(s, owner, size, Arrive(k, at), after)
    ensures Stuck(s, after) && Blocked(after, owner, d, e)
  {
    var from: nat, count: nat :| Carries(s, a, d, s.requests[k], from, count);
    var items := ItemsOf(s.outbox, s.requests[k].rows);
    if from + count > d {
      CarriesBlocked(s, owner, from, count, a, d, e, at);
    } else if after != s {
      RepeatsOld(s, owner, k, at, after, from, count, a, d);
    }
  }

  lemma CarriesBlocked(s: Sys, owner: string, from: nat, count: nat, a: nat, d: nat, e: Event, at: int)
    requires Good(s, owner, a, d) && Blocked(s, owner, d, e) && !ForgottenNearby(s.outbox, d, e)
    requires from <= d < from + count <= |s.outbox| && count <= MAX_ROWS
    ensures Handle(s.agent, owner, ItemsOf(s.outbox, Range(from, count)), at).None?
  {
    var items := ItemsOf(s.outbox, Range(from, count));
    assert items[d - from] == Observe(e);
    forall p | p in Forgotten(items) ensures p in s.agent.removed || p !in e.personIds {
      ForgottenRow(s, owner, from, count, a, d, e, p);
    }
    TombstonedIsRefused(s.agent, owner, items, e, at);
  }

  /** A repeated request of delivered rows changes nothing that matters here. */
  lemma RepeatsOld(s: Sys, owner: string, k: nat, at: int, after: Sys, from: nat, count: nat, a: nat, d: nat)
    requires Good(s, owner, a, d) && k < |s.requests| && Carries(s, a, d, s.requests[k], from, count)
        && from + count <= d
    requires Handle(s.agent, owner, ItemsOf(s.outbox, s.requests[k].rows), at) == Some(after.agent)
    requires after == s.(agent := after.agent, applied := s.applied + RowSet(s.requests[k].rows),
                         requests := s.requests[k := s.requests[k].(ok := true)])
    ensures Stuck(s, after) && s.agent.db.tombs <= after.agent.db.tombs
    ensures s.requests[k].rows == [] || s.waiting != Some(k)
  {
    HandleApplies(s.agent, owner, ItemsOf(s.outbox, s.requests[k].rows), at);
    OldRowsForgetNobody(s, owner, from, count, a, d);
    RangeSet(from, count, a);
    CarriesEmpty(s, k, from, count, d);
  }

  lemma ForgottenRow(s: Sys, owner: string, from: nat, count: nat, a: nat, d: nat, e: Event, p: string)
    requires Good(s, owner, a, d) && from <= d && count <= MAX_ROWS && from + count <= |s.outbox|
    requires p in Forgotten(ItemsOf(s.outbox, Range(from, count))) && !ForgottenNearby(s.outbox, d, e)
    ensures p in s.agent.removed || p !in e.personIds
  {
    var items := ItemsOf(s.outbox, Range(from, count));
    assert Forget(p) in items;
    var i :| 0 <= i < |items| && items[i] == Forget(p);
    assert s.outbox[from + i] == Forget(p);
    if from + i < d { assert Applied(s.agent, owner, s.outbox[from + i]); }
  }

  lemma OldRowsForgetNobody(s: Sys, owner: string, from: nat, count: nat, a: nat, d: nat)
    requires Good(s, owner, a, d) && from + count <= d
    ensures Forgotten(ItemsOf(s.outbox, Range(from, count))) <= s.agent.removed
  {
    var items := ItemsOf(s.outbox, Range(from, count));
    forall p | p in Forgotten(items) ensures p in s.agent.removed {
      assert Forget(p) in items;
      var i :| 0 <= i < |items| && items[i] == Forget(p);
      assert s.outbox[from + i] == Forget(p) && Applied(s.agent, owner, s.outbox[from + i]);
    }
  }

  /** The request being waited for carries row `d` or nothing. */
  lemma CarriesEmpty(s: Sys, k: nat, from: nat, count: nat, d: nat)
    requires CarriesFrom(s, d) && k < |s.requests| && s.requests[k].rows == Range(from, count) && from + count <= d
    ensures s.requests[k].rows == [] || s.waiting != Some(k)
  {
    if s.waiting == Some(k) {
      var n: nat :| s.requests[k].rows == Range(d, n);
      SameRange(d, n, from, count);
      assert Range(d, 0) == [];
    }
  }

  lemma SameRange(d: nat, n: nat, from: nat, count: nat)
    requires Range(d, n) == Range(from, count)
    ensures n == count && (n > 0 ==> d == from)
  {
    assert |Range(d, n)| == n && |Range(from, count)| == count;
    if n > 0 { assert Range(d, n)[0] == d && Range(from, count)[0] == from; }
  }

  lemma BlockedStep(s: Sys, owner: string, move: Move, after: Sys, size: Item -> nat, a: nat, d: nat, e: Event)
    requires Good(s, owner, a, d) && Blocked(s, owner, d, e) && !ForgottenNearby(s.outbox, d, e)
    requires Step(s, owner, size, move, after)
    ensures Stuck(s, after) && Blocked(after, owner, d, e)
  {
    match move
    case Arrive(k, at) => BlockedArrive(s, owner, k, at, after, size, a, d, e);
    case Answer => assert s.requests[s.waiting.value].rows == [];
    case Other(op) => OtherGrows(s.agent, owner, op, after.agent.db);
    case Write(_) =>
    case Send =>
    case GiveUp =>
  }

  /** From a blocked state on, whatever is written, sent, repeated or done at the agent: nothing more is applied or
      delivered and nobody is removed, as long as no row within reach forgets somebody the deleted event names. */
  lemma {:induction false} BlockedForGood(states: seq<Sys>, moves: seq<Move>, owner: string, size: Item -> nat,
                                          j: nat, i: nat, d: nat, e: Event)
    requires Run(states, moves, owner, size) && Starts(states[0]) && j <= i < |states|
    requires Blocked(states[j], owner, d, e) && !ForgottenNearby(states[i].outbox, d, e)
    ensures Blocked(states[i], owner, d, e) && Stuck(states[j], states[i])
    decreases i
  {
    if j < i {
      NotNearbyBefore(states, moves, owner, size, i, d, e);
      BlockedForGood(states, moves, owner, size, j, i - 1, d, e);
      BlockedNext(states, moves, owner, size, i, d, e);
    }
  }

  lemma NotNearbyBefore(states: seq<Sys>, moves: seq<Move>, owner: string, size: Item -> nat, i: nat, d: nat, e: Event)
    requires Run(states, moves, owner, size) && 0 < i < |states| && !ForgottenNearby(states[i].outbox, d, e)
    ensures !ForgottenNearby(states[i - 1].outbox, d, e)
  {
    OutboxGrows(states[i - 1], owner, moves[i - 1], states[i], size, d, e);
  }

  lemma BlockedNext(states: seq<Sys>, moves: seq<Move>, owner: string, size: Item -> nat, i: nat, d: nat, e: Event)
    requires Run(states, moves, owner, size) && Starts(states[0]) && 0 < i < |states|
    requires Blocked(states[i - 1], owner, d, e) && !ForgottenNearby(states[i - 1].outbox, d, e)
    ensures Blocked(states[i], owner, d, e) && Stuck(states[i - 1], states[i])
  {
    var a: nat, x: nat := OutboxIsFaithful(states, moves, owner, size, i - 1);
    NextBlocked(states[i - 1], owner, moves[i - 1], states[i], size, a, x, d, e);
  }

  lemma NextBlocked(s: Sys, owner: string, move: Move, after: Sys, size: Item -> nat, a: nat, x: nat, d: nat, e: Event)
    requires Good(s, owner, a, x) && s.delivered == Upto(x) && Blocked(s, owner, d, e)
        && !ForgottenNearby(s.outbox, d, e)
    requires Step(s, owner, size, move, after)
    ensures Stuck(s, after) && Blocked(after, owner, d, e)
  {
    UptoInjective(x, d);
    BlockedStep(s, owner, move, after, size, a, d, e);
  }

  lemma UptoInjective(x: nat, y: nat)
    requires Upto(x) == Upto(y)
    ensures x == y
  {
    assert x !in Upto(x) && y !in Upto(y);
  }

  lemma OutboxGrows(s: Sys, owner: string, move: Move, after: Sys, size: Item -> nat, d: nat, e: Event)
    requires Step(s, owner, size, move, after) && !ForgottenNearby(after.outbox, d, e)
    ensures !ForgottenNearby(s.outbox, d, e)
  {
    assert s.outbox <= after.outbox;
    if ForgottenNearby(s.outbox, d, e) { StaysNearby(s.outbox, after.outbox, d, e); }
  }

  lemma StaysNearby(outbox: seq<Item>, longer: seq<Item>, d: nat, e: Event)
    requires outbox <= longer && ForgottenNearby(outbox, d, e)
    ensures ForgottenNearby(longer, d, e)
  {
    var r :| d <= r < |outbox| && r < d + MAX_ROWS && outbox[r].Forget? && outbox[r].person in e.personIds;
    assert longer[r] == outbox[r];
  }

  // ---- A row that is too large blocks the outbox for good ----

  lemma SmallStep(s: Sys, owner: string, move: Move, after: Sys, size: Item -> nat, a: nat, d: nat)
    requires Good(s, owner, a, d) && Small(s, size) && Step(s, owner, size, move, after)
    ensures Small(after, size)
  {
    match move
    case Write(item) => WrittenSmall(s, item, after, size, a, d);
    case Send =>
      var k := BatchIsPrefix(s.outbox, d, size);
      assert SmallRows(s.outbox, Range(d, k), size);
    case Arrive(k, at) => assert SmallRows(s.outbox, s.requests[k].rows, size);
    case Answer =>
    case GiveUp =>
    case Other(_) =>
  }

  lemma WrittenSmall(s: Sys, item: Item, after: Sys, size: Item -> nat, a: nat, d: nat)
    requires Prefixes(s, a, d) && Small(s, size) && after == s.(outbox := s.outbox + [item])
    ensures Small(after, size)
  {
    forall k | 0 <= k < |after.requests| ensures SmallRows(after.outbox, after.requests[k].rows, size) {
      assert SmallRows(s.outbox, s.requests[k].rows, size);
      var from: nat, count: nat :| Carries(s, a, d, s.requests[k], from, count);
    }
  }

  lemma {:induction false} EveryRunIsSmall(states: seq<Sys>, moves: seq<Move>, owner: string, size: Item -> nat, i: nat)
    requires Run(states, moves, owner, size) && Starts(states[0]) && i < |states|
    ensures Small(states[i], size)
  {
    if i > 0 {
      EveryRunIsSmall(states, moves, owner, size, i - 1);
      var a: nat, d: nat := OutboxIsFaithful(states, moves, owner, size, i - 1);
      SmallStep(states[i - 1], owner, moves[i - 1], states[i], size, a, d);
    }
  }

  /** In every state of every run: neither a row that reaches the size limit nor any row behind it is applied or
      marked delivered. */
  lemma OversizedRowIsNeverPassed(states: seq<Sys>, moves: seq<Move>, owner: string, size: Item -> nat, i: nat, x: nat,
                                  y: nat)
    requires Run(states, moves, owner, size) && Starts(states[0]) && i < |states|
    requires x <= y && x < |states[i].outbox| && size(states[i].outbox[x]) >= MAX_BYTES
    ensures y !in states[i].applied && y !in states[i].delivered
  {
    var a: nat, d: nat := OutboxIsFaithful(states, moves, owner, size, i);
    EveryRunIsSmall(states, moves, owner, size, i);
    assert x !in states[i].applied;
  }

  // ---- Two runs that end in a blocked state ----

  const OWNER := "o"
  const FIRST := LedgerFindings.Sample("v")
  const SECOND := LedgerFindings.Sample("v").(revision := 1)

  function Hundred(item: Item): nat { 100 }

  const START := Sys([], {}, [], None, Agent(EMPTY, {}), {})

  lemma Extend(states: seq<Sys>, moves: seq<Move>, move: Move, after: Sys) returns (more: seq<Sys>)
    requires Run(states, moves, OWNER, Hundred) && Step(states[|moves|], OWNER, Hundred, move, after)
    ensures more == states + [after] && Run(more, moves + [move], OWNER, Hundred)
  {
    more := states + [after];
    forall i | 0 <= i <= |moves| ensures Step(more[i], OWNER, Hundred, (moves + [move])[i], more[i + 1]) {
      if i < |moves| { assert Step(states[i], OWNER, Hundred, moves[i], states[i + 1]); }
    }
  }

  lemma OneItem(items: seq<Item>)
    requires items == [Observe(FIRST)]
    ensures EventsOf(items) == [FIRST] && Invalidated(items, OWNER) == {} && Forgotten(items) == {}
  {
    assert items[..0] == [] && EventsOf([]) == [];
  }

  lemma OneEvent(db: Db, removed: set<string>, events: seq<Event>)
    requires events == [FIRST] && !Names(FIRST, removed)
    ensures IngestAll(db, removed, OWNER, events, 0) == IngestSpec(db, OWNER, FIRST, 0)
  {
    assert events[..0] == [];
    assert IngestAll(db, removed, OWNER, [], 0) == Some(db);
  }

  lemma NothingToClear(agent: Agent, items: seq<Item>)
    requires Invalidated(items, OWNER) == {} && Forgotten(items) == {}
    ensures Cleared(agent, OWNER, items) == agent.db && Clearable(agent, OWNER, items)
  {
    DeleteNone(agent.db);
    assert Affected(agent.db, OWNER, {}) == {};
    assert {} + Affected(agent.db, OWNER, {}) == {};
  }

  lemma FirstArrival() returns (after: Agent)
    ensures Handle(Agent(EMPTY, {}), OWNER, [Observe(FIRST)], 0) == Some(after)
    ensures after.removed == {} && after.db.deps == {}
  {
    var items := [Observe(FIRST)];
    OneItem(items);
    NothingToClear(Agent(EMPTY, {}), items);
    LedgerFindings.FirstRevision(EMPTY, OWNER, FIRST, 0);
    OneEvent(EMPTY, {}, [FIRST]);
    after := Agent(IngestSpec(EMPTY, OWNER, FIRST, 0).value, {});
  }

  /** A first revision is written, sent and committed, and then deleted at the agent. */
  lemma DeletedAfterArrival() returns (states: seq<Sys>, moves: seq<Move>)
    ensures Run(states, moves, OWNER, Hundred) && |moves| == 4 && states[0] == START
    ensures states[4].outbox == [Observe(FIRST)] && states[4].delivered == {} && states[4].waiting == Some(0)
    ensures states[4].requests == [Request([0], true)]
    ensures Key(OWNER, "v") in states[4].agent.db.tombs && states[4].agent.removed == {}
  {
    states, moves := [START], [];
    var s1 := START.(outbox := [Observe(FIRST)]);
    states := Extend(states, moves, Write(Observe(FIRST)), s1);
    moves := moves + [Write(Observe(FIRST))];
    OneRowBatch(s1.outbox);
    var s2 := s1.(requests := [Request([0], false)], waiting := Some(0));
    states := Extend(states, moves, Send, s2);
    moves := moves + [Send];
    var agent := FirstArrival();
    assert ItemsOf(s2.outbox, [0]) == [Observe(FIRST)];
    var s3 := s2.(agent := agent, applied := {} + RowSet([0]), requests := [Request([0], true)]);
    states := Extend(states, moves, Arrive(0, 0), s3);
    moves := moves + [Arrive(0, 0)];
    states, moves := ThenDeleted(states, moves);
  }

  lemma ThenDeleted(s: seq<Sys>, m: seq<Move>) returns (states: seq<Sys>, moves: seq<Move>)
    requires Run(s, m, OWNER, Hundred) && |m| == 3
    ensures Run(states, moves, OWNER, Hundred) && |moves| == 4 && states[0] == s[0]
    ensures states[4] == s[3].(agent := states[4].agent) && states[4].agent.removed == s[3].agent.removed
    ensures Key(OWNER, "v") in states[4].agent.db.tombs
  {
    var key := Key(OWNER, "v");
    var after := s[3].(agent := s[3].agent.(db := DeleteSpec(s[3].agent.db, key)));
    states := Extend(s, m, Other(LedgerRuns.Delete(key)), after);
    moves := m + [Other(LedgerRuns.Delete(key))];
  }

  lemma OneRowBatch(outbox: seq<Item>)
    requires outbox == [Observe(FIRST)]
    ensures Batch(outbox, {}, Hundred) == [0]
  {
    OneUndelivered();
    UndeliveredIs(1, {});
    assert Limited([0]) == [0];
    OneFits(outbox);
  }

  lemma OneUndelivered()
    ensures Undelivered(1, {}) == [0]
  {
    assert Undelivered(0, {}) == [];
  }

  lemma OneFits(outbox: seq<Item>)
    requires |outbox| == 1
    ensures Fitting(outbox, [0], Hundred) == [0]
  {
    assert [0][..0] == [];
    assert Bytes(outbox, [], Hundred) == 0;
    assert Fitting(outbox, [], Hundred) == [];
  }

  /** The answer is lost: the row stays undelivered, and its event can never be sent again. */
  lemma LostAnswerBlocks() returns (states: seq<Sys>, moves: seq<Move>)
    ensures Run(states, moves, OWNER, Hundred) && Starts(states[0]) && |moves| == 5
    ensures Blocked(states[5], OWNER, 0, FIRST) && !ForgottenNearby(states[5].outbox, 0, FIRST)
  {
    states, moves := DeletedAfterArrival();
    assert Upto(0) == {};
    states := Extend(states, moves, GiveUp, states[4].(waiting := None));
    moves := moves + [GiveUp];
  }

  /** The answer arrives, and then a later revision of the deleted event is written: it can never be delivered. */
  lemma LaterRevisionBlocks() returns (states: seq<Sys>, moves: seq<Move>)
    ensures Run(states, moves, OWNER, Hundred) && Starts(states[0]) && |moves| == 6
    ensures Blocked(states[6], OWNER, 1, SECOND) && !ForgottenNearby(states[6].outbox, 1, SECOND)
  {
    states, moves := DeletedAfterArrival();
    var s5 := states[4].(delivered := {} + RowSet([0]), waiting := None);
    states := Extend(states, moves, Answer, s5);
    moves := moves + [Answer];
    assert 0 in [0] && Upto(0) == {} && Upto(1) == {0} && RowSet([0]) == {0};
    states := Extend(states, moves, Write(Observe(SECOND)), s5.(outbox := s5.outbox + [Observe(SECOND)]));
    moves := moves + [Write(Observe(SECOND))];
  }

  /** A row of the limit's size is written: nothing is ever sent. */
  lemma OversizedRowRun(item: Item, size: Item -> nat) returns (states: seq<Sys>)
    requires size(item) >= MAX_BYTES
    ensures Run(states, [Write(item)], OWNER, size) && Starts(states[0]) && states[1].outbox == [item]
    ensures Batch(states[1].outbox, states[1].delivered, size) == []
  {
    states := [START, START.(outbox := [item])];
    assert Upto(0) == {};
    BlockedExactlyByAnOversizedRow([item], 0, size);
  }

  // ---- The bridge's own loop over the rows ----

  class Bridge {
    var outbox: seq<Item>
    var delivered: set<nat>

    constructor ()
      ensures outbox == [] && delivered == {}
    {
      outbox, delivered := [], {};
    }

    /** Select the first undelivered rows, and drop those from where the total size reaches the limit. */
    method Gather(size: Item -> nat) returns (batch: seq<nat>)
      ensures batch == Batch(outbox, delivered, size)
    {
      var rows := Select();
      UndeliveredIs(|outbox|, delivered);
      batch := [];
      var bytes := 0;
      for i := 0 to |rows|
        invariant batch == Fitting(outbox, rows[..i], size) && bytes == Bytes(outbox, rows[..i], size)
      {
        assert rows[..i + 1][..i] == rows[..i];
        bytes := bytes + size(outbox[rows[i]]);
        if bytes < MAX_BYTES {
          batch := batch + [rows[i]];
        }
      }
      assert rows[..|rows|] == rows;
    }

    method Select() returns (rows: seq<nat>)
      ensures rows == Limited(Undelivered(|outbox|, delivered))
    {
      rows := [];
      for i := 0 to |outbox|
        invariant rows == Limited(Undelivered(i, delivered))
      {
        if i !in delivered && |rows| < MAX_ROWS {
          rows := rows + [i];
        }
      }
    }

    method MarkDelivered(rows: seq<nat>)
      modifies this
      ensures outbox == old(outbox) && delivered == old(delivered) + RowSet(rows)
    {
      for i := 0 to |rows|
        invariant outbox == old(outbox) && delivered == old(delivered) + RowSet(rows[..i])
      {
        delivered := delivered + {rows[i]};
        assert rows[..i + 1] == rows[..i] + [rows[i]];
      }
      assert rows[..|rows|] == rows;
    }
  }
}
