/** The turn and token budget that a root task shares with its subagents.  Turns are reserved before a request;
    compaction charges a turn and tokens without looking at the budget; a response is charged after a look. */
module Budget {

  /** Where a member of the family is in its loop: between turns, reserved and perhaps compacting, or waiting for
      the model. */
  datatype Phase = Out | Compacting | Asking

  datatype Member = Member(phase: Phase, steps: nat, tokens: nat)

  /** The limits, and the most one model response and one compaction response can cost. */
  datatype Limits = Limits(maxSteps: nat, maxTokens: nat, response: nat, compaction: nat)

  datatype Op =
    | Spawn
    | Reserve(i: nat)
    | Compact(i: nat, tokens: nat)
    | Request(i: nat)
    | Answer(i: nat, tokens: nat)
    | Leave(i: nat)

  const MAX_CHILDREN: nat := 2

  function Steps(ms: seq<Member>): nat {
    if ms == [] then 0 else Steps(ms[..|ms| - 1]) + ms[|ms| - 1].steps
  }

  function Tokens(ms: seq<Member>): nat {
    if ms == [] then 0 else Tokens(ms[..|ms| - 1]) + ms[|ms| - 1].tokens
  }

  function InWindow(ms: seq<Member>): nat {
    if ms == [] then 0 else InWindow(ms[..|ms| - 1]) + if ms[|ms| - 1].phase.Compacting? then 1 else 0
  }

  predicate WithinTokens(l: Limits, ms: seq<Member>) {
    Tokens(ms) < l.maxTokens
  }

  function Step(l: Limits, ms: seq<Member>, op: Op): seq<Member> {
    match op
    case Spawn => if 0 < |ms| <= MAX_CHILDREN then ms + [Member(Out, 0, 0)] else ms
    case Reserve(i) =>
      if i < |ms| && ms[i].phase.Out? && Steps(ms) < l.maxSteps && WithinTokens(l, ms)
      then ms[i := Member(Compacting, ms[i].steps + 1, ms[i].tokens)] else ms
    case Compact(i, tokens) =>
      if i < |ms| && ms[i].phase.Compacting? && tokens <= l.compaction
      then ms[i := Member(Asking, ms[i].steps + 1, ms[i].tokens + tokens)] else ms
    case Request(i) =>
      if i < |ms| && ms[i].phase.Compacting? then ms[i := Member(Asking, ms[i].steps, ms[i].tokens)] else ms
    case Answer(i, tokens) =>
      if i < |ms| && ms[i].phase.Asking? && WithinTokens(l, ms) && tokens <= l.response
      then ms[i := Member(Out, ms[i].steps, ms[i].tokens + tokens)] else ms
    case Leave(i) => if i < |ms| then ms[i := Member(Out, ms[i].steps, ms[i].tokens)] else ms
  }

  ghost predicate Run(l: Limits, states: seq<seq<Member>>, ops: seq<Op>) {
    |states| == |ops| + 1 && states[0] == [Member(Out, 0, 0)]
    && forall k :: 0 <= k < |ops| ==> states[k + 1] == Step(l, states[k], ops[k])
  }

  /** Three compactions at once, or a response while the two others compact. */
  function Overrun(l: Limits): nat {
    if l.response + 2 * l.compaction >= 3 * l.compaction then l.response + 2 * l.compaction else 3 * l.compaction
  }

  function TokenBound(l: Limits): nat {
    if l.maxTokens == 0 then 0 else l.maxTokens - 1 + Overrun(l)
  }

  /** Every member that reserved a turn may still charge one more turn and one compaction unchecked. */
  ghost predicate Bounded(l: Limits, ms: seq<Member>) {
    && 0 < |ms| <= MAX_CHILDREN + 1
    && Steps(ms) + InWindow(ms) <= l.maxSteps + 3
    && (InWindow(ms) > 0 ==> l.maxTokens > 0)
    && Tokens(ms) + l.compaction * InWindow(ms) <= TokenBound(l)
  }

  lemma {:induction false} Replace(ms: seq<Member>, i: nat, m: Member)
    requires i < |ms|
    ensures Steps(ms[i := m]) == Steps(ms) - ms[i].steps + m.steps
    ensures Tokens(ms[i := m]) == Tokens(ms) - ms[i].tokens + m.tokens
    ensures InWindow(ms[i := m]) == InWindow(ms) - (if ms[i].phase.Compacting? then 1 else 0)
        + (if m.phase.Compacting? then 1 else 0)
    decreases |ms|
  {
    var front := ms[..|ms| - 1];
    if i < |front| {
      Replace(front, i, m);
      assert ms[i := m][..|ms| - 1] == front[i := m];
    } else {
      assert ms[i := m][..|ms| - 1] == front;
    }
  }

  lemma {:induction false} WindowBound(ms: seq<Member>)
    ensures InWindow(ms) <= |ms|
    ensures forall i :: 0 <= i < |ms| && !ms[i].phase.Compacting? ==> InWindow(ms) < |ms|
  {
    if ms != [] { WindowBound(ms[..|ms| - 1]); }
  }

  /** A factor that is at most three. */
  lemma Times(c: nat, n: nat)
    requires n <= 3
    ensures c * n == if n == 0 then 0 else if n == 1 then c else if n == 2 then 2 * c else 3 * c
  {}

  lemma StepKeeps(l: Limits, ms: seq<Member>, op: Op)
    requires Bounded(l, ms)
    ensures Bounded(l, Step(l, ms, op))
  {
    if op.Spawn? {
    } else if op.i < |ms| {
      var after := Step(l, ms, op);
      WindowBound(ms);
      WindowBound(after);
      Replace(ms, op.i, after[op.i]);
      assert after == ms[op.i := after[op.i]];
      Times(l.compaction, InWindow(ms));
      Times(l.compaction, InWindow(after));
    }
  }

  lemma {:induction false} BoundedThroughout(l: Limits, states: seq<seq<Member>>, ops: seq<Op>, k: nat)
    requires Run(l, states, ops) && k < |states|
    ensures Bounded(l, states[k])
  {
    if k > 0 {
      BoundedThroughout(l, states, ops, k - 1);
      StepKeeps(l, states[k - 1], ops[k - 1]);
    } else {
      assert states[0][..0] == [];
    }
  }

  /** However parent and children interleave, a family takes at most three turns more than allowed, and its
      tokens exceed the limit by less than a response and two compactions, or three compactions. */
  lemma FamilyStaysWithinBudget(l: Limits, states: seq<seq<Member>>, ops: seq<Op>, k: nat)
    requires Run(l, states, ops) && k < |states|
    ensures |states[k]| <= MAX_CHILDREN + 1
    ensures Steps(states[k]) <= l.maxSteps + 3
    ensures Tokens(states[k]) <= TokenBound(l)
  {
    BoundedThroughout(l, states, ops, k);
    WindowBound(states[k]);
    Times(l.compaction, InWindow(states[k]));
  }

  lemma Extend(l: Limits, states: seq<seq<Member>>, ops: seq<Op>, op: Op) returns (s: seq<seq<Member>>, o: seq<Op>)
    requires Run(l, states, ops)
    ensures Run(l, s, o) && |s| == |states| + 1 && s[|s| - 1] == Step(l, states[|states| - 1], op)
  {
    s, o := states + [Step(l, states[|states| - 1], op)], ops + [op];
    forall k | 0 <= k < |o| ensures s[k + 1] == Step(l, s[k], o[k]) {
      if k < |ops| { assert s[k + 1] == states[k + 1] && s[k] == states[k] && o[k] == ops[k]; }
    }
  }

  /** Sums over a family of three. */
  lemma Three(a: Member, b: Member, c: Member)
    ensures Steps([a, b, c]) == a.steps + b.steps + c.steps
    ensures Tokens([a, b, c]) == a.tokens + b.tokens + c.tokens
  {
    assert [a, b, c][..2] == [a, b] && [a, b][..1] == [a] && [a][..0] == [];
    assert Steps([a]) == a.steps && Tokens([a]) == a.tokens;
    assert Steps([a, b]) == a.steps + b.steps && Tokens([a, b]) == a.tokens + b.tokens;
  }

  lemma One(a: Member)
    ensures Steps([a]) == a.steps && Tokens([a]) == a.tokens
  {
    assert [a][..0] == [];
  }

  /** A turn without compaction, of the root on its own. */
  lemma OneTurn(l: Limits, states: seq<seq<Member>>, ops: seq<Op>, n: nat, have: nat, spent: nat)
    returns (s: seq<seq<Member>>, o: seq<Op>)
    requires Run(l, states, ops) && states[|ops|] == [Member(Out, n, have)]
    requires n < l.maxSteps && have < l.maxTokens && spent <= l.response
    ensures Run(l, s, o) && s[|o|] == [Member(Out, n + 1, have + spent)]
  {
    var m0, m1, m2 := Member(Out, n, have), Member(Compacting, n + 1, have), Member(Asking, n + 1, have);
    One(m0);
    s, o := Extend(l, states, ops, Reserve(0));
    assert s[|o|] == [m1];
    s, o := Extend(l, s, o, Request(0));
    assert s[|o|] == [m2];
    One(m2);
    s, o := Extend(l, s, o, Answer(0, spent));
    assert s[|o|] == [Member(Out, n + 1, have + spent)];
  }

  lemma OneLess(response: nat, n: nat)
    requires n > 0
    ensures response * n == response * (n - 1) + response
  {}

  /** The root alone spends any number of tokens below the limit in a number of turns that allows for it. */
  lemma {:induction false} Spend(l: Limits, n: nat, total: nat) returns (states: seq<seq<Member>>, ops: seq<Op>)
    requires n <= l.maxSteps && total < l.maxTokens && total <= l.response * n
    ensures Run(l, states, ops) && states[|ops|] == [Member(Out, n, total)]
    decreases n
  {
    if n == 0 {
      states, ops := [[Member(Out, 0, 0)]], [];
    } else {
      var spent := if total < l.response then total else l.response;
      OneLess(l.response, n);
      states, ops := Spend(l, n - 1, total - spent);
      states, ops := OneTurn(l, states, ops, n - 1, total - spent, spent);
    }
  }

  /** Two children join, and all three reserve a turn. */
  lemma AllReserve(l: Limits, states: seq<seq<Member>>, ops: seq<Op>, n: nat, have: nat)
    returns (s: seq<seq<Member>>, o: seq<Op>)
    requires Run(l, states, ops) && states[|ops|] == [Member(Out, n, have)]
    requires n + 3 == l.maxSteps && have < l.maxTokens
    ensures Run(l, s, o)
    ensures s[|o|] == [Member(Compacting, n + 1, have), Member(Compacting, 1, 0), Member(Compacting, 1, 0)]
  {
    var a0, a1, m0, m1 := Member(Out, n, have), Member(Compacting, n + 1, have), Member(Out, 0, 0),
      Member(Compacting, 1, 0);
    s, o := Extend(l, states, ops, Spawn);
    s, o := Extend(l, s, o, Spawn);
    assert s[|o|] == [a0, m0, m0];
    Three(a0, m0, m0);
    s, o := Extend(l, s, o, Reserve(0));
    assert s[|o|] == [a1, m0, m0];
    Three(a1, m0, m0);
    s, o := Extend(l, s, o, Reserve(1));
    assert s[|o|] == [a1, m1, m0];
    Three(a1, m1, m0);
    s, o := Extend(l, s, o, Reserve(2));
    assert s[|o|] == [a1, m1, m1];
  }

  /** The root compacts at some cost and perhaps gets an answer, then the children compact. */
  lemma Overspend(l: Limits, states: seq<seq<Member>>, ops: seq<Op>, n: nat, have: nat)
    returns (s: seq<seq<Member>>, o: seq<Op>)
    requires Run(l, states, ops) && n + 3 == l.maxSteps && have + 1 == l.maxTokens
    requires states[|ops|] == [Member(Compacting, n + 1, have), Member(Compacting, 1, 0), Member(Compacting, 1, 0)]
    ensures Run(l, s, o) && Steps(s[|o|]) == l.maxSteps + 3 && Tokens(s[|o|]) == TokenBound(l)
  {
    var m1, m2 := Member(Compacting, 1, 0), Member(Asking, 2, l.compaction);
    var root;
    s, o, root := RootFirst(l, states, ops, n, have);
    s, o := Extend(l, s, o, Compact(1, l.compaction));
    assert s[|o|] == [root, m2, m1];
    s, o := Extend(l, s, o, Compact(2, l.compaction));
    assert s[|o|] == [root, m2, m2];
    Three(root, m2, m2);
  }

  lemma RootFirst(l: Limits, states: seq<seq<Member>>, ops: seq<Op>, n: nat, have: nat)
    returns (s: seq<seq<Member>>, o: seq<Op>, root: Member)
    requires Run(l, states, ops) && have + 1 == l.maxTokens
    requires states[|ops|] == [Member(Compacting, n + 1, have), Member(Compacting, 1, 0), Member(Compacting, 1, 0)]
    ensures Run(l, s, o) && s[|o|] == [root, Member(Compacting, 1, 0), Member(Compacting, 1, 0)] && root.steps == n + 2
    ensures root.tokens == have + if l.response >= l.compaction then l.response else l.compaction
  {
    var m1, asking := Member(Compacting, 1, 0), Member(Asking, n + 2, have);
    if l.response >= l.compaction {
      s, o := Extend(l, states, ops, Compact(0, 0));
      assert s[|o|] == [asking, m1, m1];
      Three(asking, m1, m1);
      root := Member(Out, n + 2, have + l.response);
      s, o := Extend(l, s, o, Answer(0, l.response));
      assert s[|o|] == [root, m1, m1];
    } else {
      root := Member(Asking, n + 2, have + l.compaction);
      s, o := Extend(l, states, ops, Compact(0, l.compaction));
      assert s[|o|] == [root, m1, m1];
    }
  }

  /** Both bounds are reached at once, for all limits under which the turns suffice to spend the tokens. */
  lemma BoundIsReached(l: Limits) returns (states: seq<seq<Member>>, ops: seq<Op>)
    requires l.maxSteps >= 3 && l.maxTokens >= 1 && l.maxTokens - 1 <= l.response * (l.maxSteps - 3)
    ensures Run(l, states, ops) && Steps(states[|ops|]) == l.maxSteps + 3 && Tokens(states[|ops|]) == TokenBound(l)
  {
    states, ops := Spend(l, l.maxSteps - 3, l.maxTokens - 1);
    states, ops := AllReserve(l, states, ops, l.maxSteps - 3, l.maxTokens - 1);
    states, ops := Overspend(l, states, ops, l.maxSteps - 3, l.maxTokens - 1);
  }

  // ---- The checks and charges of the task rows ----

  class FamilyRows {
    var members: seq<Member>

    constructor ()
      ensures members == [Member(Out, 0, 0)]
    {
      members := [Member(Out, 0, 0)];
    }

    /** The sums over the rows of the family. */
    method Budget() returns (steps: nat, tokens: nat)
      ensures steps == Steps(members) && tokens == Tokens(members)
    {
      steps, tokens := 0, 0;
      for i := 0 to |members|
        invariant steps == Steps(members[..i]) && tokens == Tokens(members[..i])
      {
        assert members[..i + 1][..i] == members[..i];
        steps, tokens := steps + members[i].steps, tokens + members[i].tokens;
      }
      assert members[..|members|] == members;
    }

    /** The check before a turn and the charge of the turn, in one stretch. */
    method ReserveTurn(l: Limits, i: nat) returns (ok: bool)
      requires i < |members| && members[i].phase.Out?
      modifies this
      ensures members == Step(l, old(members), Reserve(i))
      ensures ok <==> Steps(old(members)) < l.maxSteps && Tokens(old(members)) < l.maxTokens
    {
      var steps, tokens := Budget();
      ok := steps < l.maxSteps && tokens < l.maxTokens;
      if ok {
        members := members[i := Member(Compacting, members[i].steps + 1, members[i].tokens)];
      }
    }

    /** A compaction is charged without a check. */
    method ChargeCompaction(l: Limits, i: nat, tokens: nat)
      requires i < |members| && members[i].phase.Compacting? && tokens <= l.compaction
      modifies this
      ensures members == Step(l, old(members), Compact(i, tokens))
    {
      members := members[i := Member(Asking, members[i].steps + 1, members[i].tokens + tokens)];
    }

    /** A response is charged only if the family was within its tokens before it. */
    method ChargeResponse(l: Limits, i: nat, spent: nat) returns (ok: bool)
      requires i < |members| && members[i].phase.Asking? && spent <= l.response
      modifies this
      ensures members == Step(l, old(members), Answer(i, spent))
    {
      var _, tokens := Budget();
      ok := tokens < l.maxTokens;
      if ok {
        members := members[i := Member(Out, members[i].steps, members[i].tokens + spent)];
      }
    }
  }
}
