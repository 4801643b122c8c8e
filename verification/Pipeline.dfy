/** The memory pipeline: captures are interpreted in source order, one reduction at a time, and a result that has
    gone stale while the model worked is never committed. */
module Pipeline {
  import opened Evidence
  import opened Sorting
  import W = Window

  datatype Status = Queued | Observing | Ready | Reducing | Committed | Failed

  datatype Capture = Capture(id: string, session: string, sequence: int, capturedAt: real, vision: bool, single: bool,
                             status: Status)

  /** A saved transcript revision of a session. */
  datatype Heard = Heard(session: string, t: W.Transcript)

  /** The evidence of one capture, with the window of speech it hears. */
  datatype Packet = Packet(id: string, version: nat, audio: W.Audio)

  /** A reduction in flight: the captures and packets it works on, the generation it started at, and the queue it
      was cut from. */
  datatype Job = Job(batch: seq<Capture>, packets: seq<Packet>, generation: nat, queue: seq<Capture>)

  datatype Config = Config(byKey: (W.Id, W.Id) -> bool, byId: (string, string) -> bool, words: int, batchSize: nat,
                           batches: bool)

  /** `base` is how many corrections and removals came before the process started, which counts from zero. */
  datatype State = State(captures: seq<Capture>, saved: seq<Heard>, forgotten: nat, base: nat, generation: nat,
                         drafts: map<string, Packet>, committed: set<(string, nat)>,
                         observing: set<string>, reducing: set<string>, jobs: seq<Job>, running: bool,
                           commits: seq<Job>)

  datatype Op =
    | Upload(capture: Capture)
    | Hear(session: string, t: W.Transcript, requeued: set<string>)
    | Forget
    | StartVision(id: string)
    | Seen(id: string, ok: bool)
    | Select(wait: bool)
    | ContextReady(job: nat)
    | Answer(job: nat, valid: bool)
    | GiveUp(job: nat, single: bool)
    | Retry(id: string)
    | Stop
    | Crash
    | Begin

  // ---- Queries ----

  function Pending(captures: seq<Capture>): seq<Capture> {
    if captures == [] then []
    else
      var c := captures[|captures| - 1];
      Pending(captures[..|captures| - 1]) + if c.status.Committed? || c.status.Failed? then [] else [c]
  }

  predicate Sooner(cfg: Config, a: Capture, b: Capture) {
    a.capturedAt < b.capturedAt
    || (a.capturedAt == b.capturedAt && a.sequence < b.sequence)
    || (a.capturedAt == b.capturedAt && a.sequence == b.sequence && cfg.byId(a.id, b.id))
  }

  function BySource(cfg: Config): (Capture, Capture) -> bool {
    (a, b) => Sooner(cfg, a, b)
  }

  /** The pending captures in source order. */
  function Queue(cfg: Config, s: State): seq<Capture> {
    Sort(BySource(cfg), Pending(s.captures))
  }

  function SpokenIn(saved: seq<Heard>, session: string): seq<W.Transcript> {
    if saved == [] then []
    else
      var last := saved[|saved| - 1];
      SpokenIn(saved[..|saved| - 1], session) + if last.session == session then [last.t] else []
  }

  lemma {:induction false} SpokenInIs(saved: seq<Heard>, session: string, t: W.Transcript)
    ensures t in SpokenIn(saved, session) <==> Heard(session, t) in saved
  {
    if saved != [] { SpokenInIs(saved[..|saved| - 1], session, t); }
  }

  /** The speech a capture hears, as the transcripts in force say it. */
  function WindowOf(cfg: Config, s: State, c: Capture): W.Audio {
    W.TranscriptWindow(W.Frame(c.capturedAt, cfg.words, None), cfg.byKey, SpokenIn(s.saved, c.session))
  }

  /** The packet and the capture hear the same final speech. */
  predicate SameSpeech(cfg: Config, s: State, p: Packet, c: Capture) {
    W.Signature(p.audio.segments) == W.Signature(WindowOf(cfg, s, c).segments)
  }

  /** The newest saved revision of a segment. */
  function Previous(saved: seq<Heard>, session: string, segment: string): Option<W.Transcript> {
    if saved == [] then None
    else
      var before, h := Previous(saved[..|saved| - 1], session, segment), saved[|saved| - 1];
      if h.session == session && h.t.segment == segment && (before.None? || before.value.revision < h.t.revision)
      then Some(h.t) else before
  }

  /** A final revision of speech that was final before. */
  predicate IsCorrection(saved: seq<Heard>, h: Heard) {
    var previous := Previous(saved, h.session, h.t.segment);
    h.t.final && previous.Some? && previous.value.final && previous.value.revision < h.t.revision
  }

  function Corrections(saved: seq<Heard>): nat {
    if saved == [] then 0
    else Corrections(saved[..|saved| - 1]) + if IsCorrection(saved[..|saved| - 1], saved[|saved| - 1]) then 1 else 0
  }

  /** A revision is saved unless it is known, or a partial of speech that is final already. */
  predicate Saves(saved: seq<Heard>, h: Heard) {
    && (forall i :: 0 <= i < |saved| ==> !(saved[i].session == h.session && saved[i].t.Key() == h.t.Key()))
    && (!h.t.final ==>
          forall i :: 0 <= i < |saved| ==>
            !(saved[i].session == h.session && saved[i].t.segment == h.t.segment && saved[i].t.final))
  }

  predicate HasCommitted(s: State, id: string) {
    exists p :: p in s.committed && p.0 == id
  }

  predicate Batchable(s: State, c: Capture) {
    !c.single && !HasCommitted(s, c.id)
  }

  /** How far the batch extends from `n` captures: ready, batchable ones of the same session, up to the limit. */
  function Extent(cfg: Config, s: State, queue: seq<Capture>, n: nat): (m: nat)
    requires 0 < n <= |queue|
    ensures n <= m <= |queue|
    decreases |queue| - n
  {
    if n == |queue| || n >= cfg.batchSize || !queue[n].status.Ready? || queue[n].session != queue[0].session
      || !Batchable(s, queue[n])
    then n
    else Extent(cfg, s, queue, n + 1)
  }

  function BatchOf(cfg: Config, s: State, queue: seq<Capture>): seq<Capture>
    requires queue != []
  {
    queue[..if cfg.batches && Batchable(s, queue[0]) then Extent(cfg, s, queue, 1) else 1]
  }

  /** The packet of a capture: its draft, unless that is committed or hears other final speech by now. */
  function PacketOf(cfg: Config, s: State, c: Capture): Packet {
    if c.id in s.drafts && (c.id, s.drafts[c.id].version) !in s.committed
      && SameSpeech(cfg, s, s.drafts[c.id], c)
    then s.drafts[c.id]
    else Packet(c.id, if c.id in s.drafts then s.drafts[c.id].version + 1 else 1, WindowOf(cfg, s, c))
  }

  function PacketsOf(cfg: Config, s: State, batch: seq<Capture>): seq<Packet> {
    seq(|batch|, i requires 0 <= i < |batch| => PacketOf(cfg, s, batch[i]))
  }

  function SaveDrafts(drafts: map<string, Packet>, packets: seq<Packet>): map<string, Packet> {
    if packets == [] then drafts
    else SaveDrafts(drafts, packets[..|packets| - 1])[packets[|packets| - 1].id := packets[|packets| - 1]]
  }

  /** A capture that was seen gets its packet at once. */
  function DraftSeen(cfg: Config, s: State, id: string): map<string, Packet> {
    SaveDrafts(s.drafts, PacketsOf(cfg, s, WithId(s.captures, id)))
  }

  function WithId(captures: seq<Capture>, id: string): seq<Capture> {
    if captures == [] then []
    else
      var c := captures[|captures| - 1];
      WithId(captures[..|captures| - 1], id) + if c.id == id then [c] else []
  }

  function Ids(batch: seq<Capture>): set<string> {
    set c | c in batch :: c.id
  }

  function SetStatus(captures: seq<Capture>, ids: set<string>, status: Status): seq<Capture> {
    seq(|captures|, i requires 0 <= i < |captures| =>
      if captures[i].id in ids then captures[i].(status := status) else captures[i])
  }

  // ---- Steps ----

  function Restored(c: Capture): Capture {
    c.(status := if c.vision then Ready else Queued)
  }

  /** A newer final sends interpreted captures back to be interpreted again. */
  function Requeued(captures: seq<Capture>, ids: set<string>): seq<Capture> {
    seq(|captures|, i requires 0 <= i < |captures| =>
      if captures[i].id in ids && (captures[i].status.Committed? || captures[i].status.Failed?)
        then Restored(captures[i]) else captures[i])
  }

  function HearSpec(s: State, h: Heard, requeued: set<string>): State {
    if !Saves(s.saved, h) then s
    else s.(saved := s.saved + [h],
            generation := if IsCorrection(s.saved, h) then s.generation + 1 else s.generation,
            captures := if h.t.final then Requeued(s.captures, requeued) else s.captures)
  }

  function SelectSpec(cfg: Config, s: State, wait: bool): State {
    var queue := Queue(cfg, s);
    if !s.running || s.reducing != {} || queue == [] || !queue[0].status.Ready? || wait then s
    else
      var batch := BatchOf(cfg, s, queue);
      var packets := PacketsOf(cfg, s, batch);
      s.(captures := SetStatus(s.captures, Ids(batch), Reducing),
         reducing := Ids(batch),
         drafts := SaveDrafts(s.drafts, packets),
         jobs := s.jobs + [Job(batch, packets, s.generation, queue)])
  }

  /** A reduction ends: it leaves the list, and the set of captures being reduced is cleared. */
  function Ended(s: State, k: nat): State
    requires k < |s.jobs|
  {
    s.(jobs := s.jobs[..k] + s.jobs[k + 1..], reducing := {})
  }

  function Requeue(s: State, k: nat): State
    requires k < |s.jobs|
  {
    Ended(s.(captures := SetStatus(s.captures, Ids(s.jobs[k].batch), Ready)), k)
  }

  /** Nothing the reduction was built on has changed. */
  predicate Fresh(cfg: Config, s: State, job: Job) {
    && job.generation == s.generation
    && |job.packets| == |job.batch|
    && forall i :: 0 <= i < |job.batch| ==> SameSpeech(cfg, s, job.packets[i], job.batch[i])
  }

  function CommittedVersions(packets: seq<Packet>): set<(string, nat)> {
    set p | p in packets :: (p.id, p.version)
  }

  function CommitSpec(s: State, k: nat): State
    requires k < |s.jobs|
  {
    var job := s.jobs[k];
    Ended(s.(captures := SetStatus(s.captures, Ids(job.batch), Committed),
             committed := s.committed + CommittedVersions(job.packets),
             commits := s.commits + [job]), k)
  }

  function GiveUpSpec(s: State, k: nat, single: bool): State
    requires k < |s.jobs|
  {
    var ids := Ids(s.jobs[k].batch);
    var captures :=
      if single && |s.jobs[k].batch| > 1
      then seq(|s.captures|, i requires 0 <= i < |s.captures| =>
             if s.captures[i].id in ids then s.captures[i].(single := true, status := Ready) else s.captures[i])
      else SetStatus(s.captures, ids, Failed);
    Ended(s.(captures := captures), k)
  }

  function Step(cfg: Config, s: State, op: Op): State {
    match op
    case Upload(c) => s.(captures := s.captures + [c.(status := Queued, vision := false, single := false)])
    case Hear(session, t, requeued) => HearSpec(s, Heard(session, t), requeued)
    case Forget => s.(forgotten := s.forgotten + 1, generation := s.generation + 1)
    case StartVision(id) =>
      if s.running && id !in s.observing
      then s.(observing := s.observing + {id}, captures := SetStatus(s.captures, {id}, Observing)) else s
    case Seen(id, ok) =>
      if id !in s.observing then s
      else
        var seen := s.(observing := s.observing - {id});
        if ok then seen.(
          drafts := DraftSeen(cfg, s, id),
          captures := seq(|s.captures|, i requires 0 <= i < |s.captures| =>
            if s.captures[i].id == id then s.captures[i].(vision := true, status := Ready) else s.captures[i]))
        else seen.(captures := SetStatus(s.captures, {id}, Failed))
    case Select(wait) => SelectSpec(cfg, s, wait)
    case ContextReady(k) => if k < |s.jobs| && s.jobs[k].generation != s.generation then Requeue(s, k) else s
    case Answer(k, valid) =>
      if k >= |s.jobs| then s
      else if !Fresh(cfg, s, s.jobs[k]) then Requeue(s, k)
      else if valid then CommitSpec(s, k)
      else GiveUpSpec(s, k, true)
    case GiveUp(k, single) => if k < |s.jobs| then GiveUpSpec(s, k, single) else s
    case Retry(id) =>
      if id in s.observing || id in s.reducing then s
      else s.(captures := seq(|s.captures|, i requires 0 <= i < |s.captures| =>
        if s.captures[i].id == id then Restored(s.captures[i]) else s.captures[i]))
    case Stop => s.(running := false)
    case Crash => s.(running := false, observing := {}, reducing := {}, jobs := [], generation := 0,
                       base := Corrections(s.saved) + s.forgotten)
    case Begin =>
      if s.running then s
      else s.(running := true, captures := seq(|s.captures|, i requires 0 <= i < |s.captures| =>
        if s.captures[i].status.Observing? || s.captures[i].status.Reducing? then Restored(s.captures[i])
          else s.captures[i]))
  }

  ghost predicate Run(cfg: Config, states: seq<State>, ops: seq<Op>) {
    |states| == |ops| + 1 && Starts(states[0]) && forall i :: 0 <= i < |ops| ==>
      states[i + 1] == Step(cfg, states[i], ops[i])
  }

  /** The drafts are kept by the capture they are of. */
  predicate Named(drafts: map<string, Packet>) {
    forall id :: id in drafts ==> drafts[id].id == id
  }

  predicate Starts(s: State) {
    s.saved == [] && s.generation == 0 && s.base == 0 && s.forgotten == 0 && s.reducing == {} && s.jobs == []
      && s.commits == [] && Named(s.drafts)
  }

  // ---- At most one reduction ----

  predicate OneAtATime(s: State) {
    |s.jobs| <= 1 && (s.jobs == [] <==> s.reducing == {})
  }

  lemma BatchNotEmpty(cfg: Config, s: State, queue: seq<Capture>)
    requires queue != []
    ensures BatchOf(cfg, s, queue) != [] && Ids(BatchOf(cfg, s, queue)) != {}
  {
    assert BatchOf(cfg, s, queue)[0].id in Ids(BatchOf(cfg, s, queue));
  }

  lemma OneKept(cfg: Config, s: State, op: Op)
    requires OneAtATime(s)
    ensures OneAtATime(Step(cfg, s, op))
  {
    if op.Select? {
      var queue := Queue(cfg, s);
      if queue != [] { BatchNotEmpty(cfg, s, queue); }
    }
  }

  lemma {:induction false} OneReductionInFlight(cfg: Config, states: seq<State>, ops: seq<Op>, i: nat)
    requires Run(cfg, states, ops) && i < |states|
    ensures OneAtATime(states[i])
  {
    if i > 0 {
      OneReductionInFlight(cfg, states, ops, i - 1);
      OneKept(cfg, states[i - 1], ops[i - 1]);
    }
  }

  // ---- The generation counts corrections ----

  predicate Counted(s: State) {
    s.generation + s.base == Corrections(s.saved) + s.forgotten
  }

  /** Transcripts are only added, and the counters only grow. */
  ghost predicate Later(s: State, after: State) {
    s.saved <= after.saved && s.forgotten <= after.forgotten && Counted(after)
  }

  lemma CorrectionsAppend(saved: seq<Heard>, h: Heard)
    ensures Corrections(saved + [h]) == Corrections(saved) + if IsCorrection(saved, h) then 1 else 0
  {
    assert (saved + [h])[..|saved|] == saved;
  }

  lemma OthersKeepSpeech(cfg: Config, s: State, op: Op)
    requires !op.Hear?
    ensures var after := Step(cfg, s, op);
            && after.saved == s.saved && s.forgotten <= after.forgotten
            && (op.Crash? || after.generation + after.base - after.forgotten == s.generation + s.base - s.forgotten)
            && (op.Crash? ==>
                  after.generation + after.base
                  == Corrections(s.saved) + s.forgotten == Corrections(s.saved) + after.forgotten)
  {}

  lemma StepLater(cfg: Config, s: State, op: Op)
    requires Counted(s)
    ensures Later(s, Step(cfg, s, op))
  {
    if op.Hear? {
      CorrectionsAppend(s.saved, Heard(op.session, op.t));
    } else {
      OthersKeepSpeech(cfg, s, op);
    }
  }

  lemma {:induction false} RunCounted(cfg: Config, states: seq<State>, ops: seq<Op>, i: nat)
    requires Run(cfg, states, ops) && i < |states|
    ensures Counted(states[i])
    ensures i > 0 ==> Later(states[i - 1], states[i])
  {
    if i == 0 {
      assert states[0].saved == [];
    } else {
      RunCounted(cfg, states, ops, i - 1);
      StepLater(cfg, states[i - 1], ops[i - 1]);
    }
  }

  lemma {:induction false} RunLater(cfg: Config, states: seq<State>, ops: seq<Op>, k: nat, i: nat)
    requires Run(cfg, states, ops) && k <= i < |states|
    ensures Counted(states[k]) && Later(states[k], states[i])
    decreases i
  {
    forall j: nat | j < |states| ensures LaterAt(states, j) {
      RunCounted(cfg, states, ops, j);
    }
    LaterAcross(states, k, i);
  }

  lemma {:induction false} LaterAcross(states: seq<State>, k: nat, i: nat)
    requires k <= i < |states| && forall j: nat :: j < |states| ==> LaterAt(states, j)
    ensures Counted(states[k]) && Later(states[k], states[i])
    decreases i
  {
    assert LaterAt(states, k) && LaterAt(states, i);
    if k < i {
      LaterAcross(states, k, i - 1);
      LaterTwice(states[k], states[i - 1], states[i]);
    }
  }

  ghost predicate LaterAt(states: seq<State>, j: nat)
    requires j < |states|
  {
    Counted(states[j]) && (j > 0 ==> Later(states[j - 1], states[j]))
  }

  lemma LaterTwice(a: State, b: State, c: State)
    requires Later(a, b) && Later(b, c)
    ensures Later(a, c)
  {}

  lemma {:induction false} NoCorrectionBetween(saved: seq<Heard>, n: nat, j: nat)
    requires n <= j < |saved| && Corrections(saved) <= Corrections(saved[..n])
    ensures !IsCorrection(saved[..j], saved[j])
    decreases |saved|
  {
    var front := saved[..|saved| - 1];
    assert front[..n] == saved[..n];
    CorrectionsGrow(front, n);
    if j < |front| {
      NoCorrectionBetween(front, n, j);
      assert front[..j] == saved[..j];
    }
  }

  lemma {:induction false} CorrectionsGrow(saved: seq<Heard>, n: nat)
    requires n <= |saved|
    ensures Corrections(saved[..n]) <= Corrections(saved)
    decreases |saved|
  {
    if n < |saved| {
      var front := saved[..|saved| - 1];
      assert front[..n] == saved[..n];
      CorrectionsGrow(front, n);
    } else {
      assert saved[..n] == saved;
    }
  }

  // ---- What a commit was chosen from ----

  /** The job is what a selection in this state makes. */
  ghost predicate ChosenAt(cfg: Config, s: State, job: Job) {
    && job.queue == Queue(cfg, s) && job.queue != [] && s.running && s.reducing == {}
    && job.batch == BatchOf(cfg, s, job.queue) && job.queue[0].status.Ready?
    && job.packets == PacketsOf(cfg, s, job.batch) && job.generation == s.generation
  }

  /** Every job in flight was chosen at some earlier state of the run. */
  lemma {:induction false} JobsWereChosen(cfg: Config, states: seq<State>, ops: seq<Op>, i: nat, n: nat)
    returns (k: nat)
    requires Run(cfg, states, ops) && i < |states| && n < |states[i].jobs|
    ensures k < i && ops[k].Select? && ChosenAt(cfg, states[k], states[i].jobs[n]) && states[k].base == states[i].base
    decreases i
  {
    if i == 0 {
      assert false;
    } else {
      var s, op := states[i - 1], ops[i - 1];
      var m := JobBefore(cfg, s, op, n);
      if m >= 0 {
        k := JobsWereChosen(cfg, states, ops, i - 1, m);
      } else {
        k := i - 1;
      }
    }
  }

  lemma BaseKept(cfg: Config, s: State, op: Op)
    requires Step(cfg, s, op).jobs != []
    ensures Step(cfg, s, op).base == s.base
  {}

  /** Steps keep the jobs in flight, add the one chosen, or remove one. */
  lemma JobsChange(cfg: Config, s: State, op: Op)
    ensures var after := Step(cfg, s, op).jobs;
            || after == s.jobs
            || after == []
            || (op.Select? && |after| == |s.jobs| + 1 && after[..|s.jobs|] == s.jobs)
            || exists k :: 0 <= k < |s.jobs| && after == s.jobs[..k] + s.jobs[k + 1..]
  {}

  lemma JobBefore(cfg: Config, s: State, op: Op, n: nat) returns (m: int)
    requires n < |Step(cfg, s, op).jobs|
    ensures Step(cfg, s, op).base == s.base
    ensures m >= 0 ==> m < |s.jobs| && s.jobs[m] == Step(cfg, s, op).jobs[n]
    ensures m < 0 ==> op.Select? && ChosenAt(cfg, s, Step(cfg, s, op).jobs[n])
  {
    BaseKept(cfg, s, op);
    JobsChange(cfg, s, op);
    var after := Step(cfg, s, op).jobs;
    if after == s.jobs {
      m := n;
    } else if op.Select? {
      m := if n < |s.jobs| then n else -1;
      assert n < |s.jobs| ==> after[..|s.jobs|][n] == after[n];
    } else {
      var k :| 0 <= k < |s.jobs| && after == s.jobs[..k] + s.jobs[k + 1..];
      m := if n < k then n else n + 1;
    }
  }

  lemma {:induction false} ExtentSame(cfg: Config, s: State, queue: seq<Capture>, n: nat, j: nat)
    requires 0 < n <= |queue| && n <= j < Extent(cfg, s, queue, n)
    ensures queue[j].status.Ready? && queue[j].session == queue[0].session && j < cfg.batchSize
        && Batchable(s, queue[j])
    decreases |queue| - n
  {
    if j > n { ExtentSame(cfg, s, queue, n + 1, j); }
  }

  lemma BatchIsPrefix(cfg: Config, s: State, queue: seq<Capture>)
    requires queue != [] && queue[0].status.Ready?
    ensures var batch := BatchOf(cfg, s, queue);
            && batch <= queue && batch != []
            && (forall j :: 0 <= j < |batch| ==> batch[j].status.Ready? && batch[j].session == queue[0].session)
            && (|batch| > 1 ==> forall j :: 0 <= j < |batch| ==> Batchable(s, batch[j]))
  {
    var batch := BatchOf(cfg, s, queue);
    forall j | 1 <= j < |batch|
      ensures batch[j].status.Ready? && batch[j].session == queue[0].session && Batchable(s, batch[j])
    {
      ExtentSame(cfg, s, queue, 1, j);
    }
  }

  lemma {:induction false} PendingAre(captures: seq<Capture>, c: Capture)
    ensures multiset(Pending(captures))[c]
            == if c.status.Committed? || c.status.Failed? then 0 else multiset(captures)[c]
  {
    if captures != [] {
      var front, last := captures[..|captures| - 1], captures[|captures| - 1];
      PendingAre(front, c);
      assert captures == front + [last];
    }
  }

  lemma QueueInOrder(cfg: Config, s: State)
    requires TotalOrder(cfg.byId)
    ensures Sorted(BySource(cfg), Queue(cfg, s))
    ensures forall c: Capture :: multiset(Queue(cfg, s))[c]
              == if c.status.Committed? || c.status.Failed? then 0 else multiset(s.captures)[c]
  {
    forall c: Capture ensures multiset(Pending(s.captures))[c]
        == if c.status.Committed? || c.status.Failed? then 0 else multiset(s.captures)[c]
    {
      PendingAre(s.captures, c);
    }
    forall a: Capture, b: Capture ensures Sooner(cfg, a, b) || Sooner(cfg, b, a) {}
    forall a: Capture, b: Capture, c: Capture | Sooner(cfg, a, b) && Sooner(cfg, b, c) ensures Sooner(cfg, a, c) {
      assert cfg.byId(a.id, b.id) && cfg.byId(b.id, c.id) ==> cfg.byId(a.id, c.id);
    }
    SortSorted(BySource(cfg), BySource(cfg), Pending(s.captures));
    SortHolds(BySource(cfg), Pending(s.captures));
  }

  /** The capture may follow the first of its batch. */
  predicate Joins(cfg: Config, s: State, queue: seq<Capture>, j: nat)
    requires j < |queue|
  {
    queue[j].status.Ready? && queue[j].session == queue[0].session && Batchable(s, queue[j])
  }

  lemma {:induction false} ExtentIs(cfg: Config, s: State, queue: seq<Capture>, n: nat, m: nat)
    requires 0 < n <= m <= |queue|
    ensures m <= Extent(cfg, s, queue, n) <==>
              m <= n || (m <= cfg.batchSize && forall j :: n <= j < m ==> Joins(cfg, s, queue, j))
    decreases |queue| - n
  {
    if n < m {
      if n >= cfg.batchSize || !Joins(cfg, s, queue, n) {
        assert Extent(cfg, s, queue, n) == n;
      } else {
        ExtentIs(cfg, s, queue, n + 1, m);
      }
    }
  }

  /** A batch is as long as it may be: more than one capture exactly when the model takes batches, the first capture
      is batchable and so are all that follow, which are ready and of its session, up to the limit. */
  lemma BatchIsLongest(cfg: Config, s: State, queue: seq<Capture>, m: nat)
    requires 1 < m <= |queue|
    ensures m <= |BatchOf(cfg, s, queue)| <==>
              && cfg.batches && m <= cfg.batchSize && Batchable(s, queue[0])
              && forall j :: 1 <= j < m ==> Joins(cfg, s, queue, j)
  {
    ExtentIs(cfg, s, queue, 1, m);
  }

  lemma {:induction false} SavedNamed(drafts: map<string, Packet>, packets: seq<Packet>)
    requires Named(drafts)
    ensures Named(SaveDrafts(drafts, packets))
  {
    if packets != [] { SavedNamed(drafts, packets[..|packets| - 1]); }
  }

  lemma {:induction false} RunNamed(cfg: Config, states: seq<State>, ops: seq<Op>, i: nat)
    requires Run(cfg, states, ops) && i < |states|
    ensures Named(states[i].drafts)
  {
    if i > 0 {
      RunNamed(cfg, states, ops, i - 1);
      StepNamed(cfg, states[i - 1], ops[i - 1]);
    }
  }

  lemma StepNamed(cfg: Config, s: State, op: Op)
    requires Named(s.drafts)
    ensures Named(Step(cfg, s, op).drafts)
  {
    if op.Seen? {
      SavedNamed(s.drafts, PacketsOf(cfg, s, WithId(s.captures, op.id)));
    } else if op.Select? {
      var queue := Queue(cfg, s);
      if queue != [] { SavedNamed(s.drafts, PacketsOf(cfg, s, BatchOf(cfg, s, queue))); }
    }
  }

  /** Whenever a run commits: the batch was, when it was chosen, a prefix of one session of the pending captures in
      source order, all of them ready; since then no correction of final speech was saved and nobody was forgotten;
      and the final groups of each packet are those of its capture's window at the commit, as they were of the window
      when chosen. */
  lemma CommitsAreFresh(cfg: Config, states: seq<State>, ops: seq<Op>, i: nat) returns (k: nat)
    requires Run(cfg, states, ops) && TotalOrder(cfg.byId) && i < |ops| && states[i + 1].commits != states[i].commits
    ensures |states[i + 1].commits| == |states[i].commits| + 1 && k < i && ops[k].Select?
    ensures var job := states[i + 1].commits[|states[i].commits|];
            && |job.packets| == |job.batch| > 0
            && job.batch <= Queue(cfg, states[k]) && Sorted(BySource(cfg), Queue(cfg, states[k]))
            && (forall j :: 0 <= j < |job.batch| ==>
                  && job.batch[j].status.Ready? && job.batch[j].session == job.batch[0].session
                  && job.packets[j].id == job.batch[j].id
                  && HearsFinals(cfg, states[i], job.packets[j], job.batch[j])
                  && HearsFinals(cfg, states[k], job.packets[j], job.batch[j])
                  && W.SameFinals(WindowOf(cfg, states[k], job.batch[j]).segments,
                                  WindowOf(cfg, states[i], job.batch[j]).segments))
    ensures states[k].saved <= states[i].saved && states[k].forgotten == states[i].forgotten
    ensures forall j :: |states[k].saved| <= j < |states[i].saved| ==>
          !IsCorrection(states[i].saved[..j], states[i].saved[j])
  {
    var s, op := states[i], ops[i];
    CommitIsAnswer(cfg, s, op);
    var job := s.jobs[op.job];
    k := JobsWereChosen(cfg, states, ops, i, op.job);
    RunNamed(cfg, states, ops, k);
    ChosenFresh(cfg, states[k], s, job);
    RunLater(cfg, states, ops, k, i);
    SinceChosen(states[k], s);
  }

  /** The packet holds exactly the final transcripts, and words of them, that the capture's window holds. */
  ghost predicate HearsFinals(cfg: Config, s: State, p: Packet, c: Capture) {
    W.SameFinals(p.audio.segments, WindowOf(cfg, s, c).segments)
  }

  lemma SpeechIsFinals(cfg: Config, s: State, p: Packet, c: Capture)
    ensures SameSpeech(cfg, s, p, c) <==> HearsFinals(cfg, s, p, c)
  {
    W.SignaturesAgree(p.audio.segments, WindowOf(cfg, s, c).segments);
  }

  /** An answer commits its reduction exactly when it is valid, no correction or removal came since the reduction
      began, and every packet still holds the final speech of its capture's window. */
  lemma CommitsExactly(cfg: Config, s: State, k: nat, valid: bool)
    requires k < |s.jobs| && |s.jobs[k].packets| == |s.jobs[k].batch|
    ensures var job, after := s.jobs[k], Step(cfg, s, Answer(k, valid));
            after.commits == s.commits + [job] <==>
              && valid && job.generation == s.generation
              && forall j :: 0 <= j < |job.batch| ==> HearsFinals(cfg, s, job.packets[j], job.batch[j])
  {
    var job := s.jobs[k];
    forall j | 0 <= j < |job.batch|
      ensures SameSpeech(cfg, s, job.packets[j], job.batch[j]) <==> HearsFinals(cfg, s, job.packets[j], job.batch[j])
    {
      SpeechIsFinals(cfg, s, job.packets[j], job.batch[j]);
    }
    assert s.commits != s.commits + [job];
  }

  lemma ChosenFresh(cfg: Config, s: State, now: State, job: Job)
    requires TotalOrder(cfg.byId) && ChosenAt(cfg, s, job) && Fresh(cfg, now, job) && Named(s.drafts)
    ensures |job.packets| == |job.batch| > 0 && job.batch <= Queue(cfg, s) && Sorted(BySource(cfg), Queue(cfg, s))
    ensures forall j :: 0 <= j < |job.batch| ==>
              && job.batch[j].status.Ready? && job.batch[j].session == job.batch[0].session
              && job.packets[j].id == job.batch[j].id
              && HearsFinals(cfg, now, job.packets[j], job.batch[j])
              && HearsFinals(cfg, s, job.packets[j], job.batch[j])
              && W.SameFinals(WindowOf(cfg, s, job.batch[j]).segments, WindowOf(cfg, now, job.batch[j]).segments)
  {
    assert Sorted(BySource(cfg), Queue(cfg, s)) by { QueueInOrder(cfg, s); }
    BatchIsPrefix(cfg, s, job.queue);
    forall j | 0 <= j < |job.batch|
      ensures HearsFinals(cfg, now, job.packets[j], job.batch[j]) && HearsFinals(cfg, s, job.packets[j], job.batch[j])
      ensures W.SameFinals(WindowOf(cfg, s, job.batch[j]).segments, WindowOf(cfg, now, job.batch[j]).segments)
      ensures job.packets[j].id == job.batch[j].id
    {
      var c, p := job.batch[j], job.packets[j];
      assert p == PacketOf(cfg, s, c) && SameSpeech(cfg, now, p, c);
      SpeechIsFinals(cfg, s, p, c);
      SpeechIsFinals(cfg, now, p, c);
      W.SignaturesAgree(WindowOf(cfg, s, c).segments, WindowOf(cfg, now, c).segments);
    }
  }

  lemma CommitIsAnswer(cfg: Config, s: State, op: Op)
    requires Step(cfg, s, op).commits != s.commits
    ensures op.Answer? && op.job < |s.jobs| && Fresh(cfg, s, s.jobs[op.job])
    ensures Step(cfg, s, op).commits == s.commits + [s.jobs[op.job]]
  {}

  /** The generation is the same only if no correction was saved and nobody was forgotten. */
  lemma SinceChosen(s: State, after: State)
    requires Counted(s) && Later(s, after) && s.generation == after.generation && s.base == after.base
    ensures s.forgotten == after.forgotten
    ensures forall j :: |s.saved| <= j < |after.saved| ==> !IsCorrection(after.saved[..j], after.saved[j])
  {
    assert after.saved[..|s.saved|] == s.saved;
    CorrectionsGrow(after.saved, |s.saved|);
    forall j | |s.saved| <= j < |after.saved| ensures !IsCorrection(after.saved[..j], after.saved[j]) {
      NoCorrectionBetween(after.saved, |s.saved|, j);
    }
  }

  // ---- What becomes of the captures of a reduction ----

  ghost predicate Holds(batch: seq<Capture>, c: Capture) {
    exists j :: 0 <= j < |batch| && batch[j].id == c.id
  }

  lemma IdsMean(batch: seq<Capture>, c: Capture)
    ensures c.id in Ids(batch) <==> Holds(batch, c)
  {
    if Holds(batch, c) {
      var j :| 0 <= j < |batch| && batch[j].id == c.id;
      assert batch[j] in batch;
    }
  }

  ghost predicate EachBecomes(before: seq<Capture>, after: seq<Capture>, batch: seq<Capture>, status: Status) {
    |after| == |before| && forall i :: 0 <= i < |before| ==>
      after[i] == if Holds(batch, before[i]) then before[i].(status := status) else before[i]
  }

  /** A reduction that ends frees the pump.  If it commits, its captures are committed and the versions of its packets
      recorded; if it is stale, its captures are ready again; if its answer is not valid, a batch of several is to be
      tried one by one and a single capture has failed.  No other capture, draft or transcript changes. */
  lemma AnswerIsExact(cfg: Config, s: State, k: nat, valid: bool)
    requires k < |s.jobs| && |s.jobs[k].packets| == |s.jobs[k].batch|
    ensures var job, after := s.jobs[k], Step(cfg, s, Answer(k, valid));
            var fresh_ := job.generation == s.generation
                          && forall j :: 0 <= j < |job.batch| ==> HearsFinals(cfg, s, job.packets[j], job.batch[j]);
            && after.jobs == s.jobs[..k] + s.jobs[k + 1..] && after.reducing == {}
            && after == s.(jobs := after.jobs, reducing := {}, captures := after.captures, committed := after.committed,
                           commits := after.commits)
            && (!fresh_ ==> EachBecomes(s.captures, after.captures, job.batch, Ready) && after.committed == s.committed
                            && after.commits == s.commits)
            && (fresh_ && valid ==>
                  && EachBecomes(s.captures, after.captures, job.batch, Committed) && after.commits == s.commits + [job]
                  && forall v :: v in after.committed <==>
                       || v in s.committed
                       || exists j :: 0 <= j < |job.packets| && v == (job.packets[j].id, job.packets[j].version))
            && (fresh_ && !valid ==>
                  && after.committed == s.committed && after.commits == s.commits
                  && (|job.batch| <= 1 ==> EachBecomes(s.captures, after.captures, job.batch, Failed))
                  && (|job.batch| > 1 ==> TriedSingly(s.captures, after.captures, job.batch)))
  {
    var job := s.jobs[k];
    forall j | 0 <= j < |job.batch|
      ensures SameSpeech(cfg, s, job.packets[j], job.batch[j]) <==> HearsFinals(cfg, s, job.packets[j], job.batch[j])
    {
      SpeechIsFinals(cfg, s, job.packets[j], job.batch[j]);
    }
    forall i | 0 <= i < |s.captures| ensures s.captures[i].id in Ids(job.batch) <==> Holds(job.batch, s.captures[i]) {
      IdsMean(job.batch, s.captures[i]);
    }
    forall v ensures v in CommittedVersions(job.packets) <==>
                       exists j :: 0 <= j < |job.packets| && v == (job.packets[j].id, job.packets[j].version)
    {
      if j :| 0 <= j < |job.packets| && v == (job.packets[j].id, job.packets[j].version) {
        assert job.packets[j] in job.packets;
      }
    }
  }

  ghost predicate TriedSingly(before: seq<Capture>, after: seq<Capture>, batch: seq<Capture>) {
    |after| == |before| && forall i :: 0 <= i < |before| ==>
      after[i] == if Holds(batch, before[i]) then before[i].(status := Ready, single := true) else before[i]
  }

  // ---- What is interpreted again ----

  /** The capture waits to be interpreted: from the start, or from its vision result if it has one. */
  predicate WaitsAgain(before: Capture, after: Capture) {
    && after == before.(status := after.status)
    && (before.vision ==> after.status.Ready?) && (!before.vision ==> after.status.Queued?)
  }

  /** Saved final speech leaves none of the captures it concerns interpreted; a partial, or a revision that is known
      already, changes no capture. */
  lemma FinalsReopen(s: State, h: Heard, requeued: set<string>)
    ensures var after := HearSpec(s, h, requeued);
            && |after.captures| == |s.captures|
            && forall i :: 0 <= i < |s.captures| ==>
                 var c := s.captures[i];
                 if Saves(s.saved, h) && h.t.final && c.id in requeued && (c.status.Committed? || c.status.Failed?)
                 then WaitsAgain(c, after.captures[i]) else after.captures[i] == c
  {
  }

  /** A start finds every capture whose work a stop or crash cut off, and only those, and has it done again. */
  lemma BeginResumes(cfg: Config, s: State)
    requires !s.running
    ensures var after := Step(cfg, s, Begin);
            && after.running && |after.captures| == |s.captures|
            && forall i :: 0 <= i < |s.captures| ==>
                 var c := s.captures[i];
                 if c.status.Observing? || c.status.Reducing?
                 then WaitsAgain(c, after.captures[i]) else after.captures[i] == c
  {
  }

  // ---- The pipeline's own fields ----

  class MemoryPipeline {
    const cfg: Config
    var s: State

    constructor (cfg: Config, s: State)
      ensures this.cfg == cfg && this.s == s
    {
      this.cfg := cfg;
      this.s := s;
    }

    method TakeBatch(queue: seq<Capture>) returns (batch: seq<Capture>)
      requires queue != []
      ensures batch == BatchOf(cfg, s, queue)
    {
      batch := [queue[0]];
      if cfg.batches && Batchable(s, queue[0]) {
        var n := 1;
        while n < |queue|
          invariant 0 < n <= |queue| && batch == queue[..n]
          invariant Extent(cfg, s, queue, n) == Extent(cfg, s, queue, 1)
        {
          var c := queue[n];
          if n >= cfg.batchSize || !c.status.Ready? || c.session != queue[0].session || !Batchable(s, c) {
            break;
          }
          batch := batch + [c];
          n := n + 1;
        }
      }
    }

    /** The part of the pump that starts a reduction. */
    method StartReduction(wait: bool)
      modifies this
      ensures s == Step(cfg, old(s), Select(wait))
    {
      if !s.running || s.reducing != {} {
        return;
      }
      var queue := Queue(cfg, s);
      if queue == [] || !queue[0].status.Ready? || wait {
        return;
      }
      var batch := TakeBatch(queue);
      var packets := PacketsOf(cfg, s, batch);
      var generation := s.generation;
      s := s.(reducing := Ids(batch), captures := SetStatus(s.captures, Ids(batch), Reducing));
      s := s.(drafts := SaveDrafts(s.drafts, packets));
      s := s.(jobs := s.jobs + [Job(batch, packets, generation, queue)]);
    }

    /** What a reduction does with the model's answer. */
    method Finish(k: nat, valid: bool)
      requires k < |s.jobs|
      modifies this
      ensures s == Step(cfg, old(s), Answer(k, valid))
    {
      var job := s.jobs[k];
      var stale := job.generation != s.generation || |job.packets| != |job.batch|;
      var i := 0;
      while !stale && i < |job.batch|
        invariant 0 <= i <= |job.batch|
        invariant stale ==> !Fresh(cfg, s, job)
        invariant !stale ==> job.generation == s.generation && |job.packets| == |job.batch|
        invariant !stale ==> forall j :: 0 <= j < i ==> SameSpeech(cfg, s, job.packets[j], job.batch[j])
      {
        stale := !SameSpeech(cfg, s, job.packets[i], job.batch[i]);
        i := i + 1;
      }
      if stale {
        s := s.(captures := SetStatus(s.captures, Ids(job.batch), Ready));
      } else if valid {
        s := s.(captures := SetStatus(s.captures, Ids(job.batch), Committed),
                committed := s.committed + CommittedVersions(job.packets),
                commits := s.commits + [job]);
      } else {
        s := GiveUpSpec(s, k, true);
        return;
      }
      s := s.(jobs := s.jobs[..k] + s.jobs[k + 1..], reducing := {});
    }
  }
}
