/** Identity resolution of a batch of memory updates: each row's entities either name a known entity, reuse one
    introduced by an earlier row, or are new. */
module Batch {
  import opened Evidence

  datatype Kind = Person | Place | Thing | Happening

  datatype Entity = Entity(kind: Kind, personId: Option<string>)

  datatype Proposal = Proposal(ref: string, kind: Kind, existingId: Option<string>, personId: Option<string>)

  datatype Reuse = Reuse(ref: string, fromPacket: string, fromRef: string)

  datatype Update = Update(packet: string, version: nat, proposals: seq<Proposal>, reuse: seq<Reuse>)

  /** A packet and the gallery people its camera frame confirmed. */
  datatype Packet = Packet(id: string, version: nat, faces: set<string>)

  /** What the rows so far have established: every entity by id, and each row's references by packet. */
  datatype State = State(entities: map<string, Entity>, rows: map<string, map<string, string>>,
                         resolved: seq<map<string, string>>)

  function Digits(n: nat): string {
    if n < 10 then [(n as char) + '0'] else Digits(n / 10) + [((n % 10) as char) + '0']
  }

  /** The temporary id of an entity that a row introduces. */
  function Virtual(row: nat, ref: string): string {
    "batch:" + Digits(row) + ":" + ref
  }

  // ---- One row, step by step ----

  predicate DistinctRefs(ps: seq<Proposal>) {
    forall i, j :: 0 <= i < j < |ps| ==> ps[i].ref != ps[j].ref
  }

  predicate IsRef(ps: seq<Proposal>, i: int, ref: string) {
    0 <= i < |ps| && ps[i].ref == ref
  }

  function IndexOf(ps: seq<Proposal>, ref: string): (i: int)
    ensures i >= 0 ==> IsRef(ps, i, ref)
    ensures i < 0 ==> forall j :: 0 <= j < |ps| ==> ps[j].ref != ref
  {
    if ps == [] then -1
    else if ps[|ps| - 1].ref == ref then |ps| - 1
    else IndexOf(ps[..|ps| - 1], ref)
  }

  function Source(s: State, u: Reuse): Option<string> {
    if u.fromPacket in s.rows && u.fromRef in s.rows[u.fromPacket] then Some(s.rows[u.fromPacket][u.fromRef]) else None
  }

  predicate ReusedBefore(us: seq<Reuse>, ref: string) {
    exists i :: 0 <= i < |us| && us[i].ref == ref
  }

  /** A new entity without an identity of its own may take that of an earlier one of its kind, unless that is a
      person of the gallery. */
  predicate MayReuse(s: State, p: Proposal, source: string) {
    && source in s.entities
    && p.existingId.None? && p.personId.None? && s.entities[source].personId.None? && s.entities[source].kind == p.kind
  }

  function Reused(s: State, ps: seq<Proposal>, us: seq<Reuse>): Option<seq<Proposal>> {
    if us == [] then Some(ps)
    else
      var before, u := Reused(s, ps, us[..|us| - 1]), us[|us| - 1];
      if before.None? || ReusedBefore(us[..|us| - 1], u.ref) then None
      else
        var i, source := IndexOf(before.value, u.ref), Source(s, u);
        if i < 0 || source.None? || !MayReuse(s, before.value[i], source.value) then None
        else Some(before.value[i := before.value[i].(existingId := source)])
  }

  /** The gallery person among the entities; their ids are their person ids. */
  function GalleryEntity(entities: map<string, Entity>, person: string): Option<string> {
    if person in entities && entities[person].personId == Some(person) then Some(person) else None
  }

  predicate KnownPerson(packet: Packet, entities: map<string, Entity>, person: string) {
    person in packet.faces || GalleryEntity(entities, person).Some?
  }

  predicate Fits(packet: Packet, entities: map<string, Entity>, p: Proposal) {
    && (p.personId.Some? ==> p.kind.Person? && KnownPerson(packet, entities, p.personId.value))
    && (p.existingId.Some? ==>
          && p.existingId.value in entities
          && entities[p.existingId.value] == Entity(p.kind, p.personId))
    && (p.personId.Some? && GalleryEntity(entities, p.personId.value).Some? ==>
          p.existingId == GalleryEntity(entities, p.personId.value))
  }

  predicate DistinctIds(ps: seq<Proposal>) {
    forall i, j :: 0 <= i < j < |ps| ==>
      (ps[i].existingId.Some? ==> ps[i].existingId != ps[j].existingId) &&
      (ps[i].personId.Some? ==> ps[i].personId != ps[j].personId)
  }

  predicate DeltaOk(packet: Packet, entities: map<string, Entity>, ps: seq<Proposal>) {
    DistinctIds(ps) && forall i :: 0 <= i < |ps| ==> Fits(packet, entities, ps[i])
  }

  function IdOf(row: nat, p: Proposal): string {
    if p.existingId.Some? then p.existingId.value
    else if p.personId.Some? then p.personId.value
    else Virtual(row, p.ref)
  }

  datatype Names = Names(entities: map<string, Entity>, refs: map<string, string>)

  function Named(row: nat, ps: seq<Proposal>, entities: map<string, Entity>): Option<Names> {
    if ps == [] then Some(Names(entities, map[]))
    else
      var before, p := Named(row, ps[..|ps| - 1], entities), ps[|ps| - 1];
      if before.None? then None
      else
        var n, id := before.value, IdOf(row, p);
        if p.existingId.None? && p.personId.None? && id in n.entities then None
        else
          var entities := if id in n.entities then n.entities else n.entities[id := Entity(p.kind, p.personId)];
          Some(Names(entities, n.refs[p.ref := id]))
  }

  function Row(context: set<string>, s: State, update: Update, packet: Packet): Option<State> {
    if update.packet != packet.id || update.version != packet.version || !DistinctRefs(update.proposals)
       || exists i :: 0 <= i < |update.proposals| && Foreign(context, update.proposals[i])
    then None
    else
      var ps := Reused(s, update.proposals, update.reuse);
      if ps.None? || !DeltaOk(packet, s.entities, ps.value) then None
      else
        var names := Named(|s.resolved|, ps.value, s.entities);
        if names.None? then None
        else Some(State(names.value.entities, s.rows[packet.id := names.value.refs], s.resolved + [names.value.refs]))
  }

  /** An explicit identity must come from the context the batch was given. */
  predicate Foreign(context: set<string>, p: Proposal) {
    p.existingId.Some? && p.existingId.value !in context
  }

  function Rows(context: map<string, Entity>, updates: seq<Update>, packets: seq<Packet>): Option<State>
    requires |updates| == |packets|
    decreases |updates|
  {
    var n := |updates|;
    if n == 0 then Some(State(context, map[], []))
    else
      var before := Rows(context, updates[..n - 1], packets[..n - 1]);
      if before.None? then None else Row(context.Keys, before.value, updates[n - 1], packets[n - 1])
  }

  function Validate(context: map<string, Entity>, updates: seq<Update>, packets: seq<Packet>): Option<State> {
    if |updates| != |packets| then None else Rows(context, updates, packets)
  }

  // ---- What holds of every accepted row ----

  /** People of the gallery are stored under their person ids. */
  predicate GalleryIds(entities: map<string, Entity>) {
    forall id :: id in entities && entities[id].personId.Some? ==> entities[id].personId == Some(id)
  }

  predicate Extends(small: map<string, Entity>, big: map<string, Entity>) {
    forall id :: id in small ==> id in big && big[id] == small[id]
  }

  predicate RefsKnown(rows: map<string, map<string, string>>, entities: map<string, Entity>) {
    forall k, r :: k in rows && r in rows[k] ==> rows[k][r] in entities
  }

  /** A new gallery person's id is already the id of something else. */
  predicate Clash(entities: map<string, Entity>, p: Proposal) {
    p.existingId.None? && p.personId.Some? && p.personId.value in entities
  }

  /** No new gallery person's id is taken when it is named. */
  predicate NoClash(row: nat, ps: seq<Proposal>, entities: map<string, Entity>) {
    if ps == [] then true
    else
      var before, p := Named(row, ps[..|ps| - 1], entities), ps[|ps| - 1];
      NoClash(row, ps[..|ps| - 1], entities) && (before.Some? ==> !Clash(before.value.entities, p))
  }

  predicate SameAs(entities: map<string, Entity>, id: string, p: Proposal) {
    id in entities && entities[id] == Entity(p.kind, p.personId)
  }

  /** Every reference of the row resolves to an entity of the proposed kind and person. */
  predicate Preserved(row: nat, ps: seq<Proposal>, entities: map<string, Entity>) {
    forall i :: 0 <= i < |ps| ==> SameAs(entities, IdOf(row, ps[i]), ps[i])
  }

  predicate ExistingIn(ps: seq<Proposal>, entities: map<string, Entity>) {
    forall i :: 0 <= i < |ps| && ps[i].existingId.Some? ==> ps[i].existingId.value in entities
  }

  lemma {:induction false} NamedFacts(row: nat, ps: seq<Proposal>, entities: map<string, Entity>)
    requires Named(row, ps, entities).Some? && GalleryIds(entities) && ExistingIn(ps, entities)
    ensures var n := Named(row, ps, entities).value;
            && Extends(entities, n.entities) && GalleryIds(n.entities)
            && (forall i :: 0 <= i < |ps| ==> IdOf(row, ps[i]) in n.entities)
  {
    if ps != [] {
      NamedFacts(row, ps[..|ps| - 1], entities);
    }
  }

  predicate RefIs(row: nat, ps: seq<Proposal>, i: int, r: string, id: string) {
    IsRef(ps, i, r) && id == IdOf(row, ps[i])
  }

  lemma {:induction false} NamedRefs(row: nat, ps: seq<Proposal>, entities: map<string, Entity>)
    requires Named(row, ps, entities).Some?
    ensures forall i :: 0 <= i < |ps| ==> ps[i].ref in Named(row, ps, entities).value.refs
    ensures forall r :: r in Named(row, ps, entities).value.refs ==>
              exists i :: RefIs(row, ps, i, r, Named(row, ps, entities).value.refs[r])
  {
    if ps != [] {
      var front := ps[..|ps| - 1];
      NamedRefs(row, front, entities);
      var b, n := Named(row, front, entities).value, Named(row, ps, entities).value;
      forall r | r in n.refs ensures exists i :: RefIs(row, ps, i, r, n.refs[r]) {
        if r == ps[|ps| - 1].ref {
          assert RefIs(row, ps, |ps| - 1, r, n.refs[r]);
        } else {
          var i :| RefIs(row, front, i, r, b.refs[r]);
          assert RefIs(row, ps, i, r, n.refs[r]);
        }
      }
    }
  }

  lemma NamedRefsKnown(row: nat, ps: seq<Proposal>, entities: map<string, Entity>)
    requires Named(row, ps, entities).Some? && GalleryIds(entities) && ExistingIn(ps, entities)
    ensures forall r :: r in Named(row, ps, entities).value.refs ==>
              Named(row, ps, entities).value.refs[r] in Named(row, ps, entities).value.entities
  {
    NamedFacts(row, ps, entities);
    NamedRefs(row, ps, entities);
    var n := Named(row, ps, entities).value;
    forall r | r in n.refs ensures n.refs[r] in n.entities {
      var i :| RefIs(row, ps, i, r, n.refs[r]);
    }
  }

  lemma RefResolves(row: nat, ps: seq<Proposal>, entities: map<string, Entity>, i: nat)
    requires Named(row, ps, entities).Some? && DistinctRefs(ps) && i < |ps|
    ensures ps[i].ref in Named(row, ps, entities).value.refs
    ensures Named(row, ps, entities).value.refs[ps[i].ref] == IdOf(row, ps[i])
  {
    NamedRefs(row, ps, entities);
    var j :| RefIs(row, ps, j, ps[i].ref, Named(row, ps, entities).value.refs[ps[i].ref]);
    assert i == j;
  }

  /** Kind and person are preserved exactly when no new gallery person's id is already taken. */
  lemma FitsExist(packet: Packet, entities: map<string, Entity>, ps: seq<Proposal>)
    requires DeltaOk(packet, entities, ps)
    ensures ExistingIn(ps, entities) && (ps != [] ==>
          ExistingIn(ps[..|ps| - 1], entities) && DeltaOk(packet, entities, ps[..|ps| - 1]))
  {
    forall i | 0 <= i < |ps| && ps[i].existingId.Some? ensures ps[i].existingId.value in entities {
      assert Fits(packet, entities, ps[i]);
    }
  }

  lemma {:induction false} PreservedExactly(row: nat, ps: seq<Proposal>, packet: Packet, start: map<string, Entity>,
                                            entities: map<string, Entity>)
    requires Named(row, ps, start).Some? && GalleryIds(start) && DeltaOk(packet, start, ps)
    requires Extends(Named(row, ps, start).value.entities, entities)
    ensures Preserved(row, ps, entities) <==> NoClash(row, ps, start)
    decreases |ps|
  {
    if ps != [] {
      var front, p := ps[..|ps| - 1], ps[|ps| - 1];
      FitsExist(packet, start, ps);
      NamedFacts(row, front, start);
      PreservedExactly(row, front, packet, start, entities);
      PreservedStep(row, ps, entities);
      LastPreserved(row, ps, packet, start, entities);
    }
  }

  lemma PreservedStep(row: nat, ps: seq<Proposal>, entities: map<string, Entity>)
    requires ps != []
    ensures Preserved(row, ps, entities) <==>
              Preserved(row, ps[..|ps| - 1], entities) && SameAs(entities, IdOf(row, ps[|ps| - 1]), ps[|ps| - 1])
  {
    assert forall i :: 0 <= i < |ps| - 1 ==> ps[..|ps| - 1][i] == ps[i];
  }

  /** The last proposal of a row keeps its kind and person unless its person id is taken. */
  lemma LastPreserved(row: nat, ps: seq<Proposal>, packet: Packet, start: map<string, Entity>,
                      entities: map<string, Entity>)
    requires ps != [] && Named(row, ps, start).Some? && GalleryIds(start) && DeltaOk(packet, start, ps)
    requires Extends(Named(row, ps, start).value.entities, entities)
    ensures SameAs(entities, IdOf(row, ps[|ps| - 1]), ps[|ps| - 1]) <==>
              !Clash(Named(row, ps[..|ps| - 1], start).value.entities, ps[|ps| - 1])
  {
    FitsExist(packet, start, ps);
    NamedFacts(row, ps[..|ps| - 1], start);
    ClashIsMismatch(row, ps, packet, start);
    assert Fits(packet, start, ps[|ps| - 1]);
  }

  /** A taken id belongs to something that is not this person. */
  lemma ClashIsMismatch(row: nat, ps: seq<Proposal>, packet: Packet, start: map<string, Entity>)
    requires ps != [] && Named(row, ps[..|ps| - 1], start).Some? && GalleryIds(start) && DeltaOk(packet, start, ps)
    ensures var b, p := Named(row, ps[..|ps| - 1], start).value, ps[|ps| - 1];
            Clash(b.entities, p) ==> b.entities[p.personId.value] != Entity(p.kind, p.personId)
  {
    var front, p := ps[..|ps| - 1], ps[|ps| - 1];
    var b := Named(row, front, start).value;
    FitsExist(packet, start, ps);
    NamedFacts(row, front, start);
    if Clash(b.entities, p) {
      var id := p.personId.value;
      assert Fits(packet, start, p);
      if id !in start { NewIsNotPerson(row, front, start, id); }
    }
  }

  /** An entity a row adds has the person id of the proposal that added it. */
  lemma {:induction false} NewIsNotPerson(row: nat, ps: seq<Proposal>, start: map<string, Entity>, id: string)
    requires Named(row, ps, start).Some? && id !in start && id in Named(row, ps, start).value.entities
    requires forall i :: 0 <= i < |ps| ==> ps[i].personId != Some(id)
    ensures Named(row, ps, start).value.entities[id].personId != Some(id)
    decreases |ps|
  {
    var front := ps[..|ps| - 1];
    if id in Named(row, front, start).value.entities { NewIsNotPerson(row, front, start, id); }
  }

  /** Without a clash, distinct references of a row resolve to distinct entities. */
  lemma {:induction false} DistinctResolve(row: nat, ps: seq<Proposal>, packet: Packet, start: map<string, Entity>,
                                           i: nat, j: nat)
    requires Named(row, ps, start).Some? && GalleryIds(start) && DeltaOk(packet, start, ps) && DistinctRefs(ps)
    requires NoClash(row, ps, start) && i < j < |ps|
    ensures IdOf(row, ps[i]) != IdOf(row, ps[j])
    decreases |ps|
  {
    var front, p := ps[..|ps| - 1], ps[|ps| - 1];
    FitsExist(packet, start, ps);
    if j < |front| {
      DistinctResolve(row, front, packet, start, i, j);
    } else {
      DistinctLast(row, ps, packet, start, i);
    }
  }

  lemma DistinctLast(row: nat, ps: seq<Proposal>, packet: Packet, start: map<string, Entity>, i: nat)
    requires Named(row, ps, start).Some? && GalleryIds(start) && DeltaOk(packet, start, ps)
    requires NoClash(row, ps, start) && i < |ps| - 1
    ensures IdOf(row, ps[i]) != IdOf(row, ps[|ps| - 1])
  {
    var front, p := ps[..|ps| - 1], ps[|ps| - 1];
    FitsExist(packet, start, ps);
    NamedFacts(row, front, start);
    assert front[i] == ps[i] && IdOf(row, front[i]) in Named(row, front, start).value.entities;
    if p.existingId.Some? && ps[i].existingId.None? { ExistingIsOld(row, front, packet, start, i, p); }
  }

  /** An entity that was there before the row is not one that the row introduces. */
  lemma {:induction false} ExistingIsOld(row: nat, ps: seq<Proposal>, packet: Packet, start: map<string, Entity>,
                                         i: nat, p: Proposal)
    requires Named(row, ps, start).Some? && GalleryIds(start) && ExistingIn(ps, start) && NoClash(row, ps, start)
    requires i < |ps| && ps[i].existingId.None? && p.existingId.Some? && Fits(packet, start, p)
    ensures IdOf(row, ps[i]) != p.existingId.value
    decreases |ps|
  {
    var front := ps[..|ps| - 1];
    NamedFacts(row, front, start);
    if i < |front| { ExistingIsOld(row, front, packet, start, i, p); }
  }

  // ---- Reuse ----

  /** What filling in the reuses of a row did to its proposals. */
  ghost predicate FilledIn(s: State, ps: seq<Proposal>, us: seq<Reuse>, r: seq<Proposal>) {
    && |r| == |ps| && DistinctRefs(r)
    && (forall i :: 0 <= i < |ps| ==> SameButReuse(ps[i], r[i]))
    && (forall i :: 0 <= i < |ps| && !ReusedBefore(us, ps[i].ref) ==> r[i] == ps[i])
    && (forall k :: 0 <= k < |us| ==> Taken(s, ps, r, us[k]))
  }

  ghost predicate Taken(s: State, ps: seq<Proposal>, r: seq<Proposal>, u: Reuse) {
    exists i :: TakesSource(s, ps, r, u, i)
  }

  lemma LastReuse(s: State, ps: seq<Proposal>, us: seq<Reuse>, b: seq<Proposal>)
    requires us != [] && Reused(s, ps, us).Some? && Reused(s, ps, us[..|us| - 1]) == Some(b)
    ensures var u := us[|us| - 1]; var at := IndexOf(b, u.ref);
            && !ReusedBefore(us[..|us| - 1], u.ref) && IsRef(b, at, u.ref) && Source(s, u).Some?
              && MayReuse(s, b[at], Source(s, u).value)
            && Reused(s, ps, us).value == b[at := b[at].(existingId := Source(s, u))]
  {}

  lemma {:induction false} ReuseSteps(s: State, ps: seq<Proposal>, us: seq<Reuse>)
    requires Reused(s, ps, us).Some? && DistinctRefs(ps)
    ensures FilledIn(s, ps, us, Reused(s, ps, us).value)
    decreases |us|
  {
    if us == [] {
      NothingFilled(s, ps, us);
    } else {
      var front, u := us[..|us| - 1], us[|us| - 1];
      var b := FrontReused(s, ps, us);
      ReuseSteps(s, ps, front);
      LastReuse(s, ps, us, b);
      ReuseStep(s, ps, front, u, b, IndexOf(b, u.ref));
    }
  }

  lemma NothingFilled(s: State, ps: seq<Proposal>, us: seq<Reuse>)
    requires us == [] && DistinctRefs(ps)
    ensures FilledIn(s, ps, us, ps)
  {}

  lemma FrontReused(s: State, ps: seq<Proposal>, us: seq<Reuse>) returns (b: seq<Proposal>)
    requires us != [] && Reused(s, ps, us).Some?
    ensures Reused(s, ps, us[..|us| - 1]) == Some(b)
    ensures us == us[..|us| - 1] + [us[|us| - 1]]
  {
    b := Reused(s, ps, us[..|us| - 1]).value;
  }

  lemma ReuseStep(s: State, ps: seq<Proposal>, us: seq<Reuse>, u: Reuse, b: seq<Proposal>, at: int)
    requires FilledIn(s, ps, us, b) && !ReusedBefore(us, u.ref) && IsRef(b, at, u.ref)
    requires Source(s, u).Some? && MayReuse(s, b[at], Source(s, u).value)
    ensures FilledIn(s, ps, us + [u], b[at := b[at].(existingId := Source(s, u))])
  {
    var r := b[at := b[at].(existingId := Source(s, u))];
    assert SameButReuse(ps[at], b[at]) && b[at] == ps[at];
    forall i | 0 <= i < |ps| && !ReusedBefore(us + [u], ps[i].ref) ensures r[i] == ps[i] {
      assert (us + [u])[|us|].ref != ps[i].ref;
      if ReusedBefore(us, ps[i].ref) { StillReused(us, u, ps[i].ref); }
    }
    forall k | 0 <= k < |us + [u]| ensures Taken(s, ps, r, (us + [u])[k]) {
      if k < |us| {
        var i :| TakesSource(s, ps, b, us[k], i);
        assert us[k].ref != u.ref;
        assert TakesSource(s, ps, r, us[k], i);
      } else {
        assert TakesSource(s, ps, r, u, at);
      }
    }
  }

  lemma StillReused(us: seq<Reuse>, u: Reuse, ref: string)
    requires ReusedBefore(us, ref)
    ensures ReusedBefore(us + [u], ref)
  {
    var k :| 0 <= k < |us| && us[k].ref == ref;
    assert (us + [u])[k].ref == ref;
  }

  predicate SameButReuse(p: Proposal, q: Proposal) {
    q.ref == p.ref && q.kind == p.kind && q.personId == p.personId
      && (p.existingId.Some? ==> q.existingId == p.existingId)
  }

  /** The `i`-th proposal had no identity and takes that of the entity the reuse names, which is no gallery person. */
  predicate TakesSource(s: State, ps: seq<Proposal>, r: seq<Proposal>, u: Reuse, i: int) {
    && 0 <= i < |ps| == |r| && ps[i].ref == u.ref && r[i].ref == u.ref
    && Source(s, u).Some? && r[i].existingId == Source(s, u) && MayReuse(s, ps[i], Source(s, u).value)
  }

  // ---- Accepted batches ----

  /** The states a batch goes through. */
  function After(context: map<string, Entity>, updates: seq<Update>, packets: seq<Packet>, i: nat): Option<State>
    requires |updates| == |packets| && i <= |updates|
  {
    Rows(context, updates[..i], packets[..i])
  }

  lemma {:induction false} AfterStep(context: map<string, Entity>, updates: seq<Update>, packets: seq<Packet>, i: nat)
    requires |updates| == |packets| && i < |updates|
    ensures After(context, updates, packets, i + 1) ==
              if After(context, updates, packets, i).None? then None
              else Row(context.Keys, After(context, updates, packets, i).value, updates[i], packets[i])
  {
    assert updates[..i + 1][..i] == updates[..i] && packets[..i + 1][..i] == packets[..i];
  }

  lemma {:induction false} AcceptedPrefix(context: map<string, Entity>, updates: seq<Update>, packets: seq<Packet>,
                                          i: nat, n: nat)
    requires |updates| == |packets| && i <= n <= |updates| && After(context, updates, packets, n).Some?
    ensures After(context, updates, packets, i).Some?
    decreases n - i
  {
    if i < n {
      AfterStep(context, updates, packets, n - 1);
      AcceptedPrefix(context, updates, packets, i, n - 1);
    }
  }

  ghost predicate Sound(context: map<string, Entity>, s: State) {
    GalleryIds(s.entities) && RefsKnown(s.rows, s.entities) && Extends(context, s.entities)
  }

  lemma RowSound(context: map<string, Entity>, s: State, update: Update, packet: Packet)
    requires Sound(context, s) && Row(context.Keys, s, update, packet).Some?
    ensures var after := Row(context.Keys, s, update, packet).value;
            Sound(context, after) && Extends(s.entities, after.entities) && |after.resolved| == |s.resolved| + 1
  {
    var ps := Reused(s, update.proposals, update.reuse).value;
    FitsExist(packet, s.entities, ps);
    NamedFacts(|s.resolved|, ps, s.entities);
    NamedRefsKnown(|s.resolved|, ps, s.entities);
    var after := Row(context.Keys, s, update, packet).value;
    forall k, r | k in after.rows && r in after.rows[k] ensures after.rows[k][r] in after.entities {}
  }

  lemma {:induction false} AfterSound(context: map<string, Entity>, updates: seq<Update>, packets: seq<Packet>, i: nat)
    requires |updates| == |packets| && i <= |updates| && GalleryIds(context)
        && After(context, updates, packets, i).Some?
    ensures Sound(context, After(context, updates, packets, i).value)
    ensures |After(context, updates, packets, i).value.resolved| == i
  {
    if i == 0 {
      assert updates[..0] == [] && packets[..0] == [];
    } else {
      AfterStep(context, updates, packets, i - 1);
      AfterSound(context, updates, packets, i - 1);
      RowSound(context, After(context, updates, packets, i - 1).value, updates[i - 1], packets[i - 1]);
    }
  }

  lemma {:induction false} AfterGrows(context: map<string, Entity>, updates: seq<Update>, packets: seq<Packet>, i: nat,
                                      n: nat)
    requires |updates| == |packets| && i <= n <= |updates| && GalleryIds(context)
        && After(context, updates, packets, n).Some?
    ensures After(context, updates, packets, i).Some?
    ensures var s, t := After(context, updates, packets, i).value, After(context, updates, packets, n).value;
            Extends(s.entities, t.entities) && s.resolved <= t.resolved
    decreases n - i
  {
    AcceptedPrefix(context, updates, packets, i, n);
    if i < n {
      AcceptedPrefix(context, updates, packets, n - 1, n);
      AfterGrows(context, updates, packets, i, n - 1);
      LastRowGrows(context, updates, packets, n);
    }
  }

  lemma LastRowGrows(context: map<string, Entity>, updates: seq<Update>, packets: seq<Packet>, n: nat)
    requires |updates| == |packets| && 0 < n <= |updates| && GalleryIds(context)
        && After(context, updates, packets, n).Some?
    requires After(context, updates, packets, n - 1).Some?
    ensures var s, t := After(context, updates, packets, n - 1).value, After(context, updates, packets, n).value;
            Extends(s.entities, t.entities) && s.resolved <= t.resolved
  {
    AfterStep(context, updates, packets, n - 1);
    AfterSound(context, updates, packets, n - 1);
    RowSound(context, After(context, updates, packets, n - 1).value, updates[n - 1], packets[n - 1]);
    RowAdds(context.Keys, After(context, updates, packets, n - 1).value, updates[n - 1], packets[n - 1]);
  }

  /** The proposals of row `i` with reuse filled in, for an accepted batch. */
  function Filled(context: map<string, Entity>, updates: seq<Update>, packets: seq<Packet>, i: nat): seq<Proposal>
    requires |updates| == |packets| && i < |updates| && Validate(context, updates, packets).Some? && GalleryIds(context)
  {
    WholeAfter(context, updates, packets, i);
    Reused(After(context, updates, packets, i).value, updates[i].proposals, updates[i].reuse).value
  }

  lemma WholeAfter(context: map<string, Entity>, updates: seq<Update>, packets: seq<Packet>, i: nat)
    requires |updates| == |packets| && i < |updates| && Validate(context, updates, packets).Some? && GalleryIds(context)
    ensures After(context, updates, packets, i).Some? && After(context, updates, packets, i + 1).Some?
    ensures var s := After(context, updates, packets, i).value;
            && Reused(s, updates[i].proposals, updates[i].reuse).Some?
            && After(context, updates, packets, i + 1) == Row(context.Keys, s, updates[i], packets[i])
            && Sound(context, s) && |s.resolved| == i
    ensures var final := Validate(context, updates, packets).value;
            && |final.resolved| == |updates|
            && final.resolved[i] == After(context, updates, packets, i + 1).value.resolved[i]
            && Extends(After(context, updates, packets, i + 1).value.entities, final.entities)
  {
    var n := |updates|;
    assert updates[..n] == updates && packets[..n] == packets;
    AcceptedPrefix(context, updates, packets, i, n);
    AfterStep(context, updates, packets, i);
    AfterSound(context, updates, packets, i);
    AfterSound(context, updates, packets, n);
    AfterGrows(context, updates, packets, i + 1, n);
    RowSound(context, After(context, updates, packets, i).value, updates[i], packets[i]);
  }

  predicate RowClashFree(context: map<string, Entity>, updates: seq<Update>, packets: seq<Packet>, i: nat)
    requires |updates| == |packets| && i < |updates| && Validate(context, updates, packets).Some? && GalleryIds(context)
  {
    WholeAfter(context, updates, packets, i);
    NoClash(i, Filled(context, updates, packets, i), After(context, updates, packets, i).value.entities)
  }

  // ---- When the id of a new gallery person is taken, in terms of the batch ----

  /** The proposal introduces an entity under a temporary id: it names none, no person, and no reuse fills it in. */
  predicate Introduces(updates: seq<Update>, k: int, m: int) {
    && 0 <= k < |updates| && 0 <= m < |updates[k].proposals|
    && var p := updates[k].proposals[m];
       p.existingId.None? && p.personId.None? && !ReusedBefore(updates[k].reuse, p.ref)
  }

  /** An earlier proposal, of an earlier row or before it in its row, introduced an entity of this id. */
  predicate IntroducedBy(updates: seq<Update>, i: nat, j: nat, q: string, k: int, m: int) {
    && Introduces(updates, k, m) && (k < i || (k == i && m < j))
    && q == Virtual(k, updates[k].proposals[m].ref)
  }

  /** The proposal names a person not met before, whose id the context or an earlier proposal has given away. */
  ghost predicate TakenId(context: map<string, Entity>, updates: seq<Update>, i: nat, j: nat)
    requires i < |updates| && j < |updates[i].proposals|
  {
    var p := updates[i].proposals[j];
    p.existingId.None? && p.personId.Some?
    && (p.personId.value in context || exists k, m :: IntroducedBy(updates, i, j, p.personId.value, k, m))
  }

  ghost predicate NoTakenIds(context: map<string, Entity>, updates: seq<Update>, i: nat)
    requires i < |updates|
  {
    forall j :: 0 <= j < |updates[i].proposals| ==> !TakenId(context, updates, i, j)
  }

  predicate IsNew(p: Proposal) {
    p.existingId.None? && p.personId.None?
  }

  predicate NewAt(row: nat, ps: seq<Proposal>, m: int, id: string) {
    0 <= m < |ps| && IsNew(ps[m]) && id == Virtual(row, ps[m].ref)
  }

  /** The entities after a row: those before it, people under their own ids, and those it introduces. */
  lemma {:induction false} NamedOrigin(row: nat, ps: seq<Proposal>, start: map<string, Entity>, id: string)
    requires Named(row, ps, start).Some? && ExistingIn(ps, start) && id in Named(row, ps, start).value.entities
    ensures id in start || Named(row, ps, start).value.entities[id].personId == Some(id)
        || exists m :: NewAt(row, ps, m, id)
    decreases |ps|
  {
    if ps != [] {
      var front, p := ps[..|ps| - 1], ps[|ps| - 1];
      var n := Named(row, front, start).value;
      assert forall m :: 0 <= m < |front| ==> front[m] == ps[m];
      if id in n.entities {
        NamedOrigin(row, front, start, id);
        if m :| NewAt(row, front, m, id) { assert NewAt(row, ps, m, id); }
      } else if IsNew(p) {
        assert NewAt(row, ps, |ps| - 1, id);
      }
    }
  }

  predicate ClashesAt(row: nat, ps: seq<Proposal>, start: map<string, Entity>, j: int) {
    0 <= j < |ps| && var b := Named(row, ps[..j], start); b.Some? && Clash(b.value.entities, ps[j])
  }

  lemma {:induction false} NoClashIs(row: nat, ps: seq<Proposal>, start: map<string, Entity>)
    ensures NoClash(row, ps, start) <==> forall j :: !ClashesAt(row, ps, start, j)
    decreases |ps|
  {
    if ps != [] {
      var n := |ps| - 1;
      NoClashIs(row, ps[..n], start);
      assert NoClash(row, ps, start) <==> NoClash(row, ps[..n], start) && !ClashesAt(row, ps, start, n);
      forall j
        ensures ClashesAt(row, ps, start, j) <==>
                  ClashesAt(row, ps[..n], start, j) || (j == n && ClashesAt(row, ps, start, n))
      {
        if j < n { ClashInFront(row, ps, start, j); }
      }
    }
  }

  lemma ClashInFront(row: nat, ps: seq<Proposal>, start: map<string, Entity>, j: int)
    requires ps != [] && j < |ps| - 1
    ensures ClashesAt(row, ps, start, j) <==> ClashesAt(row, ps[..|ps| - 1], start, j)
  {
    if j >= 0 { assert ps[..|ps| - 1][..j] == ps[..j]; }
  }

  lemma {:induction false} NamedPrefix(row: nat, ps: seq<Proposal>, start: map<string, Entity>, j: nat)
    requires Named(row, ps, start).Some? && j <= |ps|
    ensures Named(row, ps[..j], start).Some?
    decreases |ps|
  {
    if j < |ps| {
      NamedPrefix(row, ps[..|ps| - 1], start, j);
      assert ps[..|ps| - 1][..j] == ps[..j];
    } else {
      assert ps[..j] == ps;
    }
  }

  /** Filling in reuses leaves as new exactly the proposals that introduce an entity. */
  lemma FilledNew(s: State, ps: seq<Proposal>, us: seq<Reuse>, r: seq<Proposal>, m: nat)
    requires DistinctRefs(ps) && Reused(s, ps, us) == Some(r) && m < |ps|
    ensures |r| == |ps| && r[m].ref == ps[m].ref && r[m].personId == ps[m].personId
    ensures IsNew(r[m]) <==> IsNew(ps[m]) && !ReusedBefore(us, ps[m].ref)
    ensures ps[m].personId.Some? ==> r[m] == ps[m]
  {
    ReuseSteps(s, ps, us);
    if ReusedBefore(us, ps[m].ref) {
      var k :| 0 <= k < |us| && us[k].ref == ps[m].ref;
      assert Taken(s, ps, r, us[k]);
      var i :| TakesSource(s, ps, r, us[k], i);
      assert i == m;
    }
    if ps[m].personId.Some? { PersonsAreNotReused(s, ps, us, m); }
  }

  /** What `After` holds: the context, people under their own ids, and what earlier rows introduced. */
  ghost predicate Origin(context: map<string, Entity>, updates: seq<Update>, entities: map<string, Entity>, i: nat,
                         id: string)
    requires id in entities
  {
    id in context || entities[id].personId == Some(id) || exists k, m :: IntroducedBy(updates, i, 0, id, k, m)
  }

  lemma {:induction false} AfterOrigin(context: map<string, Entity>, updates: seq<Update>, packets: seq<Packet>, i: nat,
                                       id: string)
    requires GalleryIds(context) && Validate(context, updates, packets).Some? && i < |updates|
    requires After(context, updates, packets, i).Some? && id in After(context, updates, packets, i).value.entities
    ensures Origin(context, updates, After(context, updates, packets, i).value.entities, i, id)
    decreases i
  {
    if i == 0 {
      NoRowsYet(context, updates, packets);
    } else {
      AcceptedPrefix(context, updates, packets, i - 1, i);
      if id in After(context, updates, packets, i - 1).value.entities {
        AfterOrigin(context, updates, packets, i - 1, id);
      }
      OriginStep(context, updates, packets, i - 1, id);
    }
  }

  lemma OriginStep(context: map<string, Entity>, updates: seq<Update>, packets: seq<Packet>, h: nat, id: string)
    requires GalleryIds(context) && Validate(context, updates, packets).Some? && h < |updates|
    requires After(context, updates, packets, h).Some? && After(context, updates, packets, h + 1).Some?
    requires id in After(context, updates, packets, h + 1).value.entities
    requires var s := After(context, updates, packets, h).value;
             id in s.entities ==> Origin(context, updates, s.entities, h, id)
    ensures Origin(context, updates, After(context, updates, packets, h + 1).value.entities, h + 1, id)
  {
    WholeAfter(context, updates, packets, h);
    var s := After(context, updates, packets, h).value;
    if id in s.entities {
      RowSound(context, s, updates[h], packets[h]);
      LaterOrigin(updates, h, h + 1, id);
    } else {
      RowOrigin(context, updates, packets, h, s, id);
    }
  }

  lemma LaterOrigin(updates: seq<Update>, h: nat, i: nat, id: string)
    requires h <= i
    ensures (exists k, m :: IntroducedBy(updates, h, 0, id, k, m)) ==>
          exists k, m :: IntroducedBy(updates, i, 0, id, k, m)
  {
    if k, m :| IntroducedBy(updates, h, 0, id, k, m) { assert IntroducedBy(updates, i, 0, id, k, m); }
  }

  lemma RowOrigin(context: map<string, Entity>, updates: seq<Update>, packets: seq<Packet>, i: nat, s: State,
                  id: string)
    requires i < |updates| == |packets| && Row(context.Keys, s, updates[i], packets[i]).Some? && |s.resolved| == i
    requires id !in s.entities && id in Row(context.Keys, s, updates[i], packets[i]).value.entities
    ensures Origin(context, updates, Row(context.Keys, s, updates[i], packets[i]).value.entities, i + 1, id)
  {
    var ps := Reused(s, updates[i].proposals, updates[i].reuse).value;
    FitsExist(packets[i], s.entities, ps);
    NamedOrigin(i, ps, s.entities, id);
    if m :| NewAt(i, ps, m, id) {
      ReuseSteps(s, updates[i].proposals, updates[i].reuse);
      FilledNew(s, updates[i].proposals, updates[i].reuse, ps, m);
      assert IntroducedBy(updates, i + 1, 0, id, i, m);
    }
  }

  /** What an earlier row introduced is there. */
  lemma IntroducedIsThere(context: map<string, Entity>, updates: seq<Update>, packets: seq<Packet>, i: nat, k: nat,
                          m: nat)
    requires GalleryIds(context) && Validate(context, updates, packets).Some? && k < i < |updates|
        && Introduces(updates, k, m)
    ensures After(context, updates, packets, i).Some?
    ensures Virtual(k, updates[k].proposals[m].ref) in After(context, updates, packets, i).value.entities
  {
    WholeAfter(context, updates, packets, k);
    WholeAfter(context, updates, packets, i);
    var s, ps := After(context, updates, packets, k).value, Filled(context, updates, packets, k);
    FilledNew(s, updates[k].proposals, updates[k].reuse, ps, m);
    FitsExist(packets[k], s.entities, ps);
    NamedFacts(k, ps, s.entities);
    assert IdOf(k, ps[m]) == Virtual(k, updates[k].proposals[m].ref);
    AfterGrows(context, updates, packets, k + 1, i);
  }

  /** In an accepted batch, the `j`-th proposal of a row clashes exactly when its person's id is taken. */
  lemma ClashIsTaken(context: map<string, Entity>, updates: seq<Update>, packets: seq<Packet>, i: nat, j: nat)
    requires GalleryIds(context) && Validate(context, updates, packets).Some? && i < |updates|
        && j < |updates[i].proposals|
    ensures After(context, updates, packets, i).Some?
    ensures var s, ps := After(context, updates, packets, i).value, Filled(context, updates, packets, i);
            && j < |ps| && Named(i, ps[..j], s.entities).Some?
            && (Clash(Named(i, ps[..j], s.entities).value.entities, ps[j]) <==> TakenId(context, updates, i, j))
  {
    WholeAfter(context, updates, packets, i);
    var s, ps := After(context, updates, packets, i).value, Filled(context, updates, packets, i);
    FilledNew(s, updates[i].proposals, updates[i].reuse, ps, j);
    NamedPrefix(i, ps, s.entities, j);
    if ps[j].existingId.None? && ps[j].personId.Some? {
      assert ps[j] == updates[i].proposals[j];
      var q := ps[j].personId.value;
      if q in Named(i, ps[..j], s.entities).value.entities { ClashTaken(context, updates, packets, i, j, s, ps, q); }
      if TakenId(context, updates, i, j) { TakenClashes(context, updates, packets, i, j, s, ps, q); }
    } else if updates[i].proposals[j].personId.Some? {
      assert ps[j] == updates[i].proposals[j];
    }
  }

  lemma ClashTaken(context: map<string, Entity>, updates: seq<Update>, packets: seq<Packet>, i: nat, j: nat, s: State,
                   ps: seq<Proposal>, q: string)
    requires GalleryIds(context) && Validate(context, updates, packets).Some? && i < |updates|
        && j < |updates[i].proposals|
    requires After(context, updates, packets, i) == Some(s) && ps == Filled(context, updates, packets, i) && j < |ps|
    requires ps[j] == updates[i].proposals[j] && ps[j].existingId.None? && ps[j].personId == Some(q)
    requires Named(i, ps[..j], s.entities).Some? && q in Named(i, ps[..j], s.entities).value.entities
    ensures TakenId(context, updates, i, j)
  {
    WholeAfter(context, updates, packets, i);
    FitsExist(packets[i], s.entities, ps);
    assert Fits(packets[i], s.entities, ps[j]);
    if q in s.entities {
      AfterOrigin(context, updates, packets, i, q);
      if k, m :| IntroducedBy(updates, i, 0, q, k, m) { assert IntroducedBy(updates, i, j, q, k, m); }
    } else {
      NamedOrigin(i, ps[..j], s.entities, q);
      NewIsNotPerson(i, ps[..j], s.entities, q);
      var m :| NewAt(i, ps[..j], m, q);
      FilledNew(s, updates[i].proposals, updates[i].reuse, ps, m);
      assert IntroducedBy(updates, i, j, q, i, m);
    }
  }

  lemma TakenClashes(context: map<string, Entity>, updates: seq<Update>, packets: seq<Packet>, i: nat, j: nat, s: State,
                     ps: seq<Proposal>, q: string)
    requires GalleryIds(context) && Validate(context, updates, packets).Some? && i < |updates|
        && j < |updates[i].proposals|
    requires After(context, updates, packets, i) == Some(s) && ps == Filled(context, updates, packets, i) && j < |ps|
    requires ps[j] == updates[i].proposals[j] && ps[j].personId == Some(q) && TakenId(context, updates, i, j)
    requires Named(i, ps[..j], s.entities).Some?
    ensures q in Named(i, ps[..j], s.entities).value.entities
  {
    WholeAfter(context, updates, packets, i);
    FitsExist(packets[i], s.entities, ps);
    NamedFacts(i, ps[..j], s.entities);
    if q !in context {
      var k, m :| IntroducedBy(updates, i, j, q, k, m);
      if k < i {
        IntroducedIsThere(context, updates, packets, i, k, m);
      } else {
        FilledNew(s, updates[i].proposals, updates[i].reuse, ps, m);
        assert ps[..j][m] == ps[m] && IdOf(i, ps[..j][m]) == q;
      }
    }
  }

  /** A row of an accepted batch is free of clashes exactly when it names no new person whose id is taken. */
  lemma ClashFreeExactly(context: map<string, Entity>, updates: seq<Update>, packets: seq<Packet>, i: nat)
    requires GalleryIds(context) && Validate(context, updates, packets).Some? && i < |updates|
    ensures RowClashFree(context, updates, packets, i) <==> NoTakenIds(context, updates, i)
  {
    WholeAfter(context, updates, packets, i);
    var s, ps := After(context, updates, packets, i).value, Filled(context, updates, packets, i);
    ReuseSteps(s, updates[i].proposals, updates[i].reuse);
    NoClashIs(i, ps, s.entities);
    forall j | 0 <= j < |ps| ensures ClashesAt(i, ps, s.entities, j) <==> TakenId(context, updates, i, j) {
      ClashIsTaken(context, updates, packets, i, j);
    }
  }

  /** In an accepted batch every reference of every row has an entity.  A row preserves the kind and person of all
      its references exactly when it names no new person whose id the context holds for something else or an earlier
      proposal introduced; distinct references then name distinct entities. */
  lemma ResolutionIsSound(context: map<string, Entity>, updates: seq<Update>, packets: seq<Packet>, i: nat)
    requires GalleryIds(context) && Validate(context, updates, packets).Some? && i < |updates|
    ensures var final := Validate(context, updates, packets).value;
            && |final.resolved| == |updates|
            && (forall j :: 0 <= j < |updates[i].proposals| ==>
                  updates[i].proposals[j].ref in final.resolved[i]
                    && final.resolved[i][updates[i].proposals[j].ref] in final.entities)
            && (KeepsKinds(final, updates[i].proposals, i) <==> NoTakenIds(context, updates, i))
            && (NoTakenIds(context, updates, i) ==>
                  forall j, k :: 0 <= j < k < |updates[i].proposals| ==>
                    final.resolved[i][updates[i].proposals[j].ref] != final.resolved[i][updates[i].proposals[k].ref])
  {
    WholeAfter(context, updates, packets, i);
    var s, final := After(context, updates, packets, i).value, Validate(context, updates, packets).value;
    var ps := Filled(context, updates, packets, i);
    ReuseSteps(s, updates[i].proposals, updates[i].reuse);
    RowResolves(context, s, updates[i], packets[i], ps, final);
    PreservedExactly(i, ps, packets[i], s.entities, final.entities);
    ClashFreeExactly(context, updates, packets, i);
    if RowClashFree(context, updates, packets, i) {
      forall j, k | 0 <= j < k < |ps| ensures IdOf(i, ps[j]) != IdOf(i, ps[k]) {
        DistinctResolve(i, ps, packets[i], s.entities, j, k);
      }
    }
  }

  predicate KeepsKinds(final: State, ps: seq<Proposal>, i: nat)
    requires i < |final.resolved| && forall j :: 0 <= j < |ps| ==> ps[j].ref in final.resolved[i]
  {
    forall j :: 0 <= j < |ps| ==> SameAs(final.entities, final.resolved[i][ps[j].ref], ps[j])
  }

  lemma RowResolves(context: map<string, Entity>, s: State, update: Update, packet: Packet, ps: seq<Proposal>,
                    final: State)
    requires Sound(context, s) && Row(context.Keys, s, update, packet).Some?
    requires Reused(s, update.proposals, update.reuse) == Some(ps) && DistinctRefs(ps) && |ps| == |update.proposals|
    requires forall j :: 0 <= j < |ps| ==> SameButReuse(update.proposals[j], ps[j])
    requires |s.resolved| < |final.resolved|
    requires final.resolved[|s.resolved|] == Row(context.Keys, s, update, packet).value.resolved[|s.resolved|]
    requires Extends(Row(context.Keys, s, update, packet).value.entities, final.entities)
    ensures forall j :: 0 <= j < |ps| ==>
              && update.proposals[j].ref in final.resolved[|s.resolved|]
              && final.resolved[|s.resolved|][update.proposals[j].ref] == IdOf(|s.resolved|, ps[j])
              && IdOf(|s.resolved|, ps[j]) in final.entities
  {
    var row := |s.resolved|;
    FitsExist(packet, s.entities, ps);
    NamedFacts(row, ps, s.entities);
    forall j | 0 <= j < |ps|
      ensures update.proposals[j].ref in final.resolved[row]
          && final.resolved[row][update.proposals[j].ref] == IdOf(row, ps[j])
      ensures IdOf(row, ps[j]) in final.entities
    {
      RefResolves(row, ps, s.entities, j);
    }
  }

  /** Row `k` belongs to the packet and gave the reference this id. */
  predicate ComesFrom(updates: seq<Update>, final: State, k: nat, packet: string, ref: string, id: string) {
    && k < |updates| && k < |final.resolved| && updates[k].packet == packet
    && ref in final.resolved[k] && final.resolved[k][ref] == id
  }

  lemma {:induction false} RowsComeFrom(context: map<string, Entity>, updates: seq<Update>, packets: seq<Packet>,
                                        i: nat, packet: string)
    returns (k: nat)
    requires GalleryIds(context) && |updates| == |packets| && i <= |updates|
        && After(context, updates, packets, i).Some?
    requires packet in After(context, updates, packets, i).value.rows
    ensures var s := After(context, updates, packets, i).value;
            k < i && updates[k].packet == packet && k < |s.resolved| && s.rows[packet] == s.resolved[k]
  {
    if i == 0 {
      NoRowsYet(context, updates, packets);
      assert false;
    } else {
      AfterStep(context, updates, packets, i - 1);
      AfterSound(context, updates, packets, i - 1);
      RowAdds(context.Keys, After(context, updates, packets, i - 1).value, updates[i - 1], packets[i - 1]);
      if packets[i - 1].id == packet {
        k := i - 1;
      } else {
        k := RowsComeFrom(context, updates, packets, i - 1, packet);
      }
    }
  }

  lemma RowAdds(context: set<string>, s: State, update: Update, packet: Packet)
    requires Row(context, s, update, packet).Some?
    ensures var after := Row(context, s, update, packet).value;
            && update.packet == packet.id
            && exists refs :: after.rows == s.rows[packet.id := refs] && after.resolved == s.resolved + [refs]
  {}

  lemma NoRowsYet(context: map<string, Entity>, updates: seq<Update>, packets: seq<Packet>)
    requires |updates| == |packets|
    ensures After(context, updates, packets, 0) == Some(State(context, map[], []))
  {
    assert updates[..0] == [] && packets[..0] == [];
  }

  /** A reuse leads to the entity an earlier row named, and never to a person of the gallery. */
  lemma ReuseGoesBack(context: map<string, Entity>, updates: seq<Update>, packets: seq<Packet>, i: nat, u: Reuse)
    returns (k: nat)
    requires GalleryIds(context) && Validate(context, updates, packets).Some? && i < |updates| && u in updates[i].reuse
    ensures k < i
    ensures var final := Validate(context, updates, packets).value;
            && |final.resolved| == |updates| && u.ref in final.resolved[i]
            && ComesFrom(updates, final, k, u.fromPacket, u.fromRef, final.resolved[i][u.ref])
            && final.resolved[i][u.ref] in final.entities
            && final.entities[final.resolved[i][u.ref]].personId.None?
  {
    WholeAfter(context, updates, packets, i);
    var s, final := After(context, updates, packets, i).value, Validate(context, updates, packets).value;
    ReuseResolves(context, s, updates[i], packets[i], final, u);
    k := RowsComeFrom(context, updates, packets, i, u.fromPacket);
    ResolvedEarlier(context, updates, packets, k, i);
  }

  lemma ResolvedEarlier(context: map<string, Entity>, updates: seq<Update>, packets: seq<Packet>, k: nat, i: nat)
    requires GalleryIds(context) && Validate(context, updates, packets).Some? && k < i < |updates|
    ensures After(context, updates, packets, i).Some? && |After(context, updates, packets, i).value.resolved| == i
    ensures k < |Validate(context, updates, packets).value.resolved|
    ensures Validate(context, updates, packets).value.resolved[k]
        == After(context, updates, packets, i).value.resolved[k]
  {
    WholeAfter(context, updates, packets, k);
    WholeAfter(context, updates, packets, i);
    AfterGrows(context, updates, packets, k + 1, i);
    AfterSound(context, updates, packets, k + 1);
  }

  lemma ReuseResolves(context: map<string, Entity>, s: State, update: Update, packet: Packet, final: State, u: Reuse)
    requires Sound(context, s) && Row(context.Keys, s, update, packet).Some? && u in update.reuse
    requires |s.resolved| < |final.resolved|
    requires final.resolved[|s.resolved|] == Row(context.Keys, s, update, packet).value.resolved[|s.resolved|]
    requires Extends(Row(context.Keys, s, update, packet).value.entities, final.entities)
    ensures Source(s, u).Some? && u.ref in final.resolved[|s.resolved|]
    ensures final.resolved[|s.resolved|][u.ref] == Source(s, u).value
    ensures Source(s, u).value in final.entities && final.entities[Source(s, u).value].personId.None?
  {
    var ps := Reused(s, update.proposals, update.reuse).value;
    ReuseSteps(s, update.proposals, update.reuse);
    RowResolves(context, s, update, packet, ps, final);
    var at :| 0 <= at < |update.reuse| && update.reuse[at] == u;
    assert Taken(s, update.proposals, ps, update.reuse[at]);
    var j :| TakesSource(s, update.proposals, ps, u, j);
    RowSound(context, s, update, packet);
  }

  /** A person the context does not hold is new in at most one row: naming that person again in a later row of the
      same batch gets the batch rejected. */
  lemma NewPersonInOneRow(context: map<string, Entity>, updates: seq<Update>, packets: seq<Packet>, i: nat, j: nat,
                          a: Proposal, b: Proposal)
    requires GalleryIds(context) && Validate(context, updates, packets).Some? && i < j < |updates|
    requires a in updates[i].proposals && b in updates[j].proposals && a.personId.Some? && a.personId == b.personId
    requires NoTakenIds(context, updates, i)
    ensures a.personId.value in context
  {
    ClashFreeExactly(context, updates, packets, i);
    NamedInTwoRows(context, updates, packets, i, j, a, b);
  }

  lemma NamedInTwoRows(context: map<string, Entity>, updates: seq<Update>, packets: seq<Packet>, i: nat, j: nat,
                       a: Proposal, b: Proposal)
    requires GalleryIds(context) && Validate(context, updates, packets).Some? && i < j < |updates|
    requires a in updates[i].proposals && b in updates[j].proposals && a.personId.Some? && a.personId == b.personId
    requires RowClashFree(context, updates, packets, i)
    ensures a.personId.value in context
  {
    WholeAfter(context, updates, packets, i);
    WholeAfter(context, updates, packets, j);
    var s, t := After(context, updates, packets, i).value, After(context, updates, packets, j).value;
    var ps, qs := Filled(context, updates, packets, i), Filled(context, updates, packets, j);
    ReuseSteps(s, updates[i].proposals, updates[i].reuse);
    ReuseSteps(t, updates[j].proposals, updates[j].reuse);
    var x :| 0 <= x < |updates[i].proposals| && updates[i].proposals[x] == a;
    var y :| 0 <= y < |updates[j].proposals| && updates[j].proposals[y] == b;
    PreservedExactly(i, ps, packets[i], s.entities, After(context, updates, packets, i + 1).value.entities);
    AfterGrows(context, updates, packets, i + 1, j);
    var id := a.personId.value;
    PersonNamed(i, ps[x], After(context, updates, packets, i + 1).value.entities, t.entities);
    assert Fits(packets[j], t.entities, qs[y]);
    assert qs[y].existingId == Some(id);
    PersonsAreNotReused(t, updates[j].proposals, updates[j].reuse, y);
    assert !Foreign(context.Keys, updates[j].proposals[y]);
  }

  lemma PersonNamed(row: nat, p: Proposal, small: map<string, Entity>, big: map<string, Entity>)
    requires SameAs(small, IdOf(row, p), p) && p.personId.Some? && GalleryIds(small) && Extends(small, big)
    ensures GalleryEntity(big, p.personId.value) == Some(p.personId.value)
  {}

  lemma PersonsAreNotReused(s: State, ps: seq<Proposal>, us: seq<Reuse>, y: nat)
    requires Reused(s, ps, us).Some? && DistinctRefs(ps) && y < |ps| && ps[y].personId.Some?
    ensures y < |Reused(s, ps, us).value| && Reused(s, ps, us).value[y] == ps[y]
  {
    ReuseSteps(s, ps, us);
    forall k | 0 <= k < |us| ensures us[k].ref != ps[y].ref {
      assert Taken(s, ps, Reused(s, ps, us).value, us[k]);
      var i :| TakesSource(s, ps, Reused(s, ps, us).value, us[k], i);
    }
  }

  /** Two rows that name one person the context does not hold, as two frames with a new face do: rejected. */
  lemma NewPersonTwiceIsRejected(updates: seq<Update>, packets: seq<Packet>, p: Proposal)
    requires p == Proposal("r", Person, None, Some("x"))
    requires updates == [Update("p", 0, [p], []), Update("q", 0, [p], [])]
    requires packets == [Packet("p", 0, {"x"}), Packet("q", 0, {"x"})]
    ensures Validate(map[], updates, packets).None?
  {
    if Validate(map[], updates, packets).Some? {
      assert NoTakenIds(map[], updates, 0);
      assert p in updates[0].proposals && p in updates[1].proposals;
      NewPersonInOneRow(map[], updates, packets, 0, 1, p, p);
    }
  }

  /** A batch of one row that is accepted although it gives a person the entity of a thing: the camera confirmed a
      person whose id happens to be the id of that thing. */
  lemma ClashIsAccepted() returns (context: map<string, Entity>, updates: seq<Update>, packets: seq<Packet>)
    ensures GalleryIds(context) && Validate(context, updates, packets).Some? && |updates| == 1
    ensures !NoTakenIds(context, updates, 0)
    ensures var final := Validate(context, updates, packets).value;
            && |final.resolved| == 1 && "r" in final.resolved[0] && final.resolved[0]["r"] in final.entities
            && updates[0].proposals == [Proposal("r", Person, None, Some("x"))]
            && final.entities[final.resolved[0]["r"]] == Entity(Thing, None)
  {
    var p := Proposal("r", Person, None, Some("x"));
    context := map["x" := Entity(Thing, None)];
    updates, packets := [Update("p", 0, [p], [])], [Packet("p", 0, {"x"})];
    NoRowsYet(context, updates, packets);
    AfterStep(context, updates, packets, 0);
    var s := State(context, map[], []);
    assert [p][..0] == [];
    assert Reused(s, [p], []) == Some([p]);
    assert Fits(packets[0], context, p);
    assert DeltaOk(packets[0], context, [p]);
    assert Named(0, [], context) == Some(Names(context, map[]));
    assert Named(0, [p], context) == Some(Names(context, map["r" := "x"]));
    assert updates[..1] == updates && packets[..1] == packets;
    WholeAfter(context, updates, packets, 0);
    assert TakenId(context, updates, 0, 0);
  }

  // ---- The validator as the loops it is ----

  method FillReuse(s: State, proposals: seq<Proposal>, us: seq<Reuse>) returns (r: Option<seq<Proposal>>)
    ensures r == Reused(s, proposals, us)
  {
    var ps, seen := proposals, {};
    for k := 0 to |us|
      invariant Reused(s, proposals, us[..k]) == Some(ps)
      invariant forall ref :: ref in seen <==> ReusedBefore(us[..k], ref)
    {
      var u := us[k];
      assert us[..k + 1][..k] == us[..k];
      ReusedLess(s, proposals, us, k);
      if u.ref in seen {
        return None;
      }
      SeenStep(us, k);
      seen := seen + {u.ref};
      var i, source := IndexOf(ps, u.ref), Source(s, u);
      if i < 0 || source.None? || !MayReuse(s, ps[i], source.value) {
        return None;
      }
      ps := ps[i := ps[i].(existingId := source)];
    }
    assert us[..|us|] == us;
    return Some(ps);
  }

  lemma SeenStep(us: seq<Reuse>, k: nat)
    requires k < |us|
    ensures forall ref :: ReusedBefore(us[..k + 1], ref) <==> ref == us[k].ref || ReusedBefore(us[..k], ref)
  {
    assert us[..k + 1] == us[..k] + [us[k]];
    forall ref ensures ReusedBefore(us[..k + 1], ref) <==> ref == us[k].ref || ReusedBefore(us[..k], ref) {
      if ref == us[k].ref { assert us[..k + 1][k].ref == ref; }
      if ReusedBefore(us[..k], ref) { StillReused(us[..k], us[k], ref); }
    }
  }

  lemma {:induction false} ReusedLess(s: State, ps: seq<Proposal>, us: seq<Reuse>, k: nat)
    requires k < |us|
    ensures Reused(s, ps, us[..k + 1]).None? ==> Reused(s, ps, us).None?
    decreases |us|
  {
    if k + 1 < |us| {
      var front := us[..|us| - 1];
      assert front[..k + 1] == us[..k + 1];
      ReusedLess(s, ps, front, k);
    } else {
      assert us[..k + 1] == us;
    }
  }

  function ExistingOf(ps: seq<Proposal>): set<string> {
    set p | p in ps && p.existingId.Some? :: p.existingId.value
  }

  function PeopleOf(ps: seq<Proposal>): set<string> {
    set p | p in ps && p.personId.Some? :: p.personId.value
  }

  predicate NewTo(ps: seq<Proposal>, p: Proposal) {
    && (p.existingId.Some? ==> p.existingId.value !in ExistingOf(ps))
    && (p.personId.Some? ==> p.personId.value !in PeopleOf(ps))
  }

  lemma DeltaStep(packet: Packet, entities: map<string, Entity>, ps: seq<Proposal>, i: nat)
    requires i < |ps| && DeltaOk(packet, entities, ps[..i])
    ensures DeltaOk(packet, entities, ps[..i + 1]) <==> Fits(packet, entities, ps[i]) && NewTo(ps[..i], ps[i])
    ensures DeltaOk(packet, entities, ps) ==> DeltaOk(packet, entities, ps[..i + 1])
  {
    var front, p := ps[..i], ps[i];
    if !NewTo(front, p) {
      var q :| q in front && ((q.existingId.Some? && q.existingId == p.existingId)
        || (q.personId.Some? && q.personId == p.personId));
      var j :| 0 <= j < i && front[j] == q;
      assert ps[..i + 1][j] == q && ps[..i + 1][i] == p;
    } else {
      forall j | 0 <= j < i
        ensures ps[j].existingId.Some? ==> ps[j].existingId != p.existingId
        ensures ps[j].personId.Some? ==> ps[j].personId != p.personId
      {
        assert front[j] == ps[j];
      }
    }
    assert ps[..i + 1] == front + [p];
  }

  lemma UsedStep(ps: seq<Proposal>, i: nat)
    requires i < |ps|
    ensures ExistingOf(ps[..i + 1])
            == ExistingOf(ps[..i]) + if ps[i].existingId.Some? then {ps[i].existingId.value} else {}
    ensures PeopleOf(ps[..i + 1]) == PeopleOf(ps[..i]) + if ps[i].personId.Some? then {ps[i].personId.value} else {}
  {
    assert ps[..i + 1] == ps[..i] + [ps[i]];
  }

  /** One pass over the proposals, remembering which ids and people were used. */
  method CheckDelta(packet: Packet, entities: map<string, Entity>, ps: seq<Proposal>) returns (ok: bool)
    ensures ok == DeltaOk(packet, entities, ps)
  {
    var used, people := {}, {};
    for i := 0 to |ps|
      invariant DeltaOk(packet, entities, ps[..i])
      invariant used == ExistingOf(ps[..i]) && people == PeopleOf(ps[..i])
    {
      var p := ps[i];
      DeltaStep(packet, entities, ps, i);
      UsedStep(ps, i);
      if !Fits(packet, entities, p) {
        return false;
      }
      if p.existingId.Some? {
        if p.existingId.value in used {
          return false;
        }
        used := used + {p.existingId.value};
      }
      if p.personId.Some? {
        if p.personId.value in people {
          return false;
        }
        people := people + {p.personId.value};
      }
    }
    assert ps[..|ps|] == ps;
    return true;
  }

  method NameAll(row: nat, ps: seq<Proposal>, start: map<string, Entity>) returns (r: Option<Names>)
    ensures r == Named(row, ps, start)
  {
    var entities, refs := start, map[];
    for i := 0 to |ps|
      invariant Named(row, ps[..i], start) == Some(Names(entities, refs))
    {
      var p, id := ps[i], IdOf(row, ps[i]);
      assert ps[..i + 1][..i] == ps[..i];
      NamedLess(row, ps, start, i);
      if id in entities {
        if p.existingId.None? && p.personId.None? {
          return None;
        }
      } else {
        entities := entities[id := Entity(p.kind, p.personId)];
      }
      refs := refs[p.ref := id];
    }
    assert ps[..|ps|] == ps;
    return Some(Names(entities, refs));
  }

  lemma {:induction false} NamedLess(row: nat, ps: seq<Proposal>, start: map<string, Entity>, k: nat)
    requires k < |ps|
    ensures Named(row, ps[..k + 1], start).None? ==> Named(row, ps, start).None?
    decreases |ps|
  {
    if k + 1 < |ps| {
      var front := ps[..|ps| - 1];
      assert front[..k + 1] == ps[..k + 1];
      NamedLess(row, front, start, k);
    } else {
      assert ps[..k + 1] == ps;
    }
  }

  method CheckRow(context: set<string>, s: State, update: Update, packet: Packet) returns (r: Option<State>)
    ensures r == Row(context, s, update, packet)
  {
    if update.packet != packet.id || update.version != packet.version || !DistinctRefs(update.proposals)
       || exists i :: 0 <= i < |update.proposals| && Foreign(context, update.proposals[i])
    {
      return None;
    }
    var ps := FillReuse(s, update.proposals, update.reuse);
    if ps.None? {
      return None;
    }
    var ok := CheckDelta(packet, s.entities, ps.value);
    if !ok {
      return None;
    }
    var names := NameAll(|s.resolved|, ps.value, s.entities);
    if names.None? {
      return None;
    }
    return Some(State(names.value.entities, s.rows[packet.id := names.value.refs], s.resolved + [names.value.refs]));
  }

  method ValidateBatch(context: map<string, Entity>, updates: seq<Update>, packets: seq<Packet>)
    returns (r: Option<State>)
    ensures r == Validate(context, updates, packets)
  {
    if |updates| != |packets| {
      return None;
    }
    var s := State(context, map[], []);
    NoRowsYet(context, updates, packets);
    for i := 0 to |updates|
      invariant After(context, updates, packets, i) == Some(s)
    {
      AfterStep(context, updates, packets, i);
      r := CheckRow(context.Keys, s, updates[i], packets[i]);
      if r.None? {
        if After(context, updates, packets, |updates|).Some? {
          AcceptedPrefix(context, updates, packets, i + 1, |updates|);
        }
        assert updates[..|updates|] == updates && packets[..|packets|] == packets;
        return None;
      }
      s := r.value;
    }
    assert updates[..|updates|] == updates && packets[..|packets|] == packets;
    return Some(s);
  }
}
