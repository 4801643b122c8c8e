/** Which batches of memory updates are accepted, said on the context, the packets and the updates alone. */
module Acceptance {
  import opened Evidence
  import opened Batch

  // ---- What a proposal of the batch names ----

  /** The last row before row `i` that belongs to the packet. */
  function RowOf(updates: seq<Update>, i: nat, packet: string): (k: int)
    requires i <= |updates|
    ensures k >= 0 ==> k < i && updates[k].packet == packet && forall h :: k < h < i ==> updates[h].packet != packet
    ensures k < 0 ==> forall h :: 0 <= h < i ==> updates[h].packet != packet
  {
    if i == 0 then -1 else if updates[i - 1].packet == packet then i - 1 else RowOf(updates, i - 1, packet)
  }

  /** The declaration that reuses an entity for a reference. */
  function ReuseAt(us: seq<Reuse>, ref: string): (r: int)
    ensures r >= 0 ==> r < |us| && us[r].ref == ref
    ensures r < 0 ==> forall k :: 0 <= k < |us| ==> us[k].ref != ref
  {
    if us == [] then -1 else if us[|us| - 1].ref == ref then |us| - 1 else ReuseAt(us[..|us| - 1], ref)
  }

  /** The id that the named reference of the named packet's last row stands for. */
  function Referred(updates: seq<Update>, i: nat, u: Reuse): Option<string>
    requires i <= |updates|
    decreases i, 0
  {
    var k := RowOf(updates, i, u.fromPacket);
    if k < 0 then None
    else
      var m := IndexOf(updates[k].proposals, u.fromRef);
      if m < 0 then None else Some(IdAt(updates, k, m))
  }

  /** The identity a proposal claims: the one it names, or the one it reuses. */
  function Claimed(updates: seq<Update>, i: nat, m: nat): Option<string>
    requires i < |updates| && m < |updates[i].proposals|
    decreases i, 1
  {
    var p, r := updates[i].proposals[m], ReuseAt(updates[i].reuse, updates[i].proposals[m].ref);
    if p.existingId.Some? then p.existingId
    else if r >= 0 then Referred(updates, i, updates[i].reuse[r]) else None
  }

  function IdAt(updates: seq<Update>, i: nat, m: nat): string
    requires i < |updates| && m < |updates[i].proposals|
    decreases i, 2
  {
    var p := updates[i].proposals[m];
    if Claimed(updates, i, m).Some? then Claimed(updates, i, m).value
    else if p.personId.Some? then p.personId.value
    else Virtual(i, p.ref)
  }

  // ---- What an id stands for ----

  predicate Gives(updates: seq<Update>, k: int, m: int, id: string) {
    0 <= k < |updates| && 0 <= m < |updates[k].proposals| && IdAt(updates, k, m) == id
  }

  predicate Earlier(k: int, m: int, i: int, n: int) {
    k < i || (k == i && m < n)
  }

  /** Before the n-th proposal of row `i` the id is in the context or has been given. */
  ghost predicate Known(context: map<string, Entity>, updates: seq<Update>, i: int, n: int, id: string) {
    id in context || exists k, m :: Gives(updates, k, m, id) && Earlier(k, m, i, n)
  }

  /** The first proposal to give the id describes the entity. */
  ghost predicate FirstGives(context: map<string, Entity>, updates: seq<Update>, k: int, m: int, id: string, e: Entity)
  {
    && Gives(updates, k, m, id) && !Known(context, updates, k, m, id)
    && e == Entity(updates[k].proposals[m].kind, updates[k].proposals[m].personId)
  }

  /** Before the n-th proposal of row `i` the id stands for the entity: the context says so, or else the first
      proposal to give the id. */
  ghost predicate Stands(context: map<string, Entity>, updates: seq<Update>, i: int, n: int, id: string, e: Entity) {
    || (id in context && e == context[id])
    || exists k, m :: FirstGives(context, updates, k, m, id, e) && Earlier(k, m, i, n)
  }

  /** Before row `i` the person is known by name. */
  ghost predicate Met(context: map<string, Entity>, updates: seq<Update>, i: nat, person: string) {
    exists e: Entity :: Stands(context, updates, i, 0, person, e) && e.personId == Some(person)
  }

  // ---- What is asked of a row ----

  ghost predicate RefsOk(update: Update, packet: Packet) {
    && update.packet == packet.id && update.version == packet.version
    && forall a, b :: 0 <= a < b < |update.proposals| ==> update.proposals[a].ref != update.proposals[b].ref
  }

  /** Each declaration reuses, for an own proposal without an identity, an earlier entity of its kind that is no
      person of the gallery; and no two are for one proposal. */
  ghost predicate ReuseOk(context: map<string, Entity>, updates: seq<Update>, i: nat)
    requires i < |updates|
  {
    var ps, us := updates[i].proposals, updates[i].reuse;
    && (forall a, b :: 0 <= a < b < |us| ==> us[a].ref != us[b].ref)
    && forall a :: 0 <= a < |us| ==>
         && IndexOf(ps, us[a].ref) >= 0 && Referred(updates, i, us[a]).Some?
         && var p := ps[IndexOf(ps, us[a].ref)];
            && p.existingId.None? && p.personId.None?
            && Stands(context, updates, i, 0, Referred(updates, i, us[a]).value, Entity(p.kind, None))
  }

  /** A named entity is the context's and is described as there. */
  ghost predicate ExistingOk(context: map<string, Entity>, p: Proposal) {
    p.existingId.Some? ==> p.existingId.value in context && context[p.existingId.value] == Entity(p.kind, p.personId)
  }

  /** A named person is one, was confirmed by the camera or met before; and if met before is named by its entity. */
  ghost predicate PersonOk(context: map<string, Entity>, updates: seq<Update>, packet: Packet, i: nat, p: Proposal) {
    p.personId.Some? ==>
      && p.kind.Person?
      && (p.personId.value in packet.faces || Met(context, updates, i, p.personId.value))
      && (Met(context, updates, i, p.personId.value) ==> p.existingId == p.personId)
  }

  /** No two proposals of a row claim one identity or name one person. */
  ghost predicate ApartOk(updates: seq<Update>, i: nat)
    requires i < |updates|
  {
    var ps := updates[i].proposals;
    forall a, b :: 0 <= a < b < |ps| ==>
      && (Claimed(updates, i, a).Some? ==> Claimed(updates, i, a) != Claimed(updates, i, b))
      && (ps[a].personId.Some? ==> ps[a].personId != ps[b].personId)
  }

  /** The temporary id of a new entity is not taken. */
  ghost predicate FreshOk(context: map<string, Entity>, updates: seq<Update>, i: nat, m: nat)
    requires i < |updates| && m < |updates[i].proposals|
  {
    var p := updates[i].proposals[m];
    Claimed(updates, i, m).None? && p.personId.None? ==> !Known(context, updates, i, m, Virtual(i, p.ref))
  }

  ghost predicate RowOk(context: map<string, Entity>, updates: seq<Update>, packets: seq<Packet>, i: nat)
    requires i < |updates| == |packets|
  {
    && RefsOk(updates[i], packets[i])
    && ReuseOk(context, updates, i)
    && (forall m :: 0 <= m < |updates[i].proposals| ==>
          && ExistingOk(context, updates[i].proposals[m])
          && PersonOk(context, updates, packets[i], i, updates[i].proposals[m])
          && FreshOk(context, updates, i, m))
    && ApartOk(updates, i)
  }

  // ---- The validator's tables are these ----

  /** The entities are those known before the n-th proposal of row `i`. */
  ghost predicate Holds(context: map<string, Entity>, updates: seq<Update>, i: nat, n: nat,
                        entities: map<string, Entity>)
  {
    && (forall id :: id in entities <==> Known(context, updates, i, n, id))
    && (forall id :: id in entities ==> Stands(context, updates, i, n, id, entities[id]))
  }

  ghost predicate Tells(context: map<string, Entity>, updates: seq<Update>, i: nat, s: State)
    requires i <= |updates|
  {
    && |s.resolved| == i && GalleryIds(s.entities) && Holds(context, updates, i, 0, s.entities)
    && forall u: Reuse :: Source(s, u) == Referred(updates, i, u)
  }

  /** An id stands for one entity. */
  lemma StandsOnce(context: map<string, Entity>, updates: seq<Update>, i: int, n: int, id: string, d: Entity, e: Entity)
    requires Stands(context, updates, i, n, id, d) && Stands(context, updates, i, n, id, e)
    ensures d == e
  {
    if id !in context {
      var k, m :| FirstGives(context, updates, k, m, id, d) && Earlier(k, m, i, n);
      var h, l :| FirstGives(context, updates, h, l, id, e) && Earlier(h, l, i, n);
      assert !Earlier(k, m, h, l) && !Earlier(h, l, k, m);
    } else {
      NotGivenFirst(context, updates, id);
    }
  }

  lemma NotGivenFirst(context: map<string, Entity>, updates: seq<Update>, id: string)
    requires id in context
    ensures forall k, m, e :: !FirstGives(context, updates, k, m, id, e)
  {}

  lemma HeldIs(context: map<string, Entity>, updates: seq<Update>, i: nat, n: nat, entities: map<string, Entity>,
               id: string, e: Entity)
    requires Holds(context, updates, i, n, entities)
    ensures id in entities && entities[id] == e <==> Stands(context, updates, i, n, id, e)
  {
    if Stands(context, updates, i, n, id, e) {
      StandsKnown(context, updates, i, n, id, e);
      StandsOnce(context, updates, i, n, id, entities[id], e);
    }
  }

  lemma StandsKnown(context: map<string, Entity>, updates: seq<Update>, i: int, n: int, id: string, e: Entity)
    requires Stands(context, updates, i, n, id, e)
    ensures Known(context, updates, i, n, id)
  {}

  lemma NothingGiven(context: map<string, Entity>, updates: seq<Update>)
    ensures Holds(context, updates, 0, 0, context)
  {
    forall k, m, id ensures !(Gives(updates, k, m, id) && Earlier(k, m, 0, 0)) {}
  }

  /** The end of a row is the start of the next. */
  lemma RowEnds(context: map<string, Entity>, updates: seq<Update>, i: nat, entities: map<string, Entity>)
    requires i < |updates| && Holds(context, updates, i, |updates[i].proposals|, entities)
    ensures Holds(context, updates, i + 1, 0, entities)
  {
    var n := |updates[i].proposals|;
    forall k, m, id | Gives(updates, k, m, id) ensures Earlier(k, m, i, n) <==> Earlier(k, m, i + 1, 0) {}
    forall id ensures Known(context, updates, i, n, id) <==> Known(context, updates, i + 1, 0, id) {}
    forall id | id in entities ensures Stands(context, updates, i + 1, 0, id, entities[id]) {
      assert Stands(context, updates, i, n, id, entities[id]);
    }
  }

  lemma HoldsStep(context: map<string, Entity>, updates: seq<Update>, i: nat, n: nat, entities: map<string, Entity>)
    requires i < |updates| && n < |updates[i].proposals| && Holds(context, updates, i, n, entities)
    ensures var p, id := updates[i].proposals[n], IdAt(updates, i, n);
            Holds(context, updates, i, n + 1,
                  if id in entities then entities else entities[id := Entity(p.kind, p.personId)])
  {
    if IdAt(updates, i, n) in entities {
      OldName(context, updates, i, n, entities);
    } else {
      NewName(context, updates, i, n, entities);
    }
  }

  lemma OldName(context: map<string, Entity>, updates: seq<Update>, i: nat, n: nat, entities: map<string, Entity>)
    requires i < |updates| && n < |updates[i].proposals| && Holds(context, updates, i, n, entities)
    requires IdAt(updates, i, n) in entities
    ensures Holds(context, updates, i, n + 1, entities)
  {
    forall x ensures x in entities <==> Known(context, updates, i, n + 1, x) {
      KnownOneMore(context, updates, i, n, x);
    }
    forall x | x in entities ensures Stands(context, updates, i, n + 1, x, entities[x]) {
      StandsGrows(context, updates, i, n, x, entities[x]);
    }
  }

  lemma NewName(context: map<string, Entity>, updates: seq<Update>, i: nat, n: nat, entities: map<string, Entity>)
    requires i < |updates| && n < |updates[i].proposals| && Holds(context, updates, i, n, entities)
    requires IdAt(updates, i, n) !in entities
    ensures var p, id := updates[i].proposals[n], IdAt(updates, i, n);
            Holds(context, updates, i, n + 1, entities[id := Entity(p.kind, p.personId)])
  {
    var p, id := updates[i].proposals[n], IdAt(updates, i, n);
    var after := entities[id := Entity(p.kind, p.personId)];
    forall x ensures x in after <==> Known(context, updates, i, n + 1, x) { KnownOneMore(context, updates, i, n, x); }
    StandsNow(context, updates, i, n, after[id]);
    forall x | x in entities ensures Stands(context, updates, i, n + 1, x, entities[x]) {
      StandsGrows(context, updates, i, n, x, entities[x]);
    }
  }

  lemma KnownOneMore(context: map<string, Entity>, updates: seq<Update>, i: nat, n: nat, x: string)
    requires i < |updates| && n < |updates[i].proposals|
    ensures Known(context, updates, i, n + 1, x) <==> Known(context, updates, i, n, x) || x == IdAt(updates, i, n)
  {
    assert Gives(updates, i, n, IdAt(updates, i, n)) && Earlier(i, n, i, n + 1);
    if x != IdAt(updates, i, n) { KnownStep(context, updates, i, n, x); }
    if Known(context, updates, i, n, x) { KnownGrows(context, updates, i, n, x); }
  }

  lemma StandsNow(context: map<string, Entity>, updates: seq<Update>, i: nat, n: nat, e: Entity)
    requires i < |updates| && n < |updates[i].proposals| && !Known(context, updates, i, n, IdAt(updates, i, n))
    requires e == Entity(updates[i].proposals[n].kind, updates[i].proposals[n].personId)
    ensures Stands(context, updates, i, n + 1, IdAt(updates, i, n), e)
  {
    assert FirstGives(context, updates, i, n, IdAt(updates, i, n), e) && Earlier(i, n, i, n + 1);
  }

  lemma KnownStep(context: map<string, Entity>, updates: seq<Update>, i: nat, n: nat, x: string)
    requires i < |updates| && n < |updates[i].proposals| && IdAt(updates, i, n) != x
    ensures Known(context, updates, i, n + 1, x) ==> Known(context, updates, i, n, x)
  {
    if x !in context && Known(context, updates, i, n + 1, x) {
      var k, m :| Gives(updates, k, m, x) && Earlier(k, m, i, n + 1);
      assert Earlier(k, m, i, n);
    }
  }

  lemma KnownGrows(context: map<string, Entity>, updates: seq<Update>, i: nat, n: nat, x: string)
    requires Known(context, updates, i, n, x)
    ensures Known(context, updates, i, n + 1, x)
  {
    if x !in context {
      var k, m :| Gives(updates, k, m, x) && Earlier(k, m, i, n);
      assert Earlier(k, m, i, n + 1);
    }
  }

  lemma StandsGrows(context: map<string, Entity>, updates: seq<Update>, i: nat, n: nat, x: string, e: Entity)
    requires Stands(context, updates, i, n, x, e)
    ensures Stands(context, updates, i, n + 1, x, e)
  {
    if !(x in context && e == context[x]) {
      var k, m :| FirstGives(context, updates, k, m, x, e) && Earlier(k, m, i, n);
      assert Earlier(k, m, i, n + 1);
    }
  }

  // ---- Filling in the reuses ----

  ghost predicate Reusable(s: State, ps: seq<Proposal>, u: Reuse) {
    IndexOf(ps, u.ref) >= 0 && Source(s, u).Some? && MayReuse(s, ps[IndexOf(ps, u.ref)], Source(s, u).value)
  }

  ghost predicate AllReusable(s: State, ps: seq<Proposal>, us: seq<Reuse>) {
    && (forall a, b :: 0 <= a < b < |us| ==> us[a].ref != us[b].ref)
    && (forall a :: 0 <= a < |us| ==> Reusable(s, ps, us[a]))
  }

  lemma OneIndex(ps: seq<Proposal>, i: int, ref: string)
    requires DistinctRefs(ps) && IsRef(ps, i, ref)
    ensures IndexOf(ps, ref) == i
  {}

  lemma AllReusableStep(s: State, ps: seq<Proposal>, us: seq<Reuse>)
    requires us != []
    ensures var n := |us| - 1;
            AllReusable(s, ps, us) <==>
              AllReusable(s, ps, us[..n]) && !ReusedBefore(us[..n], us[n].ref) && Reusable(s, ps, us[n])
  {
    var n := |us| - 1;
    assert forall a :: 0 <= a < n ==> us[..n][a] == us[a];
  }

  lemma {:induction false} ReusedExactly(s: State, ps: seq<Proposal>, us: seq<Reuse>)
    requires DistinctRefs(ps)
    ensures Reused(s, ps, us).Some? <==> AllReusable(s, ps, us)
    decreases |us|
  {
    if us != [] {
      var n := |us| - 1;
      ReusedExactly(s, ps, us[..n]);
      AllReusableStep(s, ps, us);
      if Reused(s, ps, us[..n]).Some? && !ReusedBefore(us[..n], us[n].ref) {
        ReuseSteps(s, ps, us[..n]);
        Untouched(s, ps, us[..n], us[n], Reused(s, ps, us[..n]).value);
      }
    }
  }

  lemma Untouched(s: State, ps: seq<Proposal>, us: seq<Reuse>, u: Reuse, b: seq<Proposal>)
    requires DistinctRefs(ps) && FilledIn(s, ps, us, b) && !ReusedBefore(us, u.ref)
    ensures IndexOf(b, u.ref) == IndexOf(ps, u.ref)
    ensures IndexOf(ps, u.ref) >= 0 ==> b[IndexOf(ps, u.ref)] == ps[IndexOf(ps, u.ref)]
  {
    forall i | 0 <= i < |ps| ensures b[i].ref == ps[i].ref && (ps[i].ref == u.ref ==> b[i] == ps[i]) {
      assert SameButReuse(ps[i], b[i]);
    }
    SameIndex(ps, b, u.ref);
  }

  lemma SameIndex(ps: seq<Proposal>, b: seq<Proposal>, ref: string)
    requires |ps| == |b| && DistinctRefs(ps) && forall i :: 0 <= i < |ps| ==> b[i].ref == ps[i].ref
    ensures IndexOf(b, ref) == IndexOf(ps, ref)
  {
    var i, j := IndexOf(b, ref), IndexOf(ps, ref);
    if i >= 0 { OneIndex(ps, i, ref); }
    if j >= 0 { assert b[j].ref == ref; }
  }

  lemma ReusableMeans(context: map<string, Entity>, updates: seq<Update>, i: nat, s: State)
    requires i < |updates| && Tells(context, updates, i, s)
    ensures ReuseOk(context, updates, i) <==> AllReusable(s, updates[i].proposals, updates[i].reuse)
  {
    var ps, us := updates[i].proposals, updates[i].reuse;
    forall a | 0 <= a < |us|
      ensures Reusable(s, ps, us[a]) <==>
                && IndexOf(ps, us[a].ref) >= 0 && Referred(updates, i, us[a]).Some?
                && var p := ps[IndexOf(ps, us[a].ref)];
                   && p.existingId.None? && p.personId.None?
                   && Stands(context, updates, i, 0, Referred(updates, i, us[a]).value, Entity(p.kind, None))
    {
      assert Source(s, us[a]) == Referred(updates, i, us[a]);
      if IndexOf(ps, us[a].ref) >= 0 && Source(s, us[a]).Some? {
        var p, id := ps[IndexOf(ps, us[a].ref)], Source(s, us[a]).value;
        HeldIs(context, updates, i, 0, s.entities, id, Entity(p.kind, None));
      }
    }
  }

  /** The proposals with their claimed identities. */
  ghost predicate Claims(updates: seq<Update>, i: nat, r: seq<Proposal>)
    requires i < |updates|
  {
    var ps := updates[i].proposals;
    |r| == |ps| && forall m :: 0 <= m < |ps| ==> r[m] == ps[m].(existingId := Claimed(updates, i, m))
  }

  lemma FilledClaims(context: map<string, Entity>, updates: seq<Update>, i: nat, s: State, r: seq<Proposal>)
    requires i < |updates| && Tells(context, updates, i, s) && DistinctRefs(updates[i].proposals)
    requires Reused(s, updates[i].proposals, updates[i].reuse) == Some(r)
    ensures Claims(updates, i, r)
  {
    var ps, us := updates[i].proposals, updates[i].reuse;
    ReuseSteps(s, ps, us);
    ReusedExactly(s, ps, us);
    forall m | 0 <= m < |ps| ensures r[m] == ps[m].(existingId := Claimed(updates, i, m)) {
      assert SameButReuse(ps[m], r[m]);
      if ReusedBefore(us, ps[m].ref) {
        ReusedClaims(updates, i, s, r, m);
      } else {
        assert r[m] == ps[m];
      }
    }
  }

  lemma ReusedClaims(updates: seq<Update>, i: nat, s: State, r: seq<Proposal>, m: nat)
    requires i < |updates| && m < |updates[i].proposals| && DistinctRefs(updates[i].proposals)
    requires (forall u: Reuse :: Source(s, u) == Referred(updates, i, u))
    requires FilledIn(s, updates[i].proposals, updates[i].reuse, r)
    requires AllReusable(s, updates[i].proposals, updates[i].reuse)
    requires ReusedBefore(updates[i].reuse, updates[i].proposals[m].ref)
    ensures updates[i].proposals[m].existingId.None? && r[m].existingId == Claimed(updates, i, m)
  {
    var ps, us := updates[i].proposals, updates[i].reuse;
    var k := ReuseAt(us, ps[m].ref);
    assert Taken(s, ps, r, us[k]);
    var j :| TakesSource(s, ps, r, us[k], j);
    assert j == m;
    assert Source(s, us[k]) == Referred(updates, i, us[k]);
  }

  // ---- Checking a row ----

  lemma MetMeans(context: map<string, Entity>, updates: seq<Update>, i: nat, s: State, q: string)
    requires i <= |updates| && Tells(context, updates, i, s)
    ensures Met(context, updates, i, q) <==> GalleryEntity(s.entities, q).Some?
  {
    if Met(context, updates, i, q) {
      var e: Entity :| Stands(context, updates, i, 0, q, e) && e.personId == Some(q);
      HeldIs(context, updates, i, 0, s.entities, q, e);
    }
    if q in s.entities { HeldIs(context, updates, i, 0, s.entities, q, s.entities[q]); }
  }

  lemma FitsMeans(context: map<string, Entity>, updates: seq<Update>, packet: Packet, i: nat, s: State, m: nat)
    requires i < |updates| && m < |updates[i].proposals| && Tells(context, updates, i, s)
    requires DistinctRefs(updates[i].proposals) && ReuseOk(context, updates, i)
    ensures var p := updates[i].proposals[m];
            Fits(packet, s.entities, p.(existingId := Claimed(updates, i, m))) && !Foreign(context.Keys, p) <==>
              ExistingOk(context, p) && PersonOk(context, updates, packet, i, p)
  {
    var p := updates[i].proposals[m];
    var claimed := Claimed(updates, i, m);
    ReuserIsNew(context, updates, i, m);
    if p.personId.Some? { MetMeans(context, updates, i, s, p.personId.value); }
    if claimed.Some? { HeldIs(context, updates, i, 0, s.entities, claimed.value, Entity(p.kind, p.personId)); }
    if p.existingId.Some? && p.existingId.value in context {
      assert Stands(context, updates, i, 0, p.existingId.value, context[p.existingId.value]);
      HeldIs(context, updates, i, 0, s.entities, p.existingId.value, context[p.existingId.value]);
    }
  }

  /** A proposal that reuses has no identity of its own, and reuses an entity of its kind. */
  lemma ReuserIsNew(context: map<string, Entity>, updates: seq<Update>, i: nat, m: nat)
    requires i < |updates| && m < |updates[i].proposals|
    requires DistinctRefs(updates[i].proposals) && ReuseOk(context, updates, i)
    ensures var p := updates[i].proposals[m];
            ReuseAt(updates[i].reuse, p.ref) >= 0 ==>
              && p.existingId.None? && p.personId.None? && Claimed(updates, i, m).Some?
              && Stands(context, updates, i, 0, Claimed(updates, i, m).value, Entity(p.kind, None))
  {
    var p, us := updates[i].proposals[m], updates[i].reuse;
    if ReuseAt(us, p.ref) >= 0 { OneIndex(updates[i].proposals, m, p.ref); }
  }

  lemma DeltaMeans(context: map<string, Entity>, updates: seq<Update>, packet: Packet, i: nat, s: State,
                   r: seq<Proposal>)
    requires i < |updates| && Tells(context, updates, i, s) && Claims(updates, i, r)
    requires DistinctRefs(updates[i].proposals) && ReuseOk(context, updates, i)
    ensures (DeltaOk(packet, s.entities, r)
             && forall m :: 0 <= m < |updates[i].proposals| ==> !Foreign(context.Keys, updates[i].proposals[m]))
            <==>
            (ApartOk(updates, i)
             && forall m :: 0 <= m < |updates[i].proposals| ==>
                  ExistingOk(context, updates[i].proposals[m])
                  && PersonOk(context, updates, packet, i, updates[i].proposals[m]))
  {
    var ps := updates[i].proposals;
    forall m | 0 <= m < |ps|
      ensures Fits(packet, s.entities, r[m]) && !Foreign(context.Keys, ps[m]) <==>
                ExistingOk(context, ps[m]) && PersonOk(context, updates, packet, i, ps[m])
    {
      FitsMeans(context, updates, packet, i, s, m);
    }
    assert DistinctIds(r) <==> ApartOk(updates, i);
  }

  ghost predicate AllFresh(context: map<string, Entity>, updates: seq<Update>, i: nat, n: nat)
    requires i < |updates| && n <= |updates[i].proposals|
  {
    forall m :: 0 <= m < n ==> FreshOk(context, updates, i, m)
  }

  lemma AllFreshStep(context: map<string, Entity>, updates: seq<Update>, i: nat, n: nat)
    requires i < |updates| && 0 < n <= |updates[i].proposals|
    ensures AllFresh(context, updates, i, n) <==>
              AllFresh(context, updates, i, n - 1) && FreshOk(context, updates, i, n - 1)
  {}

  lemma FreshMeans(context: map<string, Entity>, updates: seq<Update>, i: nat, m: nat, entities: map<string, Entity>)
    requires i < |updates| && m < |updates[i].proposals| && Holds(context, updates, i, m, entities)
    ensures var p := updates[i].proposals[m].(existingId := Claimed(updates, i, m));
            FreshOk(context, updates, i, m) <==>
              !(p.existingId.None? && p.personId.None? && IdAt(updates, i, m) in entities)
  {}

  lemma NamedLast(row: nat, ps: seq<Proposal>, start: map<string, Entity>, n: nat)
    requires 0 < n <= |ps|
    ensures var before, p := Named(row, ps[..n - 1], start), ps[n - 1];
            var after, id := Named(row, ps[..n], start), IdOf(row, p);
            && (after.Some? <==>
                  before.Some? && !(p.existingId.None? && p.personId.None? && id in before.value.entities))
            && (after.Some? ==>
                  var e := before.value.entities;
                  after.value.entities == if id in e then e else e[id := Entity(p.kind, p.personId)])
  {
    assert ps[..n][..n - 1] == ps[..n - 1];
  }

  /** Naming the first `n` proposals succeeds exactly when their temporary ids are free. */
  lemma {:induction false} NamedMeans(context: map<string, Entity>, updates: seq<Update>, i: nat, n: nat,
                                      start: map<string, Entity>, r: seq<Proposal>)
    requires i < |updates| && n <= |updates[i].proposals| && Holds(context, updates, i, 0, start)
    requires Claims(updates, i, r)
    ensures Named(i, r[..n], start).Some? <==> AllFresh(context, updates, i, n)
    ensures Named(i, r[..n], start).Some? ==> Holds(context, updates, i, n, Named(i, r[..n], start).value.entities)
    decreases n
  {
    if n > 0 {
      NamedMeans(context, updates, i, n - 1, start, r);
      AllFreshStep(context, updates, i, n);
      OneNameMore(context, updates, i, n, start, r);
    }
  }

  lemma OneNameMore(context: map<string, Entity>, updates: seq<Update>, i: nat, n: nat, start: map<string, Entity>,
                    r: seq<Proposal>)
    requires i < |updates| && 0 < n <= |updates[i].proposals| && Claims(updates, i, r)
    requires var before := Named(i, r[..n - 1], start);
             before.Some? ==> Holds(context, updates, i, n - 1, before.value.entities)
    ensures var before, after := Named(i, r[..n - 1], start), Named(i, r[..n], start);
            && (after.Some? <==> before.Some? && FreshOk(context, updates, i, n - 1))
            && (after.Some? ==> Holds(context, updates, i, n, after.value.entities))
  {
    NamedLast(i, r, start, n);
    var before := Named(i, r[..n - 1], start);
    assert IdOf(i, r[n - 1]) == IdAt(updates, i, n - 1);
    if before.Some? {
      FreshMeans(context, updates, i, n - 1, before.value.entities);
      HoldsStep(context, updates, i, n - 1, before.value.entities);
    }
  }

  /** A row that the tables so far allow is accepted exactly when it is as asked for, and the tables stay true. */
  lemma RowMeans(context: map<string, Entity>, updates: seq<Update>, packets: seq<Packet>, i: nat, s: State)
    requires i < |updates| == |packets| && Tells(context, updates, i, s)
    ensures Batch.Row(context.Keys, s, updates[i], packets[i]).Some? <==> RowOk(context, updates, packets, i)
  {
    var ps, us := updates[i].proposals, updates[i].reuse;
    if DistinctRefs(ps) {
      ReusedExactly(s, ps, us);
      ReusableMeans(context, updates, i, s);
      if Reused(s, ps, us).Some? {
        var r := Reused(s, ps, us).value;
        FilledClaims(context, updates, i, s, r);
        DeltaMeans(context, updates, packets[i], i, s, r);
        NamedMeans(context, updates, i, |ps|, s.entities, r);
        assert r[..|ps|] == r;
      }
    }
  }

  lemma RowTells(context: map<string, Entity>, updates: seq<Update>, packets: seq<Packet>, i: nat, s: State)
    requires i < |updates| == |packets| && Tells(context, updates, i, s)
    requires Batch.Row(context.Keys, s, updates[i], packets[i]).Some?
    ensures Tells(context, updates, i + 1, Batch.Row(context.Keys, s, updates[i], packets[i]).value)
  {
    var ps, us := updates[i].proposals, updates[i].reuse;
    var r, after := Reused(s, ps, us).value, Batch.Row(context.Keys, s, updates[i], packets[i]).value;
    FilledClaims(context, updates, i, s, r);
    NamedMeans(context, updates, i, |ps|, s.entities, r);
    assert r[..|ps|] == r;
    RowEnds(context, updates, i, after.entities);
    FitsExist(packets[i], s.entities, r);
    NamedFacts(i, r, s.entities);
    SourcesTell(context, updates, i, s, r, after);
  }

  lemma SourcesTell(context: map<string, Entity>, updates: seq<Update>, i: nat, s: State, r: seq<Proposal>,
                    after: State)
    requires i < |updates| && (forall u: Reuse :: Source(s, u) == Referred(updates, i, u))
    requires Claims(updates, i, r) && DistinctRefs(updates[i].proposals) && Named(i, r, s.entities).Some?
    requires after.rows == s.rows[updates[i].packet := Named(i, r, s.entities).value.refs]
    ensures forall u: Reuse :: Source(after, u) == Referred(updates, i + 1, u)
  {
    forall u: Reuse ensures Source(after, u) == Referred(updates, i + 1, u) {
      if u.fromPacket == updates[i].packet {
        OwnRefs(updates, i, r, s.entities, u.fromRef);
      } else {
        assert Source(after, u) == Source(s, u) == Referred(updates, i, u);
      }
    }
  }

  lemma OwnRefs(updates: seq<Update>, i: nat, r: seq<Proposal>, start: map<string, Entity>, ref: string)
    requires i < |updates| && Claims(updates, i, r) && DistinctRefs(updates[i].proposals)
    requires Named(i, r, start).Some?
    ensures var refs, m := Named(i, r, start).value.refs, IndexOf(updates[i].proposals, ref);
            && (ref in refs <==> m >= 0)
            && (m >= 0 ==> refs[ref] == IdAt(updates, i, m))
  {
    var ps, refs := updates[i].proposals, Named(i, r, start).value.refs;
    NamedRefs(i, r, start);
    var m := IndexOf(ps, ref);
    if m >= 0 {
      assert r[m].ref == ref;
      RefResolves(i, r, start, m);
    }
    if ref in refs {
      var k :| RefIs(i, r, k, ref, refs[ref]);
      assert ps[k].ref == ref;
    }
  }

  // ---- Which batches are accepted ----

  ghost predicate RowsOk(context: map<string, Entity>, updates: seq<Update>, packets: seq<Packet>, i: nat)
    requires i <= |updates| == |packets|
  {
    forall h :: 0 <= h < i ==> RowOk(context, updates, packets, h)
  }

  lemma RowsOkStep(context: map<string, Entity>, updates: seq<Update>, packets: seq<Packet>, i: nat)
    requires i < |updates| == |packets|
    ensures RowsOk(context, updates, packets, i + 1) <==>
              RowsOk(context, updates, packets, i) && RowOk(context, updates, packets, i)
  {}

  lemma {:induction false} AcceptedUpTo(context: map<string, Entity>, updates: seq<Update>, packets: seq<Packet>,
                                        i: nat)
    requires GalleryIds(context) && |updates| == |packets| && i <= |updates|
    ensures After(context, updates, packets, i).Some? <==> RowsOk(context, updates, packets, i)
    ensures After(context, updates, packets, i).Some? ==>
              Tells(context, updates, i, After(context, updates, packets, i).value)
  {
    if i == 0 {
      NoRowsYet(context, updates, packets);
      NothingTold(context, updates);
    } else {
      AcceptedUpTo(context, updates, packets, i - 1);
      AfterStep(context, updates, packets, i - 1);
      RowsOkStep(context, updates, packets, i - 1);
      if After(context, updates, packets, i - 1).Some? {
        OneRowMore(context, updates, packets, i - 1, After(context, updates, packets, i - 1).value);
      }
    }
  }

  lemma NothingTold(context: map<string, Entity>, updates: seq<Update>)
    requires GalleryIds(context)
    ensures Tells(context, updates, 0, State(context, map[], []))
  {
    NothingGiven(context, updates);
  }

  lemma OneRowMore(context: map<string, Entity>, updates: seq<Update>, packets: seq<Packet>, i: nat, s: State)
    requires i < |updates| == |packets| && Tells(context, updates, i, s)
    ensures var after := Batch.Row(context.Keys, s, updates[i], packets[i]);
            && (after.Some? <==> RowOk(context, updates, packets, i))
            && (after.Some? ==> Tells(context, updates, i + 1, after.value))
  {
    RowMeans(context, updates, packets, i, s);
    if Batch.Row(context.Keys, s, updates[i], packets[i]).Some? { RowTells(context, updates, packets, i, s); }
  }

  /** A batch is accepted exactly when there is one row for each packet and each row is as asked for. */
  lemma AcceptedExactly(context: map<string, Entity>, updates: seq<Update>, packets: seq<Packet>)
    requires GalleryIds(context)
    ensures Validate(context, updates, packets).Some? <==>
              |updates| == |packets| && forall i: nat :: i < |updates| ==> RowOk(context, updates, packets, i)
  {
    if |updates| == |packets| {
      AcceptedUpTo(context, updates, packets, |updates|);
      assert updates[..|updates|] == updates && packets[..|packets|] == packets;
    }
  }

  /** In an accepted batch every reference of every row resolves to the id that its proposal names, reuses or gives,
      and that to the entity the context or the first proposal to give the id describes. */
  lemma AcceptedResolves(context: map<string, Entity>, updates: seq<Update>, packets: seq<Packet>, i: nat, m: nat)
    requires GalleryIds(context) && Validate(context, updates, packets).Some?
    requires i < |updates| && m < |updates[i].proposals|
    ensures var final := Validate(context, updates, packets).value;
            var ref, id := updates[i].proposals[m].ref, IdAt(updates, i, m);
            && |final.resolved| == |updates| && ref in final.resolved[i] && final.resolved[i][ref] == id
            && id in final.entities && Stands(context, updates, |updates|, 0, id, final.entities[id])
  {
    var final := Validate(context, updates, packets).value;
    WholeAfter(context, updates, packets, i);
    AcceptedUpTo(context, updates, packets, i);
    AcceptedUpTo(context, updates, packets, |updates|);
    assert updates[..|updates|] == updates && packets[..|packets|] == packets;
    var s, r := After(context, updates, packets, i).value, Filled(context, updates, packets, i);
    ReuseSteps(s, updates[i].proposals, updates[i].reuse);
    FilledClaims(context, updates, i, s, r);
    RowResolves(context, s, updates[i], packets[i], r, final);
    assert IdOf(i, r[m]) == IdAt(updates, i, m);
  }

  /** In an accepted batch nobody is invented: who is named is a person, whom the camera confirmed for this packet or
      the context holds.  That an earlier row named the person is not enough. */
  lemma NobodyIsInvented(context: map<string, Entity>, updates: seq<Update>, packets: seq<Packet>, i: nat, m: nat)
    requires GalleryIds(context) && Validate(context, updates, packets).Some?
    requires i < |updates| && m < |updates[i].proposals| && updates[i].proposals[m].personId.Some?
    ensures |updates| == |packets| && updates[i].proposals[m].kind.Person?
    ensures var q := updates[i].proposals[m].personId;
            q.value in packets[i].faces || (q.value in context && context[q.value].personId == q)
  {
    AcceptedExactly(context, updates, packets);
    assert RowOk(context, updates, packets, i);
    var p := updates[i].proposals[m];
    assert PersonOk(context, updates, packets[i], i, p) && ExistingOk(context, p);
  }
}
