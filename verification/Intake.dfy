/** The receiving end of the outbox: one request deletes, forgets people and ingests events in one transaction. */
module Intake {
  import opened Evidence
  import opened Cascade
  import opened LedgerOps
  import opened LedgerSafety
  import opened Derivations
  import opened Store

  // ---- Deleting several events: the order does not matter ----

  /** Some events and everything derived from them. */
  ghost function Dead(db: Db, keys: set<Key>): set<Key> {
    keys + set d | d in db.deps && (exists k :: k in keys && Reaches(db, k, Key(d.owner, d.subject)))
             :: Key(d.owner, d.subject)
  }

  ghost predicate AllAcyclic(db: Db, keys: set<Key>) {
    forall k :: k in keys ==> Acyclic(db, k)
  }

  ghost function DeletedAll(db: Db, keys: set<Key>): Db {
    var hits := TargetsOf(db.deps, Dead(db, keys));
    Apply(db, hits, hits, Dead(db, keys))
  }

  lemma InDead(db: Db, keys: set<Key>, x: Key)
    ensures x in Dead(db, keys) <==> x in keys || exists k :: k in keys && Reaches(db, k, x)
  {
    if k :| k in keys && Reaches(db, k, x) { ReachTarget(db, k, x); }
  }

  lemma DeadClosed(db: Db, keys: set<Key>)
    ensures Closed(db, Dead(db, keys))
  {
    forall x, y | x in Dead(db, keys) && Edge(db, x, y) ensures y in Dead(db, keys) {
      InDead(db, keys, x);
      InDead(db, keys, y);
      ReachStep(db, x, y, y);
      if x !in keys {
        var k :| k in keys && Reaches(db, k, x);
        ReachTrans(db, k, x, y);
      }
    }
  }

  lemma DeadOneMore(db: Db, keys: set<Key>, key: Key)
    ensures Dead(db, keys) + Below(DeletedAll(db, keys), key) + {key} == Dead(db, keys + {key})
  {
    var later, dead := DeletedAll(db, keys), Dead(db, keys);
    DeadClosed(db, keys);
    ApplyWithout(db, TargetsOf(db.deps, dead), TargetsOf(db.deps, dead), dead);
    forall x ensures x in dead + Below(later, key) + {key} <==> x in Dead(db, keys + {key}) {
      InDead(db, keys, x);
      InDead(db, keys + {key}, x);
      InBelow(later, key, x);
      if Reaches(later, key, x) { ReachMonotone(later, db, key, x); }
      if x in Dead(db, keys + {key}) && x !in dead && x != key {
        assert Reaches(db, key, x);
        ReachAvoids(db, later, dead, key, x);
      }
    }
  }

  lemma AcyclicOneMore(db: Db, keys: set<Key>, key: Key)
    requires AllAcyclic(db, keys)
    ensures Acyclic(DeletedAll(db, keys), key) <==> Acyclic(db, key)
  {
    var later, dead := DeletedAll(db, keys), Dead(db, keys);
    DeadClosed(db, keys);
    ApplyWithout(db, TargetsOf(db.deps, dead), TargetsOf(db.deps, dead), dead);
    if Acyclic(db, key) {
      forall x | x == key || Reaches(later, key, x) ensures !Reaches(later, x, x) {
        if x != key { ReachMonotone(later, db, key, x); }
        if Reaches(later, x, x) { ReachMonotone(later, db, x, x); }
      }
    }
    if Acyclic(later, key) {
      forall x | x == key || Reaches(db, key, x) ensures !Reaches(db, x, x) {
        InDead(db, keys, x);
        if Reaches(db, x, x) && x !in dead {
          ReachAvoids(db, later, dead, x, x);
          if x != key { ReachAvoids(db, later, dead, key, x); }
        }
      }
    }
  }

  /** One deletion after others is the deletion of all of them together. */
  lemma DeleteOneMore(db: Db, keys: set<Key>, key: Key)
    ensures DeleteSpec(DeletedAll(db, keys), key) == DeletedAll(db, keys + {key})
  {
    var later, dead := DeletedAll(db, keys), Dead(db, keys);
    var more := Below(later, key) + {key};
    var a, b := TargetsOf(db.deps, dead), TargetsOf(db.deps, more);
    DeadOneMore(db, keys, key);
    Compose(db, a, a, dead, b, b, more);
    TargetsUnion(db.deps, dead, more);
    assert dead + more == Dead(db, keys + {key});
  }

  lemma DeleteNone(db: Db)
    ensures DeletedAll(db, {}) == db
  {
    assert Dead(db, {}) == {};
    assert TargetsOf(db.deps, {}) == {};
    ApplyNothing(db);
  }

  lemma {:induction false} DeadWithin(db: Db, a: set<Key>, b: set<Key>)
    requires a <= Dead(db, b)
    ensures Dead(db, a) <= Dead(db, b)
    ensures AllAcyclic(db, b) ==> AllAcyclic(db, a)
  {
    forall x | x in Dead(db, a) ensures x in Dead(db, b) {
      InDead(db, a, x);
      InDead(db, b, x);
      if x !in a {
        var k :| k in a && Reaches(db, k, x);
        InDead(db, b, k);
        if k !in b {
          var j :| j in b && Reaches(db, j, k);
          ReachTrans(db, j, k, x);
        }
      }
    }
    if AllAcyclic(db, b) {
      forall k | k in a ensures Acyclic(db, k) { AcyclicBelow(db, b, k); }
    }
  }

  lemma AcyclicBelow(db: Db, keys: set<Key>, k: Key)
    requires AllAcyclic(db, keys) && k in Dead(db, keys)
    ensures Acyclic(db, k)
  {
    InDead(db, keys, k);
    if k !in keys {
      var j :| j in keys && Reaches(db, j, k);
      forall x | Reaches(db, k, x) ensures !Reaches(db, x, x) { ReachTrans(db, j, k, x); }
    }
  }

  /** Deletions that come to the same dead events are the same. */
  lemma SameDead(db: Db, a: set<Key>, b: set<Key>)
    requires a <= Dead(db, b) && b <= Dead(db, a)
    ensures DeletedAll(db, a) == DeletedAll(db, b) && (AllAcyclic(db, a) <==> AllAcyclic(db, b))
  {
    assert Dead(db, a) == Dead(db, b) && (AllAcyclic(db, a) <==> AllAcyclic(db, b)) by {
      DeadWithin(db, a, b);
      DeadWithin(db, b, a);
    }
  }

  // ---- The handler ----

  datatype Item = Invalidate(id: string) | Forget(person: string) | Observe(event: Event) | Blank

  datatype Agent = Agent(db: Db, removed: set<string>)

  predicate Names(e: Event, people: set<string>) {
    exists p :: p in e.personIds && p in people
  }

  function Invalidated(items: seq<Item>, owner: string): set<Key> {
    set i | i in items && i.Invalidate? :: Key(owner, i.id)
  }

  function Forgotten(items: seq<Item>): set<string> {
    set i | i in items && i.Forget? :: i.person
  }

  function EventsOf(items: seq<Item>): seq<Event> {
    if items == [] then []
    else EventsOf(items[..|items| - 1]) + if items[|items| - 1].Observe? then [items[|items| - 1].event] else []
  }

  /** The events any undeleted revision of which names one of the people. */
  function Affected(db: Db, owner: string, people: set<string>): set<Key> {
    set r | r in db.evidence && r.key.owner == owner && r.payload.Some? && Names(r.payload.value, people) :: r.key
  }

  ghost function IngestLast(mid: Db, removed: set<string>, owner: string, e: Event, at: int): Option<Db> {
    if Names(e, removed) then Some(mid) else IngestSpec(mid, owner, e, at)
  }

  /** The events of a request, in order; those that name a removed person are skipped. */
  ghost function IngestAll(db: Db, removed: set<string>, owner: string, events: seq<Event>, at: int): Option<Db>
    decreases |events|
  {
    if events == [] then Some(db)
    else
      var before := IngestAll(db, removed, owner, events[..|events| - 1], at);
      if before.None? then None else IngestLast(before.value, removed, owner, events[|events| - 1], at)
  }

  /** The tables after the deletions of a request. */
  ghost function Cleared(agent: Agent, owner: string, items: seq<Item>): Db {
    DeletedAll(agent.db, Invalidated(items, owner)
      + Affected(DeletedAll(agent.db, Invalidated(items, owner)), owner, Forgotten(items)))
  }

  ghost predicate Clearable(agent: Agent, owner: string, items: seq<Item>) {
    && AllAcyclic(agent.db, Invalidated(items, owner))
    && AllAcyclic(agent.db, Affected(DeletedAll(agent.db, Invalidated(items, owner)), owner, Forgotten(items)))
  }

  /** One request, all or nothing. */
  ghost function Handle(agent: Agent, owner: string, items: seq<Item>, at: int): Option<Agent> {
    if !Clearable(agent, owner, items) then None
    else
      var removed := agent.removed + Forgotten(items);
      var db := IngestAll(Cleared(agent, owner, items), removed, owner, EventsOf(items), at);
      if db.None? then None else Some(Agent(db.value, removed))
  }

  // ---- Exactly which requests are refused ----

  /** The event was deleted, exists with other content, changed its identity, or would meet a derivation cycle. */
  ghost predicate Refused(db: Db, owner: string, e: Event, at: int) {
    Conflicts(db, owner, e)
    || (!Duplicate(db, owner, e) && Supersedes(db, owner, e) && !Acyclic(Stored(db, owner, e, at), Key(owner, e.id)))
  }

  /** The events before the i-th went in, and it is neither skipped nor accepted. */
  ghost predicate RefusedAt(db: Db, removed: set<string>, owner: string, events: seq<Event>, at: int, i: nat) {
    i < |events| && !Names(events[i], removed)
    && var before := IngestAll(db, removed, owner, events[..i], at);
       before.Some? && Refused(before.value, owner, events[i], at)
  }

  ghost predicate SomeRefused(db: Db, removed: set<string>, owner: string, events: seq<Event>, at: int) {
    exists i: nat :: RefusedAt(db, removed, owner, events, at, i)
  }

  lemma {:induction false} IngestAllFails(db: Db, removed: set<string>, owner: string, events: seq<Event>, at: int)
    ensures IngestAll(db, removed, owner, events, at).None? <==> SomeRefused(db, removed, owner, events, at)
    decreases |events|
  {
    if events == [] {
    } else {
      IngestAllFails(db, removed, owner, events[..|events| - 1], at);
      LastRefused(db, removed, owner, events, at);
      RefusedInFront(db, removed, owner, events, at);
    }
  }

  lemma RefusedInFront(db: Db, removed: set<string>, owner: string, events: seq<Event>, at: int)
    requires events != []
    ensures SomeRefused(db, removed, owner, events, at) <==>
              SomeRefused(db, removed, owner, events[..|events| - 1], at)
                || RefusedAt(db, removed, owner, events, at, |events| - 1)
  {
    var n := |events| - 1;
    if SomeRefused(db, removed, owner, events, at) {
      var i: nat :| RefusedAt(db, removed, owner, events, at, i);
      if i < n { SameTurn(db, removed, owner, events, at, i); }
    }
    if SomeRefused(db, removed, owner, events[..n], at) {
      var i: nat :| RefusedAt(db, removed, owner, events[..n], at, i);
      SameTurn(db, removed, owner, events, at, i);
    }
  }

  lemma SameTurn(db: Db, removed: set<string>, owner: string, events: seq<Event>, at: int, i: nat)
    requires i < |events| - 1
    ensures RefusedAt(db, removed, owner, events, at, i) <==>
          RefusedAt(db, removed, owner, events[..|events| - 1], at, i)
  {
    assert events[..|events| - 1][..i] == events[..i];
  }

  lemma LastRefused(db: Db, removed: set<string>, owner: string, events: seq<Event>, at: int)
    requires events != []
    ensures var n := |events| - 1; var before := IngestAll(db, removed, owner, events[..n], at);
            IngestAll(db, removed, owner, events, at).None? <==>
              before.None? || RefusedAt(db, removed, owner, events, at, n)
    ensures IngestAll(db, removed, owner, events[..|events| - 1], at).None? ==>
          !RefusedAt(db, removed, owner, events, at, |events| - 1)
  {}

  /** A request, new or repeated, is refused if and only if a deletion it asks for meets a derivation cycle, or one of
      its events that names nobody removed was deleted, conflicts, changes identity or meets a cycle at its turn. */
  lemma RefusedExactly(agent: Agent, owner: string, items: seq<Item>, at: int)
    ensures Handle(agent, owner, items, at).None? <==>
              !Clearable(agent, owner, items)
              || SomeRefused(Cleared(agent, owner, items), agent.removed + Forgotten(items), owner, EventsOf(items), at)
  {
    IngestAllFails(Cleared(agent, owner, items), agent.removed + Forgotten(items), owner, EventsOf(items), at);
  }

  // ---- A request keeps the ledger in order ----

  lemma DeletedAllSafe(db: Db, keys: set<Key>)
    requires Safe(db)
    ensures Safe(DeletedAll(db, keys))
  {
    var dead := Dead(db, keys);
    var hits := TargetsOf(db.deps, dead);
    CascadeRestores(db, dead, dead);
    LedgerSafety.EraseRows(db, dead, hits, hits);
    DocsAfter(db, hits, hits, dead, {});
    MemoriesKept(db, hits, hits, dead);
  }

  lemma DeletedAllRooted(db: Db, keys: set<Key>)
    requires Rooted(db)
    ensures Rooted(DeletedAll(db, keys))
    ensures CycleFree(db) ==> CycleFree(DeletedAll(db, keys))
  {
    var hits := TargetsOf(db.deps, Dead(db, keys));
    AppliedStep(db, hits, hits, Dead(db, keys));
    if CycleFree(db) { FewerEdges(db, DeletedAll(db, keys)); }
  }

  lemma {:induction false} IngestAllKeeps(db: Db, removed: set<string>, owner: string, events: seq<Event>, at: int)
    requires IngestAll(db, removed, owner, events, at).Some?
    ensures Safe(db) ==> Safe(IngestAll(db, removed, owner, events, at).value)
    ensures Rooted(db) ==> Rooted(IngestAll(db, removed, owner, events, at).value)
    ensures Rooted(db) && CycleFree(db) ==> CycleFree(IngestAll(db, removed, owner, events, at).value)
    decreases |events|
  {
    if events == [] {
    } else {
      var front, e := events[..|events| - 1], events[|events| - 1];
      LastEvent(db, removed, owner, events, at);
      IngestAllKeeps(db, removed, owner, front, at);
      OneKeeps(IngestAll(db, removed, owner, front, at).value, removed, owner, e, at);
    }
  }

  lemma OneKeeps(mid: Db, removed: set<string>, owner: string, e: Event, at: int)
    requires IngestLast(mid, removed, owner, e, at).Some?
    ensures Safe(mid) ==> Safe(IngestLast(mid, removed, owner, e, at).value)
    ensures Rooted(mid) ==> Rooted(IngestLast(mid, removed, owner, e, at).value)
    ensures Rooted(mid) && CycleFree(mid) ==> CycleFree(IngestLast(mid, removed, owner, e, at).value)
  {
    if !Names(e, removed) {
      if Safe(mid) { IngestSafe(mid, owner, e, at); }
      if Rooted(mid) {
        IngestStep(mid, owner, e, at);
        if CycleFree(mid) { IngestCycleFree(mid, owner, e, at); }
      }
    }
  }

  /** An accepted request keeps the whole ledger invariant, and derivations rooted and free of cycles. */
  lemma HandleKeeps(agent: Agent, owner: string, items: seq<Item>, at: int)
    requires Handle(agent, owner, items, at).Some?
    ensures var after := Handle(agent, owner, items, at).value.db;
            && (Safe(agent.db) ==> Safe(after))
            && (Rooted(agent.db) ==> Rooted(after))
            && (Rooted(agent.db) && CycleFree(agent.db) ==> CycleFree(after))
  {
    var keys := Invalidated(items, owner) + Affected(DeletedAll(agent.db, Invalidated(items, owner)), owner,
                                                     Forgotten(items));
    if Safe(agent.db) { DeletedAllSafe(agent.db, keys); }
    if Rooted(agent.db) { DeletedAllRooted(agent.db, keys); }
    IngestAllKeeps(Cleared(agent, owner, items), agent.removed + Forgotten(items), owner, EventsOf(items), at);
  }

  // ---- Effects last, and removed people stay removed ----

  /** Nothing stored is lost but to a tombstone, and no tombstone is lost. */
  ghost predicate Grows(db: Db, after: Db) {
    && db.tombs <= after.tombs
    && forall r :: r in db.evidence && r.payload.Some? ==> r in after.evidence || r.key in after.tombs
  }

  /** Stored payloads are old ones or the given event. */
  ghost predicate Adds(db: Db, after: Db, new_: set<Event>) {
    forall r :: r in after.evidence && r.payload.Some? ==> r in db.evidence || r.payload.value in new_
  }

  lemma ApplyGrows(db: Db, soft: set<Target>, hard: set<Target>, killed: set<Key>)
    ensures Grows(db, Apply(db, soft, hard, killed)) && Adds(db, Apply(db, soft, hard, killed), {})
  {
    var after := Apply(db, soft, hard, killed);
    forall r | r in db.evidence && r.payload.Some? ensures r in after.evidence || r.key in after.tombs {
      var i :| 0 <= i < |db.evidence| && db.evidence[i] == r;
      assert after.evidence[i] in after.evidence;
    }
    forall r | r in after.evidence && r.payload.Some? ensures r in db.evidence {
      var i :| 0 <= i < |after.evidence| && after.evidence[i] == r;
      assert db.evidence[i] in db.evidence;
    }
  }

  lemma IngestGrows(db: Db, owner: string, e: Event, at: int)
    requires IngestSpec(db, owner, e, at).Some?
    ensures Grows(db, IngestSpec(db, owner, e, at).value) && Adds(db, IngestSpec(db, owner, e, at).value, {e})
    ensures EventApplied(IngestSpec(db, owner, e, at).value, owner, e)
  {
    var key, row := Key(owner, e.id), Row(Key(owner, e.id), e.revision, Some(e), at);
    var stored, after := Stored(db, owner, e, at), IngestSpec(db, owner, e, at).value;
    if Duplicate(db, owner, e) {
      var prior := Find(db.evidence, key, e.revision).value;
      assert prior.payload == Some(e);
    } else {
      assert row in stored.evidence;
      if Supersedes(db, owner, e) {
        var below := Below(stored, key);
        ApplyGrows(stored, TargetsOf(stored.deps, below + {key}), TargetsOf(stored.deps, below), below);
      }
    }
  }

  /** The event is stored, or was deleted since. */
  ghost predicate EventApplied(db: Db, owner: string, e: Event) {
    Key(owner, e.id) in db.tombs || exists r :: r in db.evidence && r.key == Key(owner, e.id) && r.payload == Some(e)
  }

  ghost predicate Applied(agent: Agent, owner: string, item: Item) {
    match item
    case Invalidate(id) => Key(owner, id) in agent.db.tombs
    case Forget(person) => person in agent.removed
    case Observe(e) => Names(e, agent.removed) || EventApplied(agent.db, owner, e)
    case Blank => true
  }

  /** No stored evidence of the owner names a removed person. */
  ghost predicate NoNames(agent: Agent, owner: string) {
    forall r :: r in agent.db.evidence && r.key.owner == owner && r.payload.Some? ==>
      !Names(r.payload.value, agent.removed)
  }

  /** What ingesting the events of a request, but for the skipped ones, comes to. */
  ghost predicate TakesIn(db: Db, removed: set<string>, owner: string, events: seq<Event>, after: Db) {
    && Grows(db, after)
    && Adds(db, after, Unnamed(events, removed))
    && forall e :: e in Unnamed(events, removed) ==> EventApplied(after, owner, e)
  }

  function Unnamed(events: seq<Event>, removed: set<string>): set<Event> {
    set e | e in events && !Names(e, removed)
  }

  lemma TakesOneMore(db: Db, removed: set<string>, owner: string, front: seq<Event>, mid: Db, e: Event, at: int)
    requires TakesIn(db, removed, owner, front, mid) && !Names(e, removed) && IngestSpec(mid, owner, e, at).Some?
    ensures TakesIn(db, removed, owner, front + [e], IngestSpec(mid, owner, e, at).value)
  {
    IngestGrows(mid, owner, e, at);
    var after := IngestSpec(mid, owner, e, at).value;
    forall x | x in Unnamed(front, removed) ensures EventApplied(after, owner, x) {
    }
  }

  lemma {:induction false} IngestAllGrows(db: Db, removed: set<string>, owner: string, events: seq<Event>, at: int)
    requires IngestAll(db, removed, owner, events, at).Some?
    ensures TakesIn(db, removed, owner, events, IngestAll(db, removed, owner, events, at).value)
    decreases |events|
  {
    if events == [] {
    } else {
      var front, e := events[..|events| - 1], events[|events| - 1];
      assert events == front + [e];
      LastEvent(db, removed, owner, events, at);
      IngestAllGrows(db, removed, owner, front, at);
      TakesLast(db, removed, owner, front, e, IngestAll(db, removed, owner, front, at).value, at);
    }
  }

  lemma LastEvent(db: Db, removed: set<string>, owner: string, events: seq<Event>, at: int)
    requires events != []
    ensures var before := IngestAll(db, removed, owner, events[..|events| - 1], at);
            IngestAll(db, removed, owner, events, at)
            == if before.None? then None else IngestLast(before.value, removed, owner, events[|events| - 1], at)
  {}

  lemma TakesLast(db: Db, removed: set<string>, owner: string, front: seq<Event>, e: Event, mid: Db, at: int)
    requires TakesIn(db, removed, owner, front, mid) && IngestLast(mid, removed, owner, e, at).Some?
    ensures TakesIn(db, removed, owner, front + [e], IngestLast(mid, removed, owner, e, at).value)
  {
    if Names(e, removed) {
    } else {
      TakesOneMore(db, removed, owner, front, mid, e, at);
    }
  }

  lemma {:induction false} EventsOfIs(items: seq<Item>, e: Event)
    ensures e in EventsOf(items) <==> Observe(e) in items
  {
    if items != [] {
      EventsOfIs(items[..|items| - 1], e);
      assert items == items[..|items| - 1] + [items[|items| - 1]];
    }
  }

  /** A request that is accepted applies each of its items, loses nothing, and leaves no removed person named. */
  lemma HandleApplies(agent: Agent, owner: string, items: seq<Item>, at: int)
    requires NoNames(agent, owner) && Handle(agent, owner, items, at).Some?
    ensures var after := Handle(agent, owner, items, at).value;
            && (forall i :: i in items ==> Applied(after, owner, i))
            && Grows(agent.db, after.db) && agent.removed <= after.removed
            && NoNames(after, owner)
  {
    var removed, db := agent.removed + Forgotten(items), Cleared(agent, owner, items);
    IngestAllGrows(db, removed, owner, EventsOf(items), at);
    var after := Handle(agent, owner, items, at).value;
    forall i | i in items ensures Applied(after, owner, i) {
      if i.Observe? {
        EventsOfIs(items, i.event);
        assert !Names(i.event, removed) ==> i.event in Unnamed(EventsOf(items), removed);
      }
      if i.Invalidate? { assert Key(owner, i.id) in Invalidated(items, owner); }
    }
  }

  // ---- Applying a request again ----

  /** No undeleted evidence is derived directly from what the request invalidates. */
  ghost predicate NothingDerived(db: Db, keys: set<Key>) {
    forall k, x :: k in keys ==> !Edge(db, k, x)
  }

  ghost predicate SameLive(db: Db, after: Db) {
    forall k :: Latest(after.evidence, k) == Latest(db.evidence, k)
  }

  lemma DeletedLatest(db: Db, keys: set<Key>, k: Key)
    ensures Latest(DeletedAll(db, keys).evidence, k) == if k in Dead(db, keys) then None else Latest(db.evidence, k)
  {
    LatestErase(db.evidence, Dead(db, keys), k);
  }

  /** Deleting tombstoned events again changes live evidence exactly when something live derives from them. */
  lemma DeleteAgain(db: Db, keys: set<Key>)
    requires forall k :: k in keys ==> Latest(db.evidence, k).None?
    ensures SameLive(db, DeletedAll(db, keys)) <==> NothingDerived(db, keys)
  {
    if NothingDerived(db, keys) {
      forall k { DeletedLatest(db, keys, k); }
    } else {
      var k, x :| k in keys && Edge(db, k, x);
      ReachStep(db, k, x, x);
      InDead(db, keys, x);
      DeletedLatest(db, keys, x);
    }
  }

  /** Events of the request that were deleted after it was applied. */
  ghost predicate Stale(db: Db, removed: set<string>, owner: string, events: seq<Event>) {
    exists e :: e in events && !Names(e, removed) && Key(owner, e.id) in db.tombs
  }

  lemma {:induction false} IngestAllAgain(db: Db, removed: set<string>, owner: string, events: seq<Event>, at: int)
    requires RowsOk(db)
    requires forall e :: e in events && !Names(e, removed) ==> EventApplied(db, owner, e)
    ensures IngestAll(db, removed, owner, events, at) == if Stale(db, removed, owner, events) then None else Some(db)
    decreases |events|
  {
    if events != [] {
      var front, e := events[..|events| - 1], events[|events| - 1];
      assert events == front + [e];
      IngestAllAgain(db, removed, owner, front, at);
      assert Stale(db, removed, owner, events) <==>
        Stale(db, removed, owner, front) || (!Names(e, removed) && Key(owner, e.id) in db.tombs);
    }
  }

  lemma NobodyAffected(agent: Agent, owner: string, items: seq<Item>)
    requires NoNames(agent, owner) && Forgotten(items) <= agent.removed
    ensures Affected(DeletedAll(agent.db, Invalidated(items, owner)), owner, Forgotten(items)) == {}
  {
    var first := DeletedAll(agent.db, Invalidated(items, owner));
    forall r | r in first.evidence && r.key.owner == owner && r.payload.Some?
      ensures !Names(r.payload.value, Forgotten(items))
    {
      var i :| 0 <= i < |first.evidence| && first.evidence[i] == r;
      assert agent.db.evidence[i] in agent.db.evidence;
    }
  }

  /** A request applied before and delivered again.  It is refused exactly when a deletion it repeats meets a
      derivation cycle, or one of its events was deleted in between;
        otherwise live evidence stays as it is exactly when none of it derives
      from what the request invalidates. */
  lemma HandleAgain(agent: Agent, owner: string, items: seq<Item>, at: int)
    requires NoNames(agent, owner) && RowsOk(agent.db)
    requires forall i :: i in items ==> Applied(agent, owner, i)
    ensures Handle(agent, owner, items, at).None? <==>
              !AllAcyclic(agent.db, Invalidated(items, owner))
              || Stale(Cleared(agent, owner, items), agent.removed, owner, EventsOf(items))
    ensures Handle(agent, owner, items, at).Some? ==>
              (SameLive(agent.db, Handle(agent, owner, items, at).value.db) <==>
               NothingDerived(agent.db, Invalidated(items, owner)))
  {
    var keys, people, events := Invalidated(items, owner), Forgotten(items), EventsOf(items);
    forall p | p in people ensures p in agent.removed { assert Forget(p) in items; }
    NobodyAffected(agent, owner, items);
    assert keys + {} == keys && agent.removed + people == agent.removed;
    var db := DeletedAll(agent.db, keys);
    ApplyGrows(agent.db, TargetsOf(agent.db.deps, Dead(agent.db, keys)), TargetsOf(agent.db.deps, Dead(agent.db, keys)),
               Dead(agent.db, keys));
    forall e | e in events && !Names(e, agent.removed) ensures EventApplied(db, owner, e) {
      EventsOfIs(items, e);
    }
    LedgerSafety.EraseRows(agent.db, Dead(agent.db, keys), TargetsOf(agent.db.deps, Dead(agent.db, keys)),
                           TargetsOf(agent.db.deps, Dead(agent.db, keys)));
    IngestAllAgain(db, agent.removed, owner, events, at);
    forall k | k in keys ensures Latest(agent.db.evidence, k).None? {
      assert Invalidate(k.id) in items;
    }
    DeleteAgain(agent.db, keys);
  }

  // ---- The handler as the loops it is ----

  /** What invalidation and the people forgotten so far name is deleted. */
  ghost predicate Forgetting(start: Db, notes: set<Key>, owner: string, done: set<string>, db: Db) {
    var keys := notes + Affected(DeletedAll(start, notes), owner, done);
    db == DeletedAll(start, keys) && AllAcyclic(start, keys)
  }

  /** People already dealt with, and those still to do. */
  ghost predicate Parted(people: set<string>, done: set<string>, todo: set<string>) {
    done + todo == people && (todo == {} ==> done == people)
  }

  lemma PartOne(people: set<string>, done: set<string>, todo: set<string>, p: string, before: set<string>)
    requires Parted(people, done, todo) && p in todo
    ensures Parted(people, done + {p}, todo - {p}) && |todo - {p}| < |todo|
    ensures before + done + {p} == before + (done + {p})
  {}

  lemma ForgetNobody(start: Db, notes: set<Key>, owner: string, db: Db)
    requires db == DeletedAll(start, notes) && AllAcyclic(start, notes)
    ensures Forgetting(start, notes, owner, {}, db)
  {
    assert notes + Affected(DeletedAll(start, notes), owner, {}) == notes;
  }

  /** Forgetting people one by one deletes what forgetting them together does. */
  lemma ForgetOneMore(start: Db, notes: set<Key>, owner: string, done: set<string>, person: string)
    ensures var first := DeletedAll(start, notes);
            var before := notes + Affected(first, owner, done);
            var now := DeletedAll(start, before);
            var keys, all_ := before + Affected(now, owner, {person}), notes + Affected(first, owner, done + {person});
            DeletedAll(start, keys) == DeletedAll(start, all_) && (AllAcyclic(start, keys) <==> AllAcyclic(start, all_))
  {
    var first := DeletedAll(start, notes);
    var before := notes + Affected(first, owner, done);
    var now := DeletedAll(start, before);
    var keys, all_ := before + Affected(now, owner, {person}), notes + Affected(first, owner, done + {person});
    forall k | k in keys ensures k in Dead(start, all_) {
      if k !in before {
        var r :| r in now.evidence && r.key.owner == owner && r.payload.Some? && Names(r.payload.value, {person})
          && r.key == k;
      }
    }
    forall k | k in all_ ensures k in Dead(start, keys) {
      if k !in before {
        var r :| r in first.evidence && r.key.owner == owner && r.payload.Some?
          && Names(r.payload.value, done + {person}) && r.key == k;
        InDead(start, keys, k);
        InDead(start, before, k);
      }
    }
    SameDead(start, keys, all_);
  }

  /** From one of the events starts a walk longer than the stack. */
  ghost predicate SomeDeep(db: Db, keys: set<Key>, stack: nat) {
    exists key :: key in keys && Walk(db, key, stack + 1)
  }

  lemma DeepAtStart(start: Db, done: set<Key>, keys: set<Key>, key: Key, stack: nat)
    requires key in keys && Walk(DeletedAll(start, done), key, stack + 1)
    ensures SomeDeep(start, keys, stack)
  {
    var dead := Dead(start, done);
    ApplyWithout(start, TargetsOf(start.deps, dead), TargetsOf(start.deps, dead), dead);
    WalkMonotone(DeletedAll(start, done), start, key, stack + 1);
  }

  /** A deletion of the request starts a walk longer than the stack. */
  ghost predicate DeepDeletion(agent: Agent, owner: string, items: seq<Item>, stack: nat) {
    SomeDeep(agent.db, Invalidated(items, owner), stack)
    || SomeDeep(agent.db, Affected(DeletedAll(agent.db, Invalidated(items, owner)), owner, Forgotten(items)), stack)
  }

  /** So does the event of the request that is ingested at turn i. */
  ghost predicate DeepAt(db: Db, removed: set<string>, owner: string, events: seq<Event>, at: int, stack: nat, i: nat) {
    i < |events| && !Names(events[i], removed)
    && var before := IngestAll(db, removed, owner, events[..i], at);
       before.Some? && Walk(Stored(before.value, owner, events[i], at), Key(owner, events[i].id), stack + 1)
  }

  ghost predicate SomeDeepEvent(db: Db, removed: set<string>, owner: string, events: seq<Event>, at: int, stack: nat) {
    exists i: nat :: DeepAt(db, removed, owner, events, at, stack, i)
  }

  lemma FailsAt(db: Db, removed: set<string>, owner: string, events: seq<Event>, at: int, stack: nat, i: nat, mid: Db)
    requires i < |events| && !Names(events[i], removed) && IngestAll(db, removed, owner, events[..i], at) == Some(mid)
    requires IngestSpec(mid, owner, events[i], at).None?
        || Walk(Stored(mid, owner, events[i], at), Key(owner, events[i].id), stack + 1)
    ensures SomeRefused(db, removed, owner, events, at) || SomeDeepEvent(db, removed, owner, events, at, stack)
  {
    if IngestSpec(mid, owner, events[i], at).None? {
      assert RefusedAt(db, removed, owner, events, at, i);
    } else {
      assert DeepAt(db, removed, owner, events, at, stack, i);
    }
  }

  lemma AffectedOne(start: Db, notes: set<Key>, owner: string, done: set<string>, person: string, key: Key)
    requires key in Affected(DeletedAll(start, notes + Affected(DeletedAll(start, notes), owner, done)), owner,
                             {person})
    ensures key in Affected(DeletedAll(start, notes), owner, done + {person})
  {
    var first := DeletedAll(start, notes);
    var now := DeletedAll(start, notes + Affected(first, owner, done));
    var r :| r in now.evidence && r.key.owner == owner && r.payload.Some? && Names(r.payload.value, {person})
      && r.key == key;
    var i :| 0 <= i < |now.evidence| && now.evidence[i] == r;
    InDead(start, notes + Affected(first, owner, done), key);
    InDead(start, notes, key);
    DeadWithin(start, notes, notes + Affected(first, owner, done));
    assert first.evidence[i] == r;
  }

  lemma AffectedMore(start: Db, db: Db, owner: string, few: set<string>, many: set<string>, stack: nat)
    requires few <= many && SomeDeep(start, Affected(db, owner, few), stack)
    ensures SomeDeep(start, Affected(db, owner, many), stack)
  {
    forall k | k in Affected(db, owner, few) ensures k in Affected(db, owner, many) {
      var r :| r in db.evidence && r.key.owner == owner && r.payload.Some? && Names(r.payload.value, few) && r.key == k;
    }
  }

  class Receiver {
    const ledger: Ledger
    var removed: set<string>

    constructor (ledger: Ledger)
      ensures this.ledger == ledger && removed == {}
    {
      this.ledger := ledger;
      removed := {};
    }

    /** Delete the given events one by one, in any order. */
    method DeleteEach(ghost start: Db, ghost already: set<Key>, keys: set<Key>, stack: nat) returns (ok: bool)
      requires ledger.db == DeletedAll(start, already) && AllAcyclic(start, already)
      modifies ledger
      ensures ok ==> ledger.db == DeletedAll(start, already + keys) && AllAcyclic(start, already + keys)
      ensures !ok ==> SomeDeep(start, keys, stack)
    {
      var todo := keys;
      ghost var done := already;
      while todo != {}
        invariant done + todo == already + keys && todo <= keys
        invariant ledger.db == DeletedAll(start, done) && AllAcyclic(start, done)
        decreases |todo|
      {
        var key :| key in todo;
        AcyclicOneMore(start, done, key);
        DeleteOneMore(start, done, key);
        ok := ledger.DeleteEvidence(key, stack);
        if !ok {
          DeepAtStart(start, done, keys, key, stack);
          return;
        }
        todo, done := todo - {key}, done + {key};
      }
      assert done == already + keys;
      ok := true;
    }

    method IngestEach(owner: string, events: seq<Event>, at: int, stack: nat) returns (ok: bool)
      modifies ledger
      ensures ok ==> IngestAll(old(ledger.db), removed, owner, events, at) == Some(ledger.db)
      ensures !ok ==> SomeRefused(old(ledger.db), removed, owner, events, at)
                      || SomeDeepEvent(old(ledger.db), removed, owner, events, at, stack)
    {
      ghost var start := ledger.db;
      for i := 0 to |events|
        invariant IngestAll(start, removed, owner, events[..i], at) == Some(ledger.db)
      {
        assert events[..i + 1][..i] == events[..i];
        if !Names(events[i], removed) {
          ghost var mid := ledger.db;
          ok := ledger.Ingest(owner, events[i], at, stack);
          if !ok {
            FailsAt(start, removed, owner, events, at, stack, i, mid);
            return;
          }
        }
      }
      assert events[..|events|] == events;
      ok := true;
    }

    /** Mark people as removed one after the other, and delete what still names each of them. */
    method ForgetEach(ghost start: Db, ghost notes: set<Key>, owner: string, people: set<string>, stack: nat)
      returns (ok: bool)
      requires ledger.db == DeletedAll(start, notes) && AllAcyclic(start, notes)
      modifies this, ledger
      ensures ok ==> removed == old(removed) + people && Forgetting(start, notes, owner, people, ledger.db)
      ensures !ok ==> SomeDeep(start, Affected(DeletedAll(start, notes), owner, people), stack)
    {
      var todo := people;
      ghost var done := {};
      ForgetNobody(start, notes, owner, ledger.db);
      while todo != {}
        invariant Parted(people, done, todo) && removed == old(removed) + done
        invariant Forgetting(start, notes, owner, done, ledger.db)
        decreases |todo|
      {
        var person :| person in todo;
        PartOne(people, done, todo, person, old(removed));
        removed := removed + {person};
        ok := ForgetOne(start, notes, owner, done, person, stack);
        if !ok {
          AffectedMore(start, DeletedAll(start, notes), owner, done + {person}, people, stack);
          return;
        }
        todo, done := todo - {person}, done + {person};
      }
      ok := true;
    }

    /** Delete every event that still names a person. */
    method ForgetOne(ghost start: Db, ghost notes: set<Key>, owner: string, ghost done: set<string>, person: string,
                     stack: nat)
      returns (ok: bool)
      requires Forgetting(start, notes, owner, done, ledger.db)
      modifies ledger
      ensures ok ==> Forgetting(start, notes, owner, done + {person}, ledger.db)
      ensures !ok ==> SomeDeep(start, Affected(DeletedAll(start, notes), owner, done + {person}), stack)
    {
      var affected := Affected(ledger.db, owner, {person});
      ForgetOneMore(start, notes, owner, done, person);
      ok := DeleteEach(start, notes + Affected(DeletedAll(start, notes), owner, done), affected, stack);
      if !ok {
        ghost var key :| key in affected && Walk(start, key, stack + 1);
        AffectedOne(start, notes, owner, done, person, key);
      }
    }

    /** The transaction of one request; a failure anywhere leaves everything as it was. */
    method Accept(owner: string, items: seq<Item>, at: int, stack: nat) returns (ok: bool)
      modifies this, ledger
      ensures ok ==> Handle(Agent(old(ledger.db), old(removed)), owner, items, at) == Some(Agent(ledger.db, removed))
      ensures !ok ==> ledger.db == old(ledger.db) && removed == old(removed)
      ensures !ok ==>
        var agent := Agent(ledger.db, removed);
        || Handle(agent, owner, items, at).None?
        || DeepDeletion(agent, owner, items, stack)
        || SomeDeepEvent(Cleared(agent, owner, items), removed + Forgotten(items), owner, EventsOf(items), at, stack)
    {
      ghost var agent := Agent(ledger.db, removed);
      var saved, savedPeople := ledger.db, removed;
      DeleteNone(saved);
      var notes := Invalidated(items, owner);
      ok := DeleteEach(saved, {}, notes, stack);
      assert {} + notes == notes;
      if ok {
        ok := ForgetEach(saved, notes, owner, Forgotten(items), stack);
      }
      if ok {
        ok := IngestEach(owner, EventsOf(items), at, stack);
        if !ok { RefusedExactly(agent, owner, items, at); }
      }
      if !ok {
        ledger.db := saved;
        removed := savedPeople;
      }
    }
  }
}
