/** What one request of the outbox deletes and stores, said on its items, and which rows one request carries. */
module RequestEffects {
  import opened Evidence
  import opened Cascade
  import opened LedgerOps
  import opened Intake
  import O = Outbox

  // ---- What a request deletes ----

  predicate AsksFor(owner: string, items: seq<Item>, key: Key) {
    key.owner == owner && Invalidate(key.id) in items
  }

  /** The event is to be invalidated, or is derived from one that is. */
  ghost predicate FallsWith(db: Db, owner: string, items: seq<Item>, key: Key) {
    exists j :: AsksFor(owner, items, j) && (key == j || Reaches(db, j, key))
  }

  /** An undeleted revision of the event, which does not fall already, names a person to be forgotten. */
  ghost predicate NamesForgotten(db: Db, owner: string, items: seq<Item>, key: Key) {
    && key.owner == owner && !FallsWith(db, owner, items, key)
    && exists r, p :: r in db.evidence && r.key == key && r.payload.Some? && p in r.payload.value.personIds
                      && Forget(p) in items
  }

  ghost predicate Gone(db: Db, owner: string, items: seq<Item>, key: Key) {
    || FallsWith(db, owner, items, key)
    || exists j :: NamesForgotten(db, owner, items, j) && (key == j || Reaches(db, j, key))
  }

  lemma InvalidatedMeans(db: Db, owner: string, items: seq<Item>, key: Key)
    ensures key in Invalidated(items, owner) <==> AsksFor(owner, items, key)
    ensures key in Dead(db, Invalidated(items, owner)) <==> FallsWith(db, owner, items, key)
  {
    forall j ensures j in Invalidated(items, owner) <==> AsksFor(owner, items, j) {
      if j in Invalidated(items, owner) {
        var i :| i in items && i.Invalidate? && Key(owner, i.id) == j;
        assert i == Invalidate(j.id);
      }
    }
    InDead(db, Invalidated(items, owner), key);
  }

  lemma AffectedMeans(db: Db, owner: string, items: seq<Item>, key: Key)
    ensures key in Affected(DeletedAll(db, Invalidated(items, owner)), owner, Forgotten(items)) <==>
              NamesForgotten(db, owner, items, key)
  {
    var keys := Invalidated(items, owner);
    var first := DeletedAll(db, keys);
    InvalidatedMeans(db, owner, items, key);
    if key in Affected(first, owner, Forgotten(items)) {
      var r :| r in first.evidence && r.key == key && r.payload.Some? && Names(r.payload.value, Forgotten(items));
      var i :| 0 <= i < |first.evidence| && first.evidence[i] == r;
      assert db.evidence[i] == r && r in db.evidence;
      var p :| p in r.payload.value.personIds && p in Forgotten(items);
      ForgottenMeans(items, p);
    }
    if NamesForgotten(db, owner, items, key) {
      var r, p :| r in db.evidence && r.key == key && r.payload.Some? && p in r.payload.value.personIds
                  && Forget(p) in items;
      var i :| 0 <= i < |db.evidence| && db.evidence[i] == r;
      assert first.evidence[i] == r && r in first.evidence;
      ForgottenMeans(items, p);
      assert Names(r.payload.value, Forgotten(items));
    }
  }

  lemma ForgottenMeans(items: seq<Item>, p: string)
    ensures p in Forgotten(items) <==> Forget(p) in items
  {
    if p in Forgotten(items) {
      var i :| i in items && i.Forget? && i.person == p;
      assert i == Forget(p);
    }
  }

  /** A request deletes the events it names and whatever derives from them, then whatever still names a person it
      forgets, with what derives from that; and no other event. */
  lemma ClearedIsExact(agent: Agent, owner: string, items: seq<Item>)
    ensures forall k :: Latest(Cleared(agent, owner, items).evidence, k)
                        == if Gone(agent.db, owner, items, k) then None else Latest(agent.db.evidence, k)
    ensures forall k :: k in Cleared(agent, owner, items).tombs <==>
              k in agent.db.tombs || Gone(agent.db, owner, items, k)
  {
    var db, keys := agent.db, Invalidated(items, owner);
    var affected := Affected(DeletedAll(db, keys), owner, Forgotten(items));
    forall k ensures k in Dead(db, keys + affected) <==> Gone(db, owner, items, k) {
      DeadOfBoth(db, keys, affected, k);
      InvalidatedMeans(db, owner, items, k);
      forall j ensures j in affected <==> NamesForgotten(db, owner, items, j) { AffectedMeans(db, owner, items, j); }
      InDead(db, affected, k);
    }
    forall k ensures Latest(DeletedAll(db, keys + affected).evidence, k)
                     == if Gone(db, owner, items, k) then None else Latest(db.evidence, k)
    {
      DeletedLatest(db, keys + affected, k);
    }
  }

  lemma DeadOfBoth(db: Db, a: set<Key>, b: set<Key>, k: Key)
    ensures k in Dead(db, a + b) <==> k in Dead(db, a) || k in Dead(db, b)
  {
    InDead(db, a + b, k);
    InDead(db, a, k);
    InDead(db, b, k);
  }

  // ---- In which order events are stored ----

  /** One event is skipped if it names a removed person, and else stored. */
  lemma OneEvent(db: Db, removed: set<string>, owner: string, e: Event, at: int)
    ensures (exists p :: p in e.personIds && p in removed) ==> IngestAll(db, removed, owner, [e], at) == Some(db)
    ensures (forall p :: p in e.personIds ==> p !in removed) ==>
              IngestAll(db, removed, owner, [e], at) == IngestSpec(db, owner, e, at)
  {
    assert [e][..0] == [];
  }

  /** Events are stored in the order of the request, each over what the ones before left, and the first refusal ends
      it. */
  lemma {:induction false} EventsInOrder(db: Db, removed: set<string>, owner: string, a: seq<Event>, b: seq<Event>,
                                         at: int)
    ensures var first := IngestAll(db, removed, owner, a, at);
            IngestAll(db, removed, owner, a + b, at)
            == if first.None? then None else IngestAll(first.value, removed, owner, b, at)
    decreases |b|
  {
    if b == [] {
      assert a + b == a;
    } else {
      var n := |b| - 1;
      assert (a + b)[..|a + b| - 1] == a + b[..n];
      EventsInOrder(db, removed, owner, a, b[..n], at);
    }
  }

  lemma {:induction false} ItemsInOrder(a: seq<Item>, b: seq<Item>)
    ensures EventsOf(a + b) == EventsOf(a) + EventsOf(b)
    decreases |b|
  {
    if b == [] {
      assert a + b == a;
    } else {
      var n := |b| - 1;
      assert (a + b)[..|a + b| - 1] == a + b[..n];
      ItemsInOrder(a, b[..n]);
    }
  }

  lemma OneItem(item: Item)
    ensures EventsOf([item]) == if item.Observe? then [item.event] else []
  {
    assert [item][..0] == [];
  }

  // ---- How much one request carries ----

  /** The size of `n` rows from row `d` on. */
  function Total(outbox: seq<Item>, d: nat, n: nat, size: Item -> nat): nat
    requires d + n <= |outbox|
    decreases n
  {
    if n == 0 then 0 else size(outbox[d]) + Total(outbox, d + 1, n - 1, size)
  }

  lemma {:induction false} TotalLast(outbox: seq<Item>, d: nat, n: nat, size: Item -> nat)
    requires 0 < n && d + n <= |outbox|
    ensures Total(outbox, d, n, size) == Total(outbox, d, n - 1, size) + size(outbox[d + n - 1])
    decreases n
  {
    if n > 1 { TotalLast(outbox, d + 1, n - 1, size); }
  }

  lemma {:induction false} FittingCount(outbox: seq<Item>, d: nat, n: nat, size: Item -> nat)
    requires d + n <= |outbox|
    ensures O.Within(outbox, O.Range(d, n)) && O.Bytes(outbox, O.Range(d, n), size) == Total(outbox, d, n, size)
    ensures forall m :: 0 < m <= n ==>
              (m <= |O.Fitting(outbox, O.Range(d, n), size)| <==> Total(outbox, d, m, size) < O.MAX_BYTES)
    ensures |O.Fitting(outbox, O.Range(d, n), size)| <= n
    decreases n
  {
    if n > 0 {
      var rows, front := O.Range(d, n), O.Range(d, n - 1);
      assert rows[..n - 1] == front && rows == front + [d + n - 1];
      FittingCount(outbox, d, n - 1, size);
      TotalLast(outbox, d, n, size);
      O.FittingIsPrefix(outbox, rows, size);
      forall m | 0 < m < n && Total(outbox, d, m, size) >= O.MAX_BYTES
        ensures Total(outbox, d, n, size) >= O.MAX_BYTES
      {
        TotalGrows(outbox, d, m, n, size);
      }
    }
  }

  lemma {:induction false} TotalGrows(outbox: seq<Item>, d: nat, m: nat, n: nat, size: Item -> nat)
    requires m <= n && d + n <= |outbox|
    ensures Total(outbox, d, m, size) <= Total(outbox, d, n, size)
    decreases n
  {
    if m < n {
      TotalLast(outbox, d, n, size);
      TotalGrows(outbox, d, m, n - 1, size);
    }
  }

  /** With the first `d` rows delivered, a request carries the next `m` exactly when there are so many, they are no more
      than it may carry, and together they stay below the limit. */
  lemma BatchIsLongest(outbox: seq<Item>, d: nat, m: nat, size: Item -> nat)
    requires d <= |outbox| && 0 < m
    ensures m <= |O.Batch(outbox, O.Upto(d), size)| <==>
              d + m <= |outbox| && m <= O.MAX_ROWS && Total(outbox, d, m, size) < O.MAX_BYTES
  {
    var all_ := |outbox| - d;
    var n := if all_ <= O.MAX_ROWS then all_ else O.MAX_ROWS;
    O.UndeliveredTail(|outbox|, d);
    O.UndeliveredIs(|outbox|, O.Upto(d));
    assert O.Limited(O.Range(d, all_)) == O.Range(d, n);
    FittingCount(outbox, d, n, size);
  }
}
