/** The evidence table of the agent's store: revisioned rows, one per (owner, id, revision),
    kept in insertion order.  A deleted row has lost its payload. */
module Evidence {

  datatype Option<+T> = None | Some(value: T)

  datatype Key = Key(owner: string, id: string)

  datatype Ref = Ref(eventId: string, revision: nat)

  datatype EventKind = Transcript | Observation | Context

  datatype Event = Event(
    id: string, revision: nat, deviceId: string, streamId: string, kind: EventKind, final: bool,
    sourceStart: int, sourceEnd: int, text: string, personIds: seq<string>, provenance: string)
  {
    function AsRef(): Ref { Ref(id, revision) }

    predicate SameIdentity(other: Event) {
      streamId == other.streamId && deviceId == other.deviceId && kind == other.kind
    }
  }

  datatype Row = Row(key: Key, revision: nat, payload: Option<Event>, receivedAt: int)

  /** The primary key: no revision of an event is stored twice. */
  ghost predicate Unique(rows: seq<Row>) {
    forall i, j :: 0 <= i < j < |rows| && rows[i].key == rows[j].key ==> rows[i].revision != rows[j].revision
  }

  function Find(rows: seq<Row>, key: Key, revision: nat): (r: Option<Row>)
    ensures r.Some? ==> r.value in rows && r.value.key == key && r.value.revision == revision
    ensures r.None? ==> forall row :: row in rows && row.key == key ==> row.revision != revision
  {
    if rows == [] then None
    else if rows[|rows| - 1].key == key && rows[|rows| - 1].revision == revision then Some(rows[|rows| - 1])
    else Find(rows[..|rows| - 1], key, revision)
  }

  /** The row with the highest revision of an event, deleted or not. */
  function Top(rows: seq<Row>, key: Key): (r: Option<Row>)
    ensures r.Some? ==> r.value in rows && r.value.key == key
    ensures r.None? ==> forall row :: row in rows ==> row.key != key
    ensures r.Some? ==> forall row :: row in rows && row.key == key ==> row.revision <= r.value.revision
  {
    if rows == [] then None
    else
      var row := rows[|rows| - 1];
      var before := Top(rows[..|rows| - 1], key);
      if row.key == key && (before.None? || before.value.revision < row.revision) then Some(row) else before
  }

  function Latest(rows: seq<Row>, key: Key): Option<Event> {
    var top := Top(rows, key);
    if top.Some? then top.value.payload else None
  }

  predicate Live(rows: seq<Row>, key: Key) {
    Latest(rows, key).Some?
  }

  /** The reference names the newest revision of its event, which is final and not deleted. */
  predicate Current(rows: seq<Row>, owner: string, ref: Ref) {
    var e := Latest(rows, Key(owner, ref.eventId));
    e.Some? && e.value.revision == ref.revision && e.value.final
  }

  predicate Valid(rows: seq<Row>, owner: string, refs: seq<Ref>) {
    |refs| > 0 && forall r :: r in refs ==> Current(rows, owner, r)
  }

  function Erase(rows: seq<Row>, keys: set<Key>): (r: seq<Row>)
    ensures |r| == |rows|
    ensures forall i :: 0 <= i < |rows| ==>
      r[i] == if rows[i].key in keys then rows[i].(payload := None) else rows[i]
  {
    seq(|rows|, i requires 0 <= i < |rows| => if rows[i].key in keys then rows[i].(payload := None) else rows[i])
  }

  /** Deleting events leaves the newest revision of every event where it was, and blanks exactly theirs. */
  lemma {:induction false} TopErase(rows: seq<Row>, keys: set<Key>, key: Key)
    ensures var t := Top(rows, key); var u := Top(Erase(rows, keys), key);
            u == if t.Some? && key in keys then Some(t.value.(payload := None)) else t
  {
    if rows != [] {
      var n := |rows| - 1;
      TopErase(rows[..n], keys, key);
      assert Erase(rows, keys)[..n] == Erase(rows[..n], keys);
    }
  }

  lemma LatestErase(rows: seq<Row>, keys: set<Key>, key: Key)
    ensures Latest(Erase(rows, keys), key) == if key in keys then None else Latest(rows, key)
  {
    TopErase(rows, keys, key);
  }

  lemma TopAppend(rows: seq<Row>, row: Row, key: Key)
    ensures Top(rows + [row], key) ==
            var t := Top(rows, key);
            if row.key == key && (t.None? || t.value.revision < row.revision) then Some(row) else t
  {
    assert (rows + [row])[..|rows|] == rows;
  }

  lemma {:induction false} EraseTwice(rows: seq<Row>, a: set<Key>, b: set<Key>)
    ensures Erase(Erase(rows, a), b) == Erase(rows, a + b)
  {
    assert forall i :: 0 <= i < |rows| ==> Erase(Erase(rows, a), b)[i] == Erase(rows, a + b)[i];
  }
}
