/** The event table: one row per event id, and the keys a restarted router is seeded with. */
module EventStore {
  import opened Orders
  import opened Sorting
  import opened Basics
  import opened Events

  const SEED_LIMIT: nat := 1000

  datatype Row = Row(event: Event, createdAt: string)

  predicate HasId(rows: seq<Row>, id: string) {
    exists i :: 0 <= i < |rows| && rows[i].event.eventId == id
  }

  /** Insert or ignore: a row with the same id wins. */
  function Insert(rows: seq<Row>, e: Event, now: string): seq<Row> {
    if HasId(rows, e.eventId) then rows else rows + [Row(e, now)]
  }

  /** Insert in order; the row that becomes row n is stamped clock(n). */
  function InsertAll(rows: seq<Row>, es: seq<Event>, clock: nat -> string): seq<Row>
    decreases |es|
  {
    if es == [] then rows else InsertAll(Insert(rows, es[0], clock(|rows|)), es[1..], clock)
  }

  predicate HasKey(r: Row) {
    r.event.key.Some? && r.event.key.value != ""
  }

  function Keyed(rows: seq<Row>): seq<Row> {
    Filter(rows, HasKey)
  }

  function KeyedKeys(rows: seq<Row>): set<string> {
    set i | 0 <= i < |rows| && HasKey(rows[i]) :: rows[i].event.key.value
  }

  function Stamps(r: Row): (string, string) {
    (r.event.timestamp, r.createdAt)
  }

  /** Later events first, and among those at one time the later row. */
  predicate Newer(a: Row, b: Row) {
    PairLess(Stamps(b), Stamps(a))
  }

  function RowKeys(rows: seq<Row>): seq<string>
    requires forall i :: 0 <= i < |rows| ==> HasKey(rows[i])
  {
    seq(|rows|, i requires 0 <= i < |rows| && HasKey(rows[i]) => rows[i].event.key.value)
  }

  /** The rows a seeding query returns. */
  function RecentRows(rows: seq<Row>, limit: nat): (r: seq<Row>)
    ensures |r| <= limit && forall i :: 0 <= i < |r| ==> HasKey(r[i])
  {
    FilterMembers(rows, HasKey);
    SortKeeps(Keyed(rows), Newer);
    assert forall i :: 0 <= i < |Sort(Keyed(rows), Newer)| ==> Sort(Keyed(rows), Newer)[i] in Keyed(rows);
    Take(Sort(Keyed(rows), Newer), limit)
  }

  function RecentKeys(rows: seq<Row>, limit: nat): seq<string> {
    RowKeys(RecentRows(rows, limit))
  }

  /** The keys a router started on the table has seen. */
  function Seeds(rows: seq<Row>): set<string> {
    set k | k in RecentKeys(rows, SEED_LIMIT) && k != ""
  }

  class Table {
    var rows: seq<Row>

    constructor ()
      ensures rows == []
    {
      rows := [];
    }

    method PersistEvent(e: Event, now: string)
      modifies this
      ensures rows == Insert(old(rows), e, now)
    {
      if !HasId(rows, e.eventId) {
        rows := rows + [Row(e, now)];
      }
    }

    method PersistAll(es: seq<Event>, clock: nat -> string)
      modifies this
      ensures rows == InsertAll(old(rows), es, clock)
    {
      hide Insert;
      for i := 0 to |es|
        invariant InsertAll(rows, es[i..], clock) == InsertAll(old(rows), es, clock)
      {
        assert es[i..][0] == es[i] && es[i..][1..] == es[i + 1..];
        PersistEvent(es[i], clock(|rows|));
      }
      assert es[|es|..] == [];
    }
  }
}
