/** The table of long-term memories, the two backends that commit to it, and retirement. */
module MemoryStore {
  import opened Orders
  import opened Sorting
  import opened Wrappers
  import opened Events
  import opened Memory

  datatype MemoryRow = MemoryRow(id: string, span: string, topic: string, payload: Candidate, createdAt: string)

  /** Rows for payloads in order; the row that becomes row n takes what draw n gives. */
  function StoreAll(rows: seq<MemoryRow>, span: string, payloads: seq<Candidate>, draws: nat -> Draw): seq<MemoryRow>
    decreases |payloads|
  {
    if payloads == [] then rows
    else
      var row := MemoryRow(draws(|rows|).id, span, Topic(payloads[0]), payloads[0], draws(|rows|).time);
      StoreAll(rows + [row], span, payloads[1..], draws)
  }

  // ---------- Retirement ----------

  predicate Active(r: MemoryRow) {
    G(r.payload).state != "retired"
  }

  /** Active, with an expiry that is not after the given time. */
  predicate Expired(r: MemoryRow, time: string) {
    Active(r) && G(r.payload).expiresAt != "" && !TextLess(time, G(r.payload).expiresAt)
  }

  function Retired(r: MemoryRow, reason: string): MemoryRow {
    var g := G(r.payload);
    r.(payload := r.payload.(governance := Some(g.(state := "retired", history := AddState(g.history, "retired"),
                                                   reason := reason))))
  }

  const WINDOW_SIZE: nat := 1000

  /** Later rows first, and of rows at one time the greater id. */
  predicate Later(a: MemoryRow, b: MemoryRow) {
    PairLess((b.createdAt, b.id), (a.createdAt, a.id))
  }

  /** The rows a retirement pass reads. */
  function Window(rows: seq<MemoryRow>): seq<MemoryRow> {
    Take(Sort(rows, Later), WINDOW_SIZE)
  }

  predicate InWindow(rows: seq<MemoryRow>, id: string) {
    exists r :: r in Window(rows) && r.id == id
  }

  /** The table after a retirement pass: the expired rows of the window are retired. */
  function RetireExpired(rows: seq<MemoryRow>, time: string): (r: seq<MemoryRow>)
    ensures |r| == |rows|
    ensures forall i :: 0 <= i < |rows| ==>
              r[i] == if InWindow(rows, rows[i].id) && Expired(rows[i], time)
                      then Retired(rows[i], "retention_expired") else rows[i]
  {
    seq(|rows|, i requires 0 <= i < |rows| =>
      if InWindow(rows, rows[i].id) && Expired(rows[i], time) then Retired(rows[i], "retention_expired") else rows[i])
  }

  /** The ids of the expired rows, in order. */
  function ExpiredIds(memories: seq<MemoryRow>, time: string): seq<string> {
    if memories == [] then []
    else (if Expired(memories[0], time) then [memories[0].id] else []) + ExpiredIds(memories[1..], time)
  }

  predicate DistinctRows(rows: seq<MemoryRow>) {
    forall i, j :: 0 <= i < j < |rows| ==> rows[i].id != rows[j].id
  }

  class MemoryTable {
    var rows: seq<MemoryRow>

    constructor ()
      ensures rows == []
    {
      rows := [];
    }

    method Persist(span: string, topic: string, payload: Candidate, draw: Draw) returns (id: string)
      modifies this
      ensures rows == old(rows) + [MemoryRow(draw.id, span, topic, payload, draw.time)]
      ensures id == draw.id
    {
      id := draw.id;
      rows := rows + [MemoryRow(draw.id, span, topic, payload, draw.time)];
    }

    /** Rewrites the payload of the row with the given id. */
    method Update(id: string, payload: Candidate)
      modifies this
      ensures rows == Updated(old(rows), id, payload)
    {
      rows := Updated(rows, id, payload);
    }

    /** Walks the newest rows and retires the expired ones, naming each once in that order. */
    method RetireExpiredMemories(time: string) returns (ids: seq<string>)
      requires DistinctRows(rows)
      modifies this
      ensures rows == RetireExpired(old(rows), time)
      ensures ids == ExpiredIds(Window(old(rows)), time)
      ensures forall id :: id in ids <==> exists r :: r in Window(old(rows)) && r.id == id && Expired(r, time)
    {
      hide Expired, Retired, Sort, Window, Walked, Updated, Reached, ExpiredIds, RetireExpired;
      var memories := Window(rows);
      WindowRows(rows);
      WalkStart(rows, memories, time);
      ids := [];
      assert memories[0..] == memories;
      for k := 0 to |memories|
        invariant Walked(old(rows), rows, memories, k, time)
        invariant ids + ExpiredIds(memories[k..], time) == ExpiredIds(memories, time)
      {
        var memory := memories[k];
        ExpiredIdsStep(memories, k, time);
        WalkNext(old(rows), rows, memories, k, time);
        if Expired(memory, time) {
          Update(memory.id, Retired(memory, "retention_expired").payload);
          ids := ids + [memory.id];
        }
      }
      WalkEnd(old(rows), rows, memories, time);
      assert memories[|memories|..] == [];
      ExpiredIdsAre([], time);
      ExpiredIdsAre(memories, time);
    }
  }

  function Updated(rows: seq<MemoryRow>, id: string, payload: Candidate): (r: seq<MemoryRow>)
    ensures |r| == |rows|
    ensures forall i :: 0 <= i < |rows| ==> r[i] == if rows[i].id == id then rows[i].(payload := payload) else rows[i]
  {
    seq(|rows|, i requires 0 <= i < |rows| => if rows[i].id == id then rows[i].(payload := payload) else rows[i])
  }

  /** How far a retirement pass has come after k rows of its window. */
  predicate Walked(was: seq<MemoryRow>, now: seq<MemoryRow>, memories: seq<MemoryRow>, k: nat, time: string)
    requires k <= |memories|
  {
    |now| == |was|
    && forall i :: 0 <= i < |was| ==>
         now[i] == if Reached(memories, k, was[i].id) && Expired(was[i], time)
                   then Retired(was[i], "retention_expired") else was[i]
  }

  lemma WalkStart(was: seq<MemoryRow>, memories: seq<MemoryRow>, time: string)
    ensures Walked(was, was, memories, 0, time)
  {
    hide Expired, Retired;
  }

  lemma WalkNext(was: seq<MemoryRow>, now: seq<MemoryRow>, memories: seq<MemoryRow>, k: nat, time: string)
    requires k < |memories| && Walked(was, now, memories, k, time)
    requires DistinctRows(was) && memories[k] in was
    ensures Expired(memories[k], time) ==>
              Walked(was, Updated(now, memories[k].id, Retired(memories[k], "retention_expired").payload),
                     memories, k + 1, time)
    ensures !Expired(memories[k], time) ==> Walked(was, now, memories, k + 1, time)
  {
    hide Expired, Retired, Reached;
    ReachedNext(memories, k);
    var at :| 0 <= at < |was| && was[at] == memories[k];
    RetiredPayload(was[at]);
    forall i | 0 <= i < |was| && was[i].id == memories[k].id
      ensures i == at
    {
    }
    forall i | 0 <= i < |was|
      ensures now[i].id == was[i].id
    {
      RetiredPayload(was[i]);
    }
  }

  lemma WalkEnd(was: seq<MemoryRow>, now: seq<MemoryRow>, memories: seq<MemoryRow>, time: string)
    requires memories == Window(was) && Walked(was, now, memories, |memories|, time)
    ensures now == RetireExpired(was, time)
  {
    hide Expired, Retired, Window;
    assert memories[..|memories|] == memories;
    forall i | 0 <= i < |was|
      ensures now[i] == RetireExpired(was, time)[i]
    {
      assert Reached(memories, |memories|, was[i].id) == InWindow(was, was[i].id);
    }
  }

  predicate Reached(memories: seq<MemoryRow>, k: nat, id: string)
    requires k <= |memories|
  {
    exists r :: r in memories[..k] && r.id == id
  }

  lemma ExpiredIdsStep(memories: seq<MemoryRow>, k: nat, time: string)
    requires k < |memories|
    ensures ExpiredIds(memories[k..], time)
         == (if Expired(memories[k], time) then [memories[k].id] else []) + ExpiredIds(memories[k + 1..], time)
  {
    hide Expired;
    assert memories[k..][1..] == memories[k + 1..];
  }

  lemma {:induction false} ExpiredIdsAre(memories: seq<MemoryRow>, time: string)
    ensures memories == [] ==> ExpiredIds(memories, time) == []
    ensures forall id :: id in ExpiredIds(memories, time)
               <==> exists r :: r in memories && r.id == id && Expired(r, time)
  {
    hide Expired;
    if memories != [] {
      ExpiredIdsAre(memories[1..], time);
      assert memories == [memories[0]] + memories[1..];
      assert memories[0] in memories;
    }
  }

  lemma ReachedNext(memories: seq<MemoryRow>, k: nat)
    requires k < |memories|
    ensures forall id :: Reached(memories, k + 1, id) <==> Reached(memories, k, id) || memories[k].id == id
  {
    assert memories[..k + 1] == memories[..k] + [memories[k]];
    assert memories[k] in memories[..k + 1];
    forall id | Reached(memories, k, id)
      ensures Reached(memories, k + 1, id)
    {
      var r :| r in memories[..k] && r.id == id;
      assert r in memories[..k + 1];
    }
  }

  lemma RetiredPayload(r: MemoryRow)
    ensures Retired(r, "retention_expired") == r.(payload := Retired(r, "retention_expired").payload)
    ensures Retired(r, "retention_expired").id == r.id
  {
  }

  /** The window holds rows of the table, and all of them while the table fits. */
  lemma WindowRows(rows: seq<MemoryRow>)
    ensures forall x :: x in Window(rows) ==> x in rows
    ensures |rows| <= WINDOW_SIZE ==> forall x :: x in rows ==> x in Window(rows)
    ensures |Window(rows)| <= |rows|
  {
    hide Sort;
    SortKeeps(rows, Later);
    forall x | x in Window(rows)
      ensures x in rows
    {
      assert x in Sort(rows, Later);
    }
  }
}
