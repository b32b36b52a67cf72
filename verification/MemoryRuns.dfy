/** Governed memory over whole runs of commits and expiry passes, what expiry reaches, and what
    it leaves. */
module MemoryRuns {
  import opened Orders
  import opened Sorting
  import opened Wrappers
  import opened Events
  import opened Memory
  import opened MemoryStore
  import opened MemorySafety

  // ---------- Runs ----------

  datatype Operation =
    | CommitLocal(span: string, cs: seq<Candidate>, world: World)
    | CommitSidecar(span: string, cs: seq<Candidate>, client: Option<Client>, world: World)
    | Expire(time: string)

  function Apply(rows: seq<MemoryRow>, op: Operation, draws: nat -> Draw): seq<MemoryRow> {
    match op
    case CommitLocal(span, cs, w) => StoreAll(rows, span, LocalCommit(cs, w), draws)
    case CommitSidecar(span, cs, client, w) => StoreAll(rows, span, SidecarCommit(cs, client, w).stored, draws)
    case Expire(time) => RetireExpired(rows, time)
  }

  function Run(rows: seq<MemoryRow>, ops: seq<Operation>, draws: nat -> Draw): seq<MemoryRow>
    decreases |ops|
  {
    if ops == [] then rows else Run(Apply(rows, ops[0], draws), ops[1..], draws)
  }

  predicate Proper(op: Operation) {
    op.Expire? || forall c :: c in op.cs ==> Candidacy(c)
  }

  lemma MirroredLawful(c: Candidate, status: string)
    requires Lawful(c)
    ensures Lawful(Mirrored(c, status)) && G(Mirrored(c, status)).state == G(c).state
  {
  }

  lemma MirroredAllLawful(cs: seq<Candidate>, status: string)
    requires AllCommitted(cs)
    ensures AllCommitted(MirroredAll(cs, status))
  {
    hide Lawful, Mirrored;
    var r := MirroredAll(cs, status);
    forall c | c in r
      ensures Lawful(c) && G(c).state == "committed"
    {
      var i :| 0 <= i < |r| && r[i] == c;
      assert cs[i] in cs;
      MirroredLawful(cs[i], status);
    }
  }

  lemma WithIdsLawful(cs: seq<Candidate>, client: Client)
    requires forall c :: c in cs ==> Lawful(c) && G(c).state == "accepted"
    ensures AllCommitted(CommittedWithIds(cs, client))
  {
    hide Lawful, Committed;
    var r := CommittedWithIds(cs, client);
    forall c | c in r
      ensures Lawful(c) && G(c).state == "committed"
    {
      var i :| 0 <= i < |r| && r[i] == c;
      assert cs[i] in cs;
      CommittedLawful(cs[i], SidecarStamp(IdOf(client, i)));
    }
  }

  /** The second commit of the mirror selects committed candidates as they are. */
  lemma {:induction false} SelectedOfCommitted(cs: seq<Candidate>, done: set<string>, w: World)
    requires AllCommitted(cs)
    ensures AllCommitted(Selected(cs, done, w))
    decreases |cs|
  {
    hide Lawful, Eligible, KeyOf;
    if cs == [] {
    } else {
      StateNames();
      assert cs[0] in cs && Ready(cs[0], w) == cs[0];
      SelectedOfCommitted(cs[1..], done, w);
      SelectedOfCommitted(cs[1..], done + {KeyOf(cs[0], w)}, w);
    }
  }

  lemma RecommitLawful(cs: seq<Candidate>, w: World)
    requires AllCommitted(cs)
    ensures AllCommitted(LocalCommit(cs, w))
  {
    hide Lawful;
    SelectedOfCommitted(cs, {}, w);
    CommittedAllLawful(Selected(cs, {}, w), LOCAL_STAMP);
  }

  lemma SidecarCommitLawful(cs: seq<Candidate>, client: Option<Client>, w: World)
    requires forall c :: c in cs ==> Candidacy(c)
    ensures AllCommitted(SidecarCommit(cs, client, w).stored)
  {
    hide Lawful, Candidacy, Selected, LocalCommit, Mirrored;
    var selected := Selected(cs, {}, w);
    SelectedLawful(cs, {}, w);
    CommittedAllLawful(selected, FALLBACK_STAMP);
    MirroredAllLawful(CommittedAll(selected, FALLBACK_STAMP), FALLBACK_STATUS);
    RecommitLawful(MirroredAll(CommittedAll(selected, FALLBACK_STAMP), FALLBACK_STATUS), w);
    if client.Some? {
      WithIdsLawful(selected, client.value);
      MirroredAllLawful(CommittedWithIds(selected, client.value), MIRROR_STATUS);
      RecommitLawful(MirroredAll(CommittedWithIds(selected, client.value), MIRROR_STATUS), w);
    }
  }

  lemma ApplyLawful(rows: seq<MemoryRow>, op: Operation, draws: nat -> Draw)
    requires TableLawful(rows) && Proper(op)
    ensures TableLawful(Apply(rows, op, draws))
  {
    hide TableLawful, AllCommitted, Candidacy, LocalCommit, SidecarCommit, StoreAll, RetireExpired;
    match op {
      case CommitLocal(span, cs, w) =>
        LocalCommitLawful(cs, w);
        StoreAllLawful(rows, span, LocalCommit(cs, w), draws);
      case CommitSidecar(span, cs, client, w) =>
        SidecarCommitLawful(cs, client, w);
        StoreAllLawful(rows, span, SidecarCommit(cs, client, w).stored, draws);
      case Expire(time) =>
        RetireLawful(rows, time);
    }
  }

  /** In every run of commits and expiry passes, by either backend, every stored history is a walk
      of the lifecycle without repetition that ends in its current state, committed or retired. */
  lemma {:induction false} RunLawful(rows: seq<MemoryRow>, ops: seq<Operation>, draws: nat -> Draw)
    requires TableLawful(rows) && forall op :: op in ops ==> Proper(op)
    ensures TableLawful(Run(rows, ops, draws))
    decreases |ops|
  {
    hide TableLawful, Apply, Proper;
    if ops == [] {
    } else {
      ApplyLawful(rows, ops[0], draws);
      RunLawful(Apply(rows, ops[0], draws), ops[1..], draws);
    }
  }

  // ---------- Expiry ----------

  lemma RetiredInactive(r: MemoryRow, reason: string)
    ensures !Active(Retired(r, reason))
    ensures Retired(r, reason).id == r.id && Retired(r, reason).createdAt == r.createdAt
  {
  }

  /** Expiry retires exactly the expired rows within reach, and touches nothing else. */
  lemma ExpiryLeaves(rows: seq<MemoryRow>, time: string, i: nat)
    requires i < |rows|
    ensures Expired(RetireExpired(rows, time)[i], time) <==> Expired(rows[i], time) && !InWindow(rows, rows[i].id)
    ensures !Expired(rows[i], time) ==> RetireExpired(rows, time)[i] == rows[i]
  {
    hide InWindow, Retired;
    RetiredInactive(rows[i], "retention_expired");
  }

  /** Tables of at most the window's size: no active row is left that expires at or before the time. */
  lemma NoneExpiredLeft(rows: seq<MemoryRow>, time: string)
    requires |rows| <= WINDOW_SIZE
    ensures forall r :: r in RetireExpired(rows, time) ==> !Expired(r, time)
  {
    hide Expired, Window, RetireExpired;
    var after := RetireExpired(rows, time);
    forall r | r in after
      ensures !Expired(r, time)
    {
      var i :| 0 <= i < |after| && after[i] == r;
      ExpiryLeaves(rows, time, i);
      WindowRows(rows);
      assert rows[i] in Window(rows) && InWindow(rows, rows[i].id);
    }
  }

  lemma LaterIsOrder()
    ensures WeakOrder(Later)
  {
    hide PairLess;
    forall a, b | Later(a, b)
      ensures !Later(b, a)
    {
      PairOrder((b.createdAt, b.id), (a.createdAt, a.id), (a.createdAt, a.id));
    }
    forall a, b, c | !Later(b, a) && !Later(c, b)
      ensures !Later(c, a)
    {
      PairOrder((c.createdAt, c.id), (b.createdAt, b.id), (a.createdAt, a.id));
    }
  }

  /** The rows an expiry pass leaves out are not later than those it reads, of which there are as
      many as it may read. */
  lemma WindowIsLatest(rows: seq<MemoryRow>, left: MemoryRow, taken: MemoryRow)
    requires left in rows && left !in Window(rows) && taken in Window(rows)
    ensures |Window(rows)| == 1000 && !TextLess(taken.createdAt, left.createdAt)
    ensures taken.createdAt == left.createdAt ==> !TextLess(taken.id, left.id)
  {
    hide Sort, Take, TextLess;
    LaterIsOrder();
    TakenFirst(rows, Later, WINDOW_SIZE, left, taken);
  }

  /** Placing ignores payloads: retirement does not move a row. */
  lemma {:induction false} PlaceSame(a: MemoryRow, b: MemoryRow, x: seq<MemoryRow>, y: seq<MemoryRow>)
    requires SameRow(a, b) && SameRows(x, y)
    ensures SameRows(Place(a, x, Later), Place(b, y, Later))
    decreases |x|
  {
    if x == [] {
    } else {
      assert SameRow(x[0], y[0]);
      TailSame(x, y);
      PlaceSame(a, b, x[1..], y[1..]);
      ConsSame(x[0], y[0], Place(a, x[1..], Later), Place(b, y[1..], Later));
      ConsSame(a, b, x, y);
    }
  }

  predicate SameRow(a: MemoryRow, b: MemoryRow) {
    a.id == b.id && a.createdAt == b.createdAt
  }

  predicate SameRows(x: seq<MemoryRow>, y: seq<MemoryRow>) {
    |x| == |y| && forall i :: 0 <= i < |x| ==> SameRow(x[i], y[i])
  }

  lemma TailSame(x: seq<MemoryRow>, y: seq<MemoryRow>)
    requires SameRows(x, y) && x != []
    ensures SameRows(x[1..], y[1..])
  {
    hide SameRow;
    forall i | 0 <= i < |x[1..]|
      ensures SameRow(x[1..][i], y[1..][i])
    {
      assert SameRow(x[i + 1], y[i + 1]);
    }
  }

  lemma ConsSame(a: MemoryRow, b: MemoryRow, x: seq<MemoryRow>, y: seq<MemoryRow>)
    requires SameRow(a, b) && SameRows(x, y)
    ensures SameRows([a] + x, [b] + y)
  {
    hide SameRow;
    forall i | 0 <= i < |[a] + x|
      ensures SameRow(([a] + x)[i], ([b] + y)[i])
    {
      if i > 0 {
        assert SameRow(x[i - 1], y[i - 1]);
      }
    }
  }

  lemma {:induction false} CreationSame(x: seq<MemoryRow>, y: seq<MemoryRow>)
    requires SameRows(x, y)
    ensures SameRows(Sort(x, Later), Sort(y, Later))
    decreases |x|
  {
    hide Place, SameRow;
    if x == [] {
    } else {
      assert SameRow(x[0], y[0]);
      TailSame(x, y);
      CreationSame(x[1..], y[1..]);
      PlaceSame(x[0], y[0], Sort(x[1..], Later), Sort(y[1..], Later));
    }
  }

  /** The reach of an expiry pass is not changed by retirement. */
  lemma WindowSame(x: seq<MemoryRow>, y: seq<MemoryRow>, id: string)
    requires SameRows(x, y)
    ensures InWindow(x, id) <==> InWindow(y, id)
  {
    hide Sort;
    CreationSame(x, y);
    var a, b := Window(x), Window(y);
    assert forall i :: 0 <= i < |a| ==> a[i] == Sort(x, Later)[i] && b[i] == Sort(y, Later)[i];
    if InWindow(x, id) {
      var i :| 0 <= i < |a| && a[i].id == id;
      assert SameRow(Sort(x, Later)[i], Sort(y, Later)[i]);
      assert b[i] in b;
    }
    if InWindow(y, id) {
      var i :| 0 <= i < |b| && b[i].id == id;
      assert SameRow(Sort(x, Later)[i], Sort(y, Later)[i]);
      assert a[i] in a;
    }
  }

  lemma ExpirySameRows(rows: seq<MemoryRow>, time: string)
    ensures SameRows(rows, RetireExpired(rows, time))
  {
    hide Expired, InWindow, Retired;
    forall i | 0 <= i < |rows|
      ensures SameRow(rows[i], RetireExpired(rows, time)[i])
    {
      RetiredInactive(rows[i], "retention_expired");
    }
  }

  /** A second pass at the same time changes nothing, whatever the size: what lies beyond the
      newest rows is never reached. */
  lemma ExpiryIdempotent(rows: seq<MemoryRow>, time: string)
    ensures RetireExpired(RetireExpired(rows, time), time) == RetireExpired(rows, time)
  {
    hide Expired, InWindow, Retired;
    var once := RetireExpired(rows, time);
    ExpirySameRows(rows, time);
    forall i | 0 <= i < |rows|
      ensures RetireExpired(once, time)[i] == once[i]
    {
      WindowSame(rows, once, rows[i].id);
      ExpiryLeaves(rows, time, i);
      RetiredInactive(rows[i], "retention_expired");
    }
  }

  predicate AtMost(s: string, t: string) {
    !TextLess(t, s)
  }

  lemma ExpiredLater(r: MemoryRow, s: string, t: string)
    requires AtMost(s, t) && Expired(r, s)
    ensures Expired(r, t)
  {
    var e := G(r.payload).expiresAt;
    if TextLess(t, e) {
      TextTotal(s, t);
      if TextLess(s, t) {
        LexTransitive(Codes(s), Codes(t), Codes(e));
      }
    }
  }

  /** Expiring at one time and then at a later one retires the same rows as expiring at the later
      time alone. */
  lemma ExpiryInSteps(rows: seq<MemoryRow>, s: string, t: string, i: nat)
    requires AtMost(s, t) && i < |rows|
    ensures RetireExpired(RetireExpired(rows, s), t)[i] == RetireExpired(rows, t)[i]
  {
    var once := RetireExpired(rows, s);
    assert !Active(once[i]) ==> !Expired(once[i], t);
    hide Expired, InWindow, Retired, AtMost;
    ExpirySameRows(rows, s);
    WindowSame(rows, once, rows[i].id);
    RetiredInactive(rows[i], "retention_expired");
    if Expired(rows[i], s) {
      ExpiredLater(rows[i], s, t);
    }
  }
}
