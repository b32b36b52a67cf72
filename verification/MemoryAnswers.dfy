/** What screening, committing and expiry make of a memory, in terms of its fields. */
module MemoryAnswers {
  import opened Orders
  import opened Wrappers
  import opened Events
  import opened Memory
  import opened MemoryStore

  // ---------- Screening ----------

  /** The class in which a topic is kept, and for how many days. */
  predicate KeptAs(topic: string, class_: string, days: nat) {
    if "user.input" <= topic then class_ == "user_context" && days == 30
    else if "unit.callback" <= topic then class_ == "operational_lesson" && days == 14
    else if "time." <= topic then class_ == "ephemeral_telemetry" && days == 1
    else class_ == "operational_context" && days == 7
  }

  function Named(text: string): string {
    if text != "" then text else "unknown"
  }

  /** The key of a candidate: the governed one, else its own, else the digest of where it comes from. */
  predicate KeyIs(c: Candidate, w: World, key: string) {
    if c.governance.Some? && c.governance.value.dedupeKey != "" then key == c.governance.value.dedupeKey
    else if c.key != "" then key == c.key
    else key == "memcand:" + w.digest(Named(c.topic), Named(c.source), multiset(c.eventIds))
  }

  /** The history with a state noted, once. */
  predicate Noted(history: seq<string>, state: string, after: seq<string>) {
    if state in history then after == history else after == history + [state]
  }

  /** What a candidate is after screening: rejected if its topic is not kept or its priority is below
      10, else accepted; kept in the class of its topic until so many days from now. */
  ghost predicate ScreenedAs(c: Candidate, w: World, s: Candidate) {
    && s.governance.Some? && KeyIs(c, w, s.key) && s.governance.value.dedupeKey == s.key
    && s == c.(key := s.key, governance := s.governance)
    && var g := s.governance.value;
       && (exists days :: KeptAs(Named(c.topic), g.retention, days) && g.expiresAt == w.afterDays(days))
       && (if g.retention == "ephemeral_telemetry" then
             g.state == "rejected" && g.reason == "ephemeral_telemetry_not_retained"
           else if c.priority < 10 then g.state == "rejected" && g.reason == "candidate_confidence_below_threshold"
           else g.state == "accepted" && g.reason == "deterministic_candidate_accepted")
       && g.eligible == (g.state == "accepted")
       && (exists h, k :: Noted(StartOf(c), "screened", h) && Noted(h, g.state, k) && g.history == k)
       && g.backend == G(c).backend && g.mirrorStatus == G(c).mirrorStatus
  }

  /** The history a candidate comes with. */
  function StartOf(c: Candidate): seq<string> {
    if c.governance.Some? && c.governance.value.history != [] then c.governance.value.history else ["proposed"]
  }

  lemma KeyMeans(c: Candidate, w: World)
    ensures KeyIs(c, w, KeyOf(c, w))
    ensures forall key :: KeyIs(c, w, key) <==> key == KeyOf(c, w)
  {
  }

  lemma ScreenAnswers(c: Candidate, w: World)
    ensures ScreenedAs(c, w, Screen(c, w))
  {
    KeyMeans(c, w);
    hide KeyIs, KeyOf;
    var kept := RetentionFor(Topic(c));
    assert KeptAs(Named(c.topic), kept.name, kept.days);
    var h := AddState(StartOf(c), "screened");
    assert Noted(StartOf(c), "screened", h) && Noted(h, Judge(c).state, AddState(h, Judge(c).state));
  }

  // ---------- Committing ----------

  /** What a candidate is when the commit loop judges it: screened if it comes without a state or as
      proposed. */
  ghost predicate EntersAs(c: Candidate, w: World, x: Candidate) {
    if c.governance.None? || c.governance.value.state == "" || c.governance.value.state == "proposed"
    then ScreenedAs(c, w, x) else x == c
  }

  /** Flagged as eligible, or accepted. */
  predicate MayCommit(x: Candidate) {
    x.governance.Some? && (x.governance.value.eligible || x.governance.value.state == "accepted")
  }

  /** The i-th candidate is committed under the key, as x: it may be, and no earlier one of its key may. */
  ghost predicate Taken(cs: seq<Candidate>, w: World, i: nat, x: Candidate, key: string)
    requires i < |cs|
  {
    && EntersAs(cs[i], w, x) && MayCommit(x) && KeyIs(x, w, key)
    && forall j :: 0 <= j < i ==> !Competes(cs[j], w, key)
  }

  ghost predicate Competes(c: Candidate, w: World, key: string) {
    exists y :: EntersAs(c, w, y) && MayCommit(y) && KeyIs(y, w, key)
  }

  /** What is stored of a candidate that was taken. */
  predicate CommittedAs(x: Candidate, backend: string, reason: string, p: Candidate) {
    && p.governance.Some? && x.governance.Some?
    && p == x.(governance := p.governance)
    && var g := p.governance.value;
       && g == x.governance.value.(state := "committed", history := g.history, reason := reason, backend := backend)
       && Noted(x.governance.value.history, "committed", g.history)
  }

  lemma ScreenedOnly(c: Candidate, w: World, x: Candidate)
    requires ScreenedAs(c, w, x)
    ensures x == Screen(c, w)
  {
    KeyMeans(c, w);
    hide KeyIs, KeyOf;
    var g := x.governance.value;
    var h, k :| Noted(StartOf(c), "screened", h) && Noted(h, g.state, k) && g.history == k;
    var days :| KeptAs(Named(c.topic), g.retention, days) && g.expiresAt == w.afterDays(days);
    var kept := RetentionFor(Topic(c));
    assert g.retention == kept.name && days == kept.days;
    assert g == Screen(c, w).governance.value;
  }

  lemma ReadyMeans(c: Candidate, w: World, x: Candidate)
    ensures EntersAs(c, w, x) <==> x == Ready(c, w)
    ensures Eligible(x) <==> MayCommit(x)
  {
    ScreenAnswers(c, w);
    if ScreenedAs(c, w, x) {
      ScreenedOnly(c, w, x);
    }
    hide Screen, ScreenedAs;
  }

  /** Taken, and its key was not taken before the list either. */
  predicate TakenFrom(cs: seq<Candidate>, done: set<string>, w: World, i: nat)
    requires i < |cs|
  {
    && Eligible(Ready(cs[i], w)) && KeyOf(Ready(cs[i], w), w) !in done
    && forall j :: 0 <= j < i ==> !(Eligible(Ready(cs[j], w)) && KeyOf(Ready(cs[j], w), w) == KeyOf(Ready(cs[i], w), w))
  }

  lemma {:induction false} SelectedAre(cs: seq<Candidate>, done: set<string>, w: World)
    ensures forall x :: x in Selected(cs, done, w) <==>
      exists i :: 0 <= i < |cs| && TakenFrom(cs, done, w, i) && Ready(cs[i], w) == x
    decreases |cs|
  {
    hide Ready, Eligible, KeyOf;
    if cs != [] {
      var c, rest := Ready(cs[0], w), cs[1..];
      assert forall i :: 0 < i < |cs| ==> cs[i] == rest[i - 1];
      var taken := Eligible(c) && KeyOf(c, w) !in done;
      var more := if taken then done + {KeyOf(c, w)} else done;
      SelectedAre(rest, more, w);
      forall i | 0 < i < |cs|
        ensures TakenFrom(cs, done, w, i) <==> TakenFrom(rest, more, w, i - 1)
      {
        TakenTail(cs, done, more, w, i);
      }
      forall x
        ensures x in Selected(cs, done, w) <==>
          exists i :: 0 <= i < |cs| && TakenFrom(cs, done, w, i) && Ready(cs[i], w) == x
      {
        if x in Selected(rest, more, w) {
          var i :| 0 <= i < |rest| && TakenFrom(rest, more, w, i) && Ready(rest[i], w) == x;
          assert TakenFrom(cs, done, w, i + 1);
        }
        assert taken <==> TakenFrom(cs, done, w, 0);
      }
    }
  }

  lemma TakenTail(cs: seq<Candidate>, done: set<string>, more: set<string>, w: World, i: nat)
    requires 0 < i < |cs|
    requires more == if Eligible(Ready(cs[0], w)) && KeyOf(Ready(cs[0], w), w) !in done
                     then done + {KeyOf(Ready(cs[0], w), w)} else done
    ensures TakenFrom(cs, done, w, i) <==> TakenFrom(cs[1..], more, w, i - 1)
  {
    hide Ready, Eligible, KeyOf;
    var rest := cs[1..];
    assert forall j :: 0 < j < |cs| ==> cs[j] == rest[j - 1];
    if TakenFrom(rest, more, w, i - 1) {
      forall j | 0 <= j < i
        ensures !(Eligible(Ready(cs[j], w)) && KeyOf(Ready(cs[j], w), w) == KeyOf(Ready(cs[i], w), w))
      {
        if j > 0 {
          assert cs[j] == rest[j - 1];
        }
      }
    }
    if TakenFrom(cs, done, w, i) {
      forall j | 0 <= j < i - 1
        ensures !(Eligible(Ready(rest[j], w)) && KeyOf(Ready(rest[j], w), w) == KeyOf(Ready(rest[i - 1], w), w))
      {
        assert rest[j] == cs[j + 1];
      }
    }
  }

  lemma TakenMeans(cs: seq<Candidate>, w: World, i: nat, x: Candidate)
    requires i < |cs|
    ensures Taken(cs, w, i, x, KeyOf(x, w)) <==> TakenFrom(cs, {}, w, i) && x == Ready(cs[i], w)
  {
    ReadyMeans(cs[i], w, x);
    KeyMeans(x, w);
    hide EntersAs, Ready, MayCommit, Eligible, KeyIs, KeyOf;
    forall j | 0 <= j < i
      ensures Competes(cs[j], w, KeyOf(x, w)) <==> Eligible(Ready(cs[j], w)) && KeyOf(Ready(cs[j], w), w) == KeyOf(x, w)
    {
      forall y
        ensures EntersAs(cs[j], w, y) <==> y == Ready(cs[j], w)
        ensures Eligible(y) <==> MayCommit(y)
      {
        ReadyMeans(cs[j], w, y);
      }
      KeyMeans(Ready(cs[j], w), w);
    }
  }

  lemma CommitMeans(x: Candidate)
    requires x.governance.Some?
    ensures CommittedAs(x, "local_sqlite", "auto_commit_local_sqlite", Committed(x, LOCAL_STAMP))
  {
  }

  /** The payload is a candidate that was taken, committed locally. */
  ghost predicate StoredFrom(cs: seq<Candidate>, w: World, p: Candidate) {
    exists i, x, key ::
      0 <= i < |cs| && Taken(cs, w, i, x, key) && CommittedAs(x, "local_sqlite", "auto_commit_local_sqlite", p)
  }

  /** What the local backend stores, in terms of the candidates it is given: every stored payload is a
      taken candidate, committed; and every taken candidate is stored. */
  lemma LocalAnswers(cs: seq<Candidate>, w: World)
    ensures forall p :: p in LocalCommit(cs, w) ==> StoredFrom(cs, w, p)
    ensures forall i, x, key :: 0 <= i < |cs| && Taken(cs, w, i, x, key) ==>
              exists p :: p in LocalCommit(cs, w) && CommittedAs(x, "local_sqlite", "auto_commit_local_sqlite", p)
  {
    var selected := Selected(cs, {}, w);
    SelectedAre(cs, {}, w);
    hide Taken, TakenFrom, Ready, KeyOf, CommittedAs, Committed, Selected;
    forall p | p in LocalCommit(cs, w)
      ensures StoredFrom(cs, w, p)
    {
      var n :| 0 <= n < |selected| && LocalCommit(cs, w)[n] == p;
      assert selected[n] in selected;
      var i :| 0 <= i < |cs| && TakenFrom(cs, {}, w, i) && Ready(cs[i], w) == selected[n];
      TakenMeans(cs, w, i, selected[n]);
      TakenGoverned(cs, w, i, selected[n], KeyOf(selected[n], w));
      CommitMeans(selected[n]);
    }
    forall i, x, key | 0 <= i < |cs| && Taken(cs, w, i, x, key)
      ensures exists p :: p in LocalCommit(cs, w) && CommittedAs(x, "local_sqlite", "auto_commit_local_sqlite", p)
    {
      TakenGoverned(cs, w, i, x, key);
      TakenMeans(cs, w, i, x);
      assert x in selected;
      var n :| 0 <= n < |selected| && selected[n] == x;
      assert LocalCommit(cs, w)[n] in LocalCommit(cs, w);
      CommitMeans(x);
    }
  }

  lemma TakenGoverned(cs: seq<Candidate>, w: World, i: nat, x: Candidate, key: string)
    requires i < |cs| && Taken(cs, w, i, x, key)
    ensures x.governance.Some? && key == KeyOf(x, w)
  {
    KeyMeans(x, w);
    hide KeyIs, KeyOf, EntersAs;
  }

  lemma {:induction false} SelectedSnoc(cs: seq<Candidate>, done: set<string>, c: Candidate, w: World)
    ensures Selected(cs + [c], done, w)
         == Selected(cs, done, w) + if TakenFrom(cs + [c], done, w, |cs|) then [Ready(c, w)] else []
    decreases |cs|
  {
    hide Ready, Eligible, KeyOf;
    var all := cs + [c];
    if cs == [] {
      assert all[1..] == [];
    } else {
      var x := Ready(cs[0], w);
      var more := if Eligible(x) && KeyOf(x, w) !in done then done + {KeyOf(x, w)} else done;
      assert all[1..] == cs[1..] + [c];
      SelectedSnoc(cs[1..], more, c, w);
      TakenTail(all, done, more, w, |cs|);
    }
  }

  /** One candidate more adds its payload at the end, if it is taken, and changes nothing else. */
  lemma LocalOrder(cs: seq<Candidate>, c: Candidate, w: World)
    ensures var before, after := LocalCommit(cs, w), LocalCommit(cs + [c], w);
      if exists x, key :: Taken(cs + [c], w, |cs|, x, key) then |after| == |before| + 1 && after[..|before|] == before
      else after == before
  {
    SelectedSnoc(cs, {}, c, w);
    TakenMeans(cs + [c], w, |cs|, Ready(c, w));
    forall x, key | Taken(cs + [c], w, |cs|, x, key)
      ensures TakenFrom(cs + [c], {}, w, |cs|)
    {
      TakenGoverned(cs + [c], w, |cs|, x, key);
      TakenMeans(cs + [c], w, |cs|, x);
    }
    hide Taken, TakenFrom, Ready, KeyOf, Selected, Committed;
  }

  /** The rows added for payloads, in order, with the ids and times drawn for their places. */
  lemma {:induction false} RowsAnswer(rows: seq<MemoryRow>, span: string, payloads: seq<Candidate>, draws: nat -> Draw)
    ensures var after := StoreAll(rows, span, payloads, draws);
      && |after| == |rows| + |payloads| && rows <= after
      && forall i :: |rows| <= i < |after| ==> RowIs(after[i], span, payloads[i - |rows|], draws(i))
    decreases |payloads|
  {
    hide RowIs;
    if payloads != [] {
      var row := MemoryRow(draws(|rows|).id, span, Topic(payloads[0]), payloads[0], draws(|rows|).time);
      RowMeans(span, payloads[0], draws(|rows|));
      RowsAnswer(rows + [row], span, payloads[1..], draws);
      var after := StoreAll(rows, span, payloads, draws);
      assert after[|rows|] == row;
      forall i | |rows| < i < |after|
        ensures RowIs(after[i], span, payloads[i - |rows|], draws(i))
      {
        assert payloads[i - |rows|] == payloads[1..][i - (|rows| + 1)];
      }
    }
  }

  predicate RowIs(row: MemoryRow, span: string, p: Candidate, draw: Draw) {
    && row.id == draw.id && row.span == span && row.topic == Named(p.topic)
    && row.payload == p && row.createdAt == draw.time
  }

  lemma RowMeans(span: string, p: Candidate, draw: Draw)
    ensures RowIs(MemoryRow(draw.id, span, Topic(p), p, draw.time), span, p, draw)
  {
  }

  // ---------- The sidecar ----------

  /** Marked with the status everywhere, and committed locally in the end. */
  predicate MarkedAs(status: string, p: Candidate) {
    && p.sidecarStatus == status && p.governance.Some? && p.governance.value.mirrorStatus == status
    && p.governance.value.state == "committed" && p.governance.value.backend == "local_sqlite"
    && p.governance.value.reason == "auto_commit_local_sqlite"
  }

  lemma MirroredMark(c: Candidate, status: string, w: World)
    requires G(c).state == "committed"
    ensures Ready(Mirrored(c, status), w) == Mirrored(c, status)
    ensures MarkedAs(status, Committed(Mirrored(c, status), LOCAL_STAMP))
  {
    assert "committed" != "" && "committed" != "proposed" by { assert |"committed"| == 9 && |"proposed"| == 8; }
  }

  lemma CommittedState(c: Candidate, stamp: Stamp)
    ensures G(Committed(c, stamp)).state == "committed"
  {
  }

  lemma RecommitMarks(committed: seq<Candidate>, status: string, w: World)
    requires forall i :: 0 <= i < |committed| ==> G(committed[i]).state == "committed"
    ensures forall p :: p in LocalCommit(MirroredAll(committed, status), w) ==> MarkedAs(status, p)
  {
    var mirrored := MirroredAll(committed, status);
    var selected := Selected(mirrored, {}, w);
    SelectedAre(mirrored, {}, w);
    hide Selected, TakenFrom, Ready, Committed, Mirrored, MarkedAs, G;
    forall p | p in LocalCommit(mirrored, w)
      ensures MarkedAs(status, p)
    {
      var n :| 0 <= n < |selected| && LocalCommit(mirrored, w)[n] == p;
      assert selected[n] in selected;
      var i :| 0 <= i < |mirrored| && TakenFrom(mirrored, {}, w, i) && Ready(mirrored[i], w) == selected[n];
      MirroredMark(committed[i], status, w);
    }
  }

  lemma {:induction false} IdsAre(client: Client, n: nat, id: string)
    ensures id in SidecarIds(client, n) <==> id != "" && exists i :: 0 <= i < n && client(i) == Added.Stored(id)
  {
    if n > 0 {
      IdsAre(client, n - 1, id);
      assert client(n - 1).Stored? ==> IdOf(client, n - 1) == client(n - 1).id;
    }
  }

  /** None of the first n additions raises. */
  predicate AllStored(f: Client, n: nat) {
    forall i :: 0 <= i < n ==> f(i).Stored?
  }

  /** The id is one that the client gave to the first n additions. */
  predicate GaveId(f: Client, n: nat, id: string) {
    id != "" && exists i :: 0 <= i < n && f(i) == Added.Stored(id)
  }

  /** The outcome of n additions to the client. */
  ghost predicate Ends(f: Client, n: nat, r: SidecarOutcome) {
    if AllStored(f, n) then
      && r.status == "sidecar_and_sqlite_mirror" && r.asked == n
      && forall id :: id in r.ids <==> GaveId(f, n, id)
    else
      exists i :: 0 <= i < n && f(i).Raised? && AllStored(f, i)
        && r.status == "sqlite_mirror_after_" + f(i).name && r.asked == i + 1 && r.ids == [] && r.stored == []
  }

  /** The status of a sidecar commit, the ids kept, how often the client was asked, and how what is
      stored is marked, by whether there is a client and whether it raises. */
  lemma SidecarAnswers(cs: seq<Candidate>, client: Option<Client>, w: World)
    ensures forall p :: p in SidecarCommit(cs, client, w).stored ==> MarkedAs(SidecarCommit(cs, client, w).status, p)
    ensures match client
      case None => SidecarCommit(cs, client, w).(stored := []) == SidecarOutcome([], "fallback_local_sqlite", [], 0)
      case Some(f) => Ends(f, |Selected(cs, {}, w)|, SidecarCommit(cs, client, w))
  {
    var selected := Selected(cs, {}, w);
    hide Selected, Committed, MarkedAs, G, LocalCommit, MirroredAll, RaiseAt;
    match client
    case None =>
      forall i | 0 <= i < |selected|
        ensures G(CommittedAll(selected, FALLBACK_STAMP)[i]).state == "committed"
      {
        CommittedState(selected[i], FALLBACK_STAMP);
      }
      RecommitMarks(CommittedAll(selected, FALLBACK_STAMP), FALLBACK_STATUS, w);
    case Some(f) =>
      forall id
        ensures id in SidecarIds(f, |selected|) <==> GaveId(f, |selected|, id)
      {
        IdsAre(f, |selected|, id);
      }
      forall i | 0 <= i < |selected|
        ensures G(CommittedWithIds(selected, f)[i]).state == "committed"
      {
        CommittedState(selected[i], SidecarStamp(IdOf(f, i)));
      }
      RecommitMarks(CommittedWithIds(selected, f), MIRROR_STATUS, w);
      hide SidecarIds;
  }

  // ---------- Expiry ----------

  /** Not retired, with an expiry that is the time or before it. */
  predicate Lapsed(r: MemoryRow, time: string) {
    r.payload.governance.Some? && r.payload.governance.value.state != "retired"
    && r.payload.governance.value.expiresAt != "" && !TextLess(time, r.payload.governance.value.expiresAt)
  }

  /** The row is retired, with the reason, and nothing else about it has changed. */
  predicate RetiredAs(was: MemoryRow, now: MemoryRow) {
    && was.payload.governance.Some? && now.payload.governance.Some?
    && now == was.(payload := was.payload.(governance := now.payload.governance))
    && var g := now.payload.governance.value;
       && g == was.payload.governance.value.(state := "retired", history := g.history, reason := "retention_expired")
       && Noted(was.payload.governance.value.history, "retired", g.history)
  }

  /** An expiry pass over a table of at most 1000 rows retires exactly the rows that have lapsed. */
  lemma ExpiryAnswers(rows: seq<MemoryRow>, time: string, i: nat)
    requires |rows| <= 1000 && i < |rows|
    ensures |RetireExpired(rows, time)| == |rows|
    ensures if Lapsed(rows[i], time) then RetiredAs(rows[i], RetireExpired(rows, time)[i])
            else RetireExpired(rows, time)[i] == rows[i]
  {
    WindowRows(rows);
    assert rows[i] in Window(rows) && InWindow(rows, rows[i].id);
    hide Window, TextLess;
  }
}
