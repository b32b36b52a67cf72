/** What governed memory keeps: lawful histories, one row per key, agreement of the two backends,
    and what expiry reaches. */
module MemorySafety {
  import opened Wrappers
  import opened Events
  import opened Memory
  import opened MemoryStore

  // ---------- The lifecycle ----------

  predicate Follows(a: string, b: string) {
    (a == "proposed" && b == "screened")
    || (a == "screened" && (b == "accepted" || b == "rejected"))
    || (a == "accepted" && b == "committed")
    || (a == "committed" && b == "retired")
  }

  /** A walk of the lifecycle from its start. */
  predicate Path(history: seq<string>) {
    history != [] && history[0] == "proposed"
    && forall i :: 0 < i < |history| ==> Follows(history[i - 1], history[i])
  }

  /** The history is a walk that ends in the current state, which settles eligibility. */
  predicate Lawful(c: Candidate) {
    Path(G(c).history) && G(c).history[|G(c).history| - 1] == G(c).state
    && (G(c).eligible <==> G(c).state == "accepted" || G(c).state == "committed" || G(c).state == "retired")
  }

  function Rank(state: string): nat {
    if state == "proposed" then 0
    else if state == "screened" then 1
    else if state == "accepted" || state == "rejected" then 2
    else if state == "committed" then 3
    else 4
  }

  lemma FollowsRank(a: string, b: string)
    requires Follows(a, b)
    ensures Rank(b) == Rank(a) + 1
  {
    assert |"proposed"| == 8 && |"screened"| == 8 && |"accepted"| == 8 && |"rejected"| == 8
           && |"committed"| == 9 && |"retired"| == 7;
    assert "proposed"[0] == 'p' && "screened"[0] == 's' && "accepted"[0] == 'a' && "rejected"[0] == 'r';
  }

  lemma RankOfStart()
    ensures Rank("proposed") == 0
  {
  }

  lemma {:induction false} PathRank(history: seq<string>, i: nat)
    requires Path(history) && i < |history|
    ensures Rank(history[i]) == i
  {
    hide Follows, Rank;
    if i == 0 {
      RankOfStart();
    } else {
      PathRank(history, i - 1);
      FollowsRank(history[i - 1], history[i]);
    }
  }

  /** No state comes twice in a walk. */
  lemma PathDistinct(history: seq<string>, i: nat, j: nat)
    requires Path(history) && i < j < |history|
    ensures history[i] != history[j]
  {
    PathRank(history, i);
    PathRank(history, j);
  }

  lemma PathExtend(history: seq<string>, state: string)
    requires Path(history) && Follows(history[|history| - 1], state)
    ensures Path(history + [state]) && state !in history
  {
    hide Follows, Rank;
    var all := history + [state];
    forall i | 0 < i < |all|
      ensures Follows(all[i - 1], all[i])
    {
      assert all[i - 1] == history[i - 1];
    }
    if state in history {
      var i :| 0 <= i < |history| && history[i] == state;
      PathRank(all, i);
      PathRank(all, |history|);
    }
  }

  /** A candidate that can come to a commit: as proposed, or screened. */
  predicate Candidacy(c: Candidate) {
    Lawful(c) && (G(c).state == "proposed" || G(c).state == "accepted" || G(c).state == "rejected")
  }

  lemma ProposedHistory(history: seq<string>)
    requires Path(history) && history[|history| - 1] == "proposed"
    ensures history == ["proposed"]
  {
    PathRank(history, |history| - 1);
    RankOfStart();
  }

  /** Screening takes a proposed candidate to accepted or rejected, by a lawful walk: accepted
      exactly when its topic is kept and its priority is at least 10. */
  lemma ScreenLawful(c: Candidate, w: World)
    requires Lawful(c) && G(c).state == "proposed"
    ensures Lawful(Screen(c, w))
    ensures G(Screen(c, w)).state == "accepted" || G(Screen(c, w)).state == "rejected"
    ensures G(Screen(c, w)).state == "accepted" <==> !StartsWith(Topic(c), "time.") && c.priority >= 10
  {
    var h := G(c).history;
    ProposedHistory(h);
    var s := h + ["screened"];
    PathExtend(h, "screened");
    PathExtend(s, "accepted");
    PathExtend(s, "rejected");
    Kept(Topic(c));
  }

  lemma Kept(topic: string)
    ensures RetentionFor(topic).name == "ephemeral_telemetry" <==> StartsWith(topic, "time.")
  {
    assert |"user.input"| == 10 && |"unit.callback"| == 13;
    if StartsWith(topic, "user.input") {
      assert topic[0] == "user.input"[0];
    }
    if StartsWith(topic, "unit.callback") {
      assert topic[0] == "unit.callback"[0];
    }
    if StartsWith(topic, "time.") {
      assert topic[0] == "time."[0];
    }
    assert "user_context"[0] == 'u' && "operational_lesson"[0] == 'o' && "operational_context"[0] == 'o'
           && "ephemeral_telemetry"[0] == 'e';
  }

  lemma StateNames()
    ensures "accepted" != "rejected" && "accepted" != "proposed" && "accepted" != "" && "rejected" != ""
    ensures "committed" != "" && "committed" != "proposed" && "committed" != "accepted" && "committed" != "rejected"
    ensures "retired" != "committed" && "rejected" != "proposed" && "retired" != "rejected"
  {
    assert |"committed"| == 9 && |"retired"| == 7 && |"accepted"| == |"rejected"| == |"proposed"| == 8;
    assert "accepted"[0] == 'a' && "rejected"[0] == 'r' && "proposed"[0] == 'p';
  }

  /** What a commit loop selects of candidates is accepted, by a lawful walk. */
  lemma ReadyLawful(c: Candidate, w: World)
    requires Candidacy(c)
    ensures Lawful(Ready(c, w))
    ensures Eligible(Ready(c, w)) <==> G(Ready(c, w)).state == "accepted"
    ensures G(Ready(c, w)).state == "accepted" || G(Ready(c, w)).state == "rejected"
  {
    hide Path, Screen;
    StateNames();
    if G(c).state == "proposed" {
      ScreenLawful(c, w);
    }
  }

  /** Committing an accepted candidate, or one committed before, ends in committed. */
  lemma CommittedLawful(c: Candidate, stamp: Stamp)
    requires Lawful(c) && (G(c).state == "accepted" || G(c).state == "committed")
    ensures Lawful(Committed(c, stamp)) && G(Committed(c, stamp)).state == "committed"
  {
    StateNames();
    var h := G(c).history;
    if G(c).state == "accepted" {
      PathExtend(h, "committed");
    } else {
      assert h[|h| - 1] in h;
    }
  }

  lemma RetiredLawful(r: MemoryRow, reason: string)
    requires Lawful(r.payload) && (G(r.payload).state == "committed" || G(r.payload).state == "retired")
    ensures Lawful(Retired(r, reason).payload) && G(Retired(r, reason).payload).state == "retired"
  {
    StateNames();
    var h := G(r.payload).history;
    if G(r.payload).state == "committed" {
      PathExtend(h, "retired");
    } else {
      assert h[|h| - 1] in h;
    }
  }

  lemma {:induction false} SelectedLawful(cs: seq<Candidate>, done: set<string>, w: World)
    requires forall c :: c in cs ==> Candidacy(c)
    ensures forall c :: c in Selected(cs, done, w) ==> Lawful(c) && G(c).state == "accepted"
    decreases |cs|
  {
    hide Lawful, Ready, Eligible, KeyOf, Candidacy;
    if cs == [] {
    } else {
      ReadyLawful(cs[0], w);
      var c := Ready(cs[0], w);
      SelectedLawful(cs[1..], done, w);
      SelectedLawful(cs[1..], done + {KeyOf(c, w)}, w);
    }
  }

  /** A stored memory is lawful, and committed or retired: rejected candidates are never stored. */
  predicate TableLawful(rows: seq<MemoryRow>) {
    forall r :: r in rows ==>
      Lawful(r.payload) && (G(r.payload).state == "committed" || G(r.payload).state == "retired")
  }

  predicate AllCommitted(cs: seq<Candidate>) {
    forall c :: c in cs ==> Lawful(c) && G(c).state == "committed"
  }

  lemma CommittedAllLawful(cs: seq<Candidate>, stamp: Stamp)
    requires forall c :: c in cs ==> Lawful(c) && (G(c).state == "accepted" || G(c).state == "committed")
    ensures AllCommitted(CommittedAll(cs, stamp))
  {
    hide Lawful, Committed;
    var r := CommittedAll(cs, stamp);
    forall c | c in r
      ensures Lawful(c) && G(c).state == "committed"
    {
      var i :| 0 <= i < |r| && r[i] == c;
      assert cs[i] in cs;
      CommittedLawful(cs[i], stamp);
    }
  }

  lemma LocalCommitLawful(cs: seq<Candidate>, w: World)
    requires forall c :: c in cs ==> Candidacy(c)
    ensures AllCommitted(LocalCommit(cs, w))
  {
    hide Lawful, Candidacy;
    SelectedLawful(cs, {}, w);
    CommittedAllLawful(Selected(cs, {}, w), LOCAL_STAMP);
  }

  lemma {:induction false} StoreAllLawful(rows: seq<MemoryRow>, span: string, payloads: seq<Candidate>,
                                          draws: nat -> Draw)
    requires TableLawful(rows) && AllCommitted(payloads)
    ensures TableLawful(StoreAll(rows, span, payloads, draws))
    decreases |payloads|
  {
    hide Lawful;
    if payloads == [] {
    } else {
      var row := MemoryRow(draws(|rows|).id, span, Topic(payloads[0]), payloads[0], draws(|rows|).time);
      assert payloads[0] in payloads;
      StoreAllLawful(rows + [row], span, payloads[1..], draws);
    }
  }

  lemma RetireLawful(rows: seq<MemoryRow>, time: string)
    requires TableLawful(rows)
    ensures TableLawful(RetireExpired(rows, time))
  {
    hide Lawful, Retired, Expired, InWindow;
    var r := RetireExpired(rows, time);
    forall x | x in r
      ensures Lawful(x.payload) && (G(x.payload).state == "committed" || G(x.payload).state == "retired")
    {
      var i :| 0 <= i < |r| && r[i] == x;
      assert rows[i] in rows;
      RetiredLawful(rows[i], "retention_expired");
    }
  }

  // ---------- One row per key ----------

  function SelectedKeys(cs: seq<Candidate>, w: World): set<string> {
    set c | c in cs :: KeyOf(c, w)
  }

  function EligibleKeys(cs: seq<Candidate>, w: World): set<string> {
    set c | c in cs && Eligible(Ready(c, w)) :: KeyOf(Ready(c, w), w)
  }

  predicate DistinctKeys(cs: seq<Candidate>, w: World) {
    forall i, j :: 0 <= i < j < |cs| ==> KeyOf(cs[i], w) != KeyOf(cs[j], w)
  }

  /** One payload for each distinct key of an eligible candidate that is not done yet. */
  lemma {:induction false} SelectedOnePerKey(cs: seq<Candidate>, done: set<string>, w: World)
    ensures DistinctKeys(Selected(cs, done, w), w)
    ensures SelectedKeys(Selected(cs, done, w), w) == EligibleKeys(cs, w) - done
    decreases |cs|
  {
    hide Ready, Eligible, KeyOf;
    if cs == [] {
    } else {
      var c := Ready(cs[0], w);
      assert cs == [cs[0]] + cs[1..];
      if !Eligible(c) || KeyOf(c, w) in done {
        SelectedOnePerKey(cs[1..], done, w);
      } else {
        var rest := Selected(cs[1..], done + {KeyOf(c, w)}, w);
        SelectedOnePerKey(cs[1..], done + {KeyOf(c, w)}, w);
        KeysWith(c, rest, w);
      }
      EligibleCons(cs, w);
    }
  }

  lemma KeysWith(c: Candidate, rest: seq<Candidate>, w: World)
    ensures SelectedKeys([c] + rest, w) == {KeyOf(c, w)} + SelectedKeys(rest, w)
    ensures DistinctKeys(rest, w) && KeyOf(c, w) !in SelectedKeys(rest, w) ==> DistinctKeys([c] + rest, w)
  {
    hide KeyOf;
    var all := [c] + rest;
    assert c in all;
    assert forall j :: 0 < j < |all| ==> all[j] == rest[j - 1] && rest[j - 1] in rest;
  }

  lemma EligibleCons(cs: seq<Candidate>, w: World)
    requires cs != []
    ensures EligibleKeys(cs, w)
         == EligibleKeys(cs[1..], w) + if Eligible(Ready(cs[0], w)) then {KeyOf(Ready(cs[0], w), w)} else {}
  {
    hide Ready, Eligible, KeyOf;
    assert cs == [cs[0]] + cs[1..];
  }

  // ---------- Agreement of the backends ----------

  /** What a stored payload is known by. */
  datatype Name = Name(topic: string, key: string)

  function NamesOf(cs: seq<Candidate>, w: World): (r: seq<Name>)
    ensures |r| == |cs| && forall i :: 0 <= i < |cs| ==> r[i] == Name(Topic(cs[i]), KeyOf(cs[i], w))
  {
    seq(|cs|, i requires 0 <= i < |cs| => Name(Topic(cs[i]), KeyOf(cs[i], w)))
  }

  function Flagged(cs: seq<Candidate>): seq<Candidate> {
    if cs == [] then [] else (if G(cs[0]).eligible then [cs[0]] else []) + Flagged(cs[1..])
  }

  /** b is a committed form of a: same topic, key and flag. */
  predicate FormOf(a: Candidate, b: Candidate, w: World) {
    Topic(b) == Topic(a) && KeyOf(b, w) == KeyOf(a, w) && G(b).eligible == G(a).eligible && G(b).state == "committed"
  }

  predicate FormsOf(a: seq<Candidate>, b: seq<Candidate>, w: World) {
    |a| == |b| && forall i :: 0 <= i < |a| ==> FormOf(a[i], b[i], w)
  }

  /** Committing a second time keeps exactly the flagged ones. */
  lemma {:induction false} SecondCommit(a: seq<Candidate>, b: seq<Candidate>, done: set<string>, w: World)
    requires FormsOf(a, b, w) && DistinctKeys(a, w)
    requires forall c :: c in a ==> KeyOf(c, w) !in done
    ensures NamesOf(Selected(b, done, w), w) == NamesOf(Flagged(a), w)
    decreases |a|
  {
    hide KeyOf, Topic, NamesOf;
    if a == [] {
      assert Selected(b, done, w) == [] && Flagged(a) == [];
    } else {
      StateNames();
      var c := b[0];
      assert FormOf(a[0], b[0], w);
      assert Ready(c, w) == c;
      assert a[0] in a && a == [a[0]] + a[1..];
      Tails(a, b, w);
      if G(c).eligible {
        assert Eligible(c);
        SecondCommit(a[1..], b[1..], done + {KeyOf(c, w)}, w);
        NamesCons(c, a[0], Selected(b[1..], done + {KeyOf(c, w)}, w), Flagged(a[1..]), w);
      } else {
        SecondCommit(a[1..], b[1..], done, w);
        assert [] + Flagged(a[1..]) == Flagged(a[1..]);
      }
    }
  }

  lemma Tails(a: seq<Candidate>, b: seq<Candidate>, w: World)
    requires FormsOf(a, b, w) && DistinctKeys(a, w) && a != []
    ensures FormsOf(a[1..], b[1..], w) && DistinctKeys(a[1..], w)
    ensures forall c :: c in a[1..] ==> KeyOf(c, w) != KeyOf(a[0], w)
  {
    hide KeyOf, FormOf;
    forall i, j | 0 <= i < j < |a[1..]|
      ensures KeyOf(a[1..][i], w) != KeyOf(a[1..][j], w)
    {
      assert a[1..][i] == a[i + 1] && a[1..][j] == a[j + 1];
    }
    forall c | c in a[1..]
      ensures KeyOf(c, w) != KeyOf(a[0], w)
    {
      var i :| 0 <= i < |a[1..]| && a[1..][i] == c;
      assert a[i + 1] == c;
    }
  }

  lemma NamesCons(x: Candidate, y: Candidate, xs: seq<Candidate>, ys: seq<Candidate>, w: World)
    requires Topic(x) == Topic(y) && KeyOf(x, w) == KeyOf(y, w) && NamesOf(xs, w) == NamesOf(ys, w)
    ensures NamesOf([x] + xs, w) == NamesOf([y] + ys, w)
  {
    hide KeyOf, Topic;
    assert NamesOf([x] + xs, w) == [Name(Topic(x), KeyOf(x, w))] + NamesOf(xs, w);
    assert NamesOf([y] + ys, w) == [Name(Topic(y), KeyOf(y, w))] + NamesOf(ys, w);
  }

  lemma CommittedForm(c: Candidate, stamp: Stamp, status: string, w: World)
    ensures FormOf(c, Committed(c, stamp), w) && FormOf(c, Mirrored(Committed(c, stamp), status), w)
  {
  }

  lemma CommittedNames(cs: seq<Candidate>, stamp: Stamp, w: World)
    ensures NamesOf(CommittedAll(cs, stamp), w) == NamesOf(cs, w)
  {
    hide KeyOf, Topic, Committed;
    forall i | 0 <= i < |cs|
      ensures NamesOf(CommittedAll(cs, stamp), w)[i] == NamesOf(cs, w)[i]
    {
      CommittedForm(cs[i], stamp, "", w);
    }
  }

  lemma MirroredForms(cs: seq<Candidate>, client: Client, w: World)
    ensures FormsOf(cs, MirroredAll(CommittedAll(cs, FALLBACK_STAMP), FALLBACK_STATUS), w)
    ensures FormsOf(cs, MirroredAll(CommittedWithIds(cs, client), MIRROR_STATUS), w)
  {
    hide KeyOf, Topic, Committed, Mirrored, FormOf;
    forall i | 0 <= i < |cs|
      ensures FormOf(cs[i], MirroredAll(CommittedAll(cs, FALLBACK_STAMP), FALLBACK_STATUS)[i], w)
      ensures FormOf(cs[i], MirroredAll(CommittedWithIds(cs, client), MIRROR_STATUS)[i], w)
    {
      CommittedForm(cs[i], FALLBACK_STAMP, FALLBACK_STATUS, w);
      CommittedForm(cs[i], SidecarStamp(IdOf(client, i)), MIRROR_STATUS, w);
    }
  }

  predicate Raises(client: Option<Client>, n: nat) {
    client.Some? && RaiseAt(client.value, n).Some?
  }

  /** Without a client, or with one that does not raise, the sidecar stores the selected candidates
      that carry the eligible flag; if the client raises on one of them it stores nothing. */
  lemma SidecarStores(cs: seq<Candidate>, client: Option<Client>, w: World)
    ensures NamesOf(SidecarCommit(cs, client, w).stored, w)
         == if Raises(client, |Selected(cs, {}, w)|) then [] else NamesOf(Flagged(Selected(cs, {}, w)), w)
  {
    assert NamesOf([], w) == [];
    hide KeyOf, Topic, Committed, Mirrored, Selected, NamesOf, Flagged, DistinctKeys, FormsOf, RaiseAt;
    var selected := Selected(cs, {}, w);
    SelectedOnePerKey(cs, {}, w);
    MirroredForms(selected, if client.Some? then client.value else n => Added.Stored(""), w);
    if Raises(client, |selected|) {
    } else {
      var mirrored := if client.Some? then MirroredAll(CommittedWithIds(selected, client.value), MIRROR_STATUS)
                      else MirroredAll(CommittedAll(selected, FALLBACK_STAMP), FALLBACK_STATUS);
      SecondCommit(selected, mirrored, {}, w);
      CommittedNames(Selected(mirrored, {}, w), LOCAL_STAMP, w);
    }
  }

  lemma {:induction false} FlaggedAll(cs: seq<Candidate>)
    ensures |Flagged(cs)| <= |cs|
    ensures |Flagged(cs)| == |cs| <==> forall c :: c in cs ==> G(c).eligible
    ensures |Flagged(cs)| == |cs| ==> Flagged(cs) == cs
    decreases |cs|
  {
    hide G;
    if cs == [] {
    } else {
      FlaggedAll(cs[1..]);
      assert cs == [cs[0]] + cs[1..];
    }
  }

  /** The backends store the same topics and keys exactly when the client does not raise on a
      selected candidate, or there is none, and every selected candidate carries the flag. */
  lemma BackendsAgreeIff(cs: seq<Candidate>, client: Option<Client>, w: World)
    ensures NamesOf(SidecarCommit(cs, client, w).stored, w) == NamesOf(LocalCommit(cs, w), w)
       <==> !Raises(client, |Selected(cs, {}, w)|) && forall c :: c in Selected(cs, {}, w) ==> G(c).eligible
  {
    assert !Raises(client, 0);
    CommittedNames(Selected(cs, {}, w), LOCAL_STAMP, w);
    hide KeyOf, Topic, Selected, Flagged, SidecarCommit;
    SidecarStores(cs, client, w);
    FlaggedAll(Selected(cs, {}, w));
  }

  /** On candidates as proposed or screened, the backends agree unless the client raises. */
  lemma BackendsAgree(cs: seq<Candidate>, client: Option<Client>, w: World)
    requires forall c :: c in cs ==> Candidacy(c)
    ensures NamesOf(SidecarCommit(cs, client, w).stored, w)
         == if Raises(client, |Selected(cs, {}, w)|) then [] else NamesOf(LocalCommit(cs, w), w)
  {
    hide Candidacy, SidecarCommit, LocalCommit, Raises;
    SelectedLawful(cs, {}, w);
    BackendsAgreeIff(cs, client, w);
    SidecarStores(cs, client, w);
  }

  /** Accepted, without the eligible flag. */
  const UNFLAGGED := Candidate("user.input", "cli", ["event-1"], 50, "",
    Some(Governance("accepted", ["proposed", "screened", "accepted"], "key", false, "", "", "", "", "")), "", "")

  /** The local backend stores such a candidate and the sidecar does not, with any client or none. */
  lemma UnflaggedIsDropped(client: Option<Client>, w: World)
    ensures |LocalCommit([UNFLAGGED], w)| == 1 && SidecarCommit([UNFLAGGED], client, w).stored == []
  {
    hide SidecarCommit;
    assert [UNFLAGGED][1..] == [];
    assert Selected([UNFLAGGED], {}, w) == [UNFLAGGED];
    assert Flagged([UNFLAGGED]) == [];
    SidecarStores([UNFLAGGED], client, w);
    assert |NamesOf(SidecarCommit([UNFLAGGED], client, w).stored, w)| == 0;
  }
}
