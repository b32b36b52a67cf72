/** The commit loops of the local backend and of the sidecar backend with its local mirror. */
module MemoryBackends {
  import opened Wrappers
  import opened Events
  import opened Memory
  import opened MemoryStore

  class LocalMemory {
    const table: MemoryTable

    constructor (table: MemoryTable)
      ensures this.table == table
    {
      this.table := table;
    }

    method CommitCandidates(span: string, cs: seq<Candidate>, w: World, draws: nat -> Draw) returns (ids: seq<string>)
      modifies table
      ensures table.rows == StoreAll(old(table.rows), span, LocalCommit(cs, w), draws)
      ensures ids == DrawnIds(|old(table.rows)|, |LocalCommit(cs, w)|, draws)
    {
      hide Ready, Eligible, KeyOf, Selected, Committed, Topic, StoreAll, CommittedAll, DrawnIds;
      ids := [];
      StoreNone(table.rows, span, draws);
      var done: set<string> := {};
      assert cs[0..] == cs;
      for i := 0 to |cs|
        invariant StoreAll(table.rows, span, CommittedAll(Selected(cs[i..], done, w), LOCAL_STAMP), draws)
               == StoreAll(old(table.rows), span, LocalCommit(cs, w), draws)
        invariant |table.rows| == |old(table.rows)| + |ids|
        invariant |ids| + |Selected(cs[i..], done, w)| == |Selected(cs, {}, w)|
        invariant ids == DrawnIds(|old(table.rows)|, |ids|, draws)
      {
        var c := Ready(cs[i], w);
        SelectedStep(cs, i, done, w);
        if !Eligible(c) || KeyOf(c, w) in done {
          continue;
        }
        StoreStep(table.rows, span, c, Selected(cs[i + 1..], done + {KeyOf(c, w)}, w), draws);
        done := done + {KeyOf(c, w)};
        var id := table.Persist(span, Topic(c), Committed(c, LOCAL_STAMP), draws(|table.rows|));
        DrawnNext(|old(table.rows)|, |ids|, draws);
        ids := ids + [id];
      }
      SelectedNone(done, w);
      assert cs[|cs|..] == [];
      StoreNone(table.rows, span, draws);
      LocalCommitLength(cs, w);
    }
  }

  /** The ids drawn for n rows from a row number on. */
  function DrawnIds(from: nat, n: nat, draws: nat -> Draw): seq<string> {
    if n == 0 then [] else DrawnIds(from, n - 1, draws) + [draws(from + n - 1).id]
  }

  lemma StoreNone(rows: seq<MemoryRow>, span: string, draws: nat -> Draw)
    ensures StoreAll(rows, span, CommittedAll([], LOCAL_STAMP), draws) == rows
    ensures DrawnIds(|rows|, 0, draws) == []
  {
  }

  lemma LocalCommitLength(cs: seq<Candidate>, w: World)
    ensures |LocalCommit(cs, w)| == |Selected(cs, {}, w)|
  {
  }

  lemma DrawnNext(from: nat, n: nat, draws: nat -> Draw)
    ensures DrawnIds(from, n + 1, draws) == DrawnIds(from, n, draws) + [draws(from + n).id]
  {
  }

  lemma SelectedStep(cs: seq<Candidate>, i: nat, done: set<string>, w: World)
    requires i < |cs|
    ensures Selected(cs[i..], done, w)
         == if !Eligible(Ready(cs[i], w)) || KeyOf(Ready(cs[i], w), w) in done then Selected(cs[i + 1..], done, w)
            else [Ready(cs[i], w)] + Selected(cs[i + 1..], done + {KeyOf(Ready(cs[i], w), w)}, w)
  {
    hide Ready, Eligible, KeyOf;
    assert cs[i..][1..] == cs[i + 1..];
  }

  lemma SelectedNone(done: set<string>, w: World)
    ensures Selected([], done, w) == [] && LocalCommit([], w) == []
  {
  }

  lemma StoreStep(rows: seq<MemoryRow>, span: string, c: Candidate, rest: seq<Candidate>, draws: nat -> Draw)
    ensures StoreAll(rows, span, CommittedAll([c] + rest, LOCAL_STAMP), draws)
         == StoreAll(rows + [MemoryRow(draws(|rows|).id, span, Topic(c), Committed(c, LOCAL_STAMP),
                                        draws(|rows|).time)],
                     span, CommittedAll(rest, LOCAL_STAMP), draws)
  {
    var all := CommittedAll([c] + rest, LOCAL_STAMP);
    assert all[0] == Committed(c, LOCAL_STAMP);
    assert all[1..] == CommittedAll(rest, LOCAL_STAMP);
  }

  class SidecarMemory {
    const client: Option<Client>
    const local: LocalMemory
    var lastCommitStatus: string
    var lastIds: seq<string>

    constructor (client: Option<Client>, local: LocalMemory)
      ensures this.client == client && this.local == local
      ensures lastCommitStatus == "not_requested" && lastIds == []
    {
      this.client, this.local := client, local;
      lastCommitStatus, lastIds := "not_requested", [];
    }

    method CommitCandidates(span: string, cs: seq<Candidate>, w: World, draws: nat -> Draw)
      returns (ids: seq<string>, asked: nat)
      modifies this, local.table
      ensures local.table.rows == StoreAll(old(local.table.rows), span, SidecarCommit(cs, client, w).stored, draws)
      ensures lastCommitStatus == SidecarCommit(cs, client, w).status
      ensures lastIds == SidecarCommit(cs, client, w).ids
      ensures asked == SidecarCommit(cs, client, w).asked
      ensures ids == DrawnIds(|old(local.table.rows)|, |SidecarCommit(cs, client, w).stored|, draws)
    {
      hide Selected, DrawnIds, LocalCommit, StoreAll, CommittedAll, CommittedWithIds;
      var sidecarIds: seq<string>, committed: seq<Candidate> := [], [];
      asked := 0;
      match client {
        case None =>
          lastCommitStatus := FALLBACK_STATUS;
          committed := Fallback(cs, w);
        case Some(client) =>
          var failure: Option<string>;
          committed, sidecarIds, asked, failure := AddAll(client, cs, w);
          lastCommitStatus := match failure case Some(name) => FailStatus(name) case None => MIRROR_STATUS;
      }
      lastIds := sidecarIds;
      var mirrored := if committed == [] then [] else MirroredAll(committed, lastCommitStatus);
      SelectedNone({}, w);
      assert committed == [] ==> MirroredAll(committed, lastCommitStatus) == [];
      ids := local.CommitCandidates(span, mirrored, w, draws);
    }
  }

  /** The loop over the client: every selected candidate is added, up to one that raises, which
      drops all of them. */
  method AddAll(client: Client, cs: seq<Candidate>, w: World)
    returns (committed: seq<Candidate>, sidecarIds: seq<string>, asked: nat, failure: Option<string>)
    ensures match RaiseAt(client, |Selected(cs, {}, w)|)
            case Some(i) => failure == Some(client(i).name) && asked == i + 1 && committed == [] && sidecarIds == []
            case None => failure == None && asked == |Selected(cs, {}, w)|
                         && committed == CommittedWithIds(Selected(cs, {}, w), client)
                         && sidecarIds == SidecarIds(client, asked)
  {
    hide Ready, Eligible, KeyOf, Selected, Committed, SidecarStamp, CommittedWithIds, RaiseAt, SidecarIds, IdOf;
    ghost var selected := Selected(cs, {}, w);
    NothingAdded(client, selected);
    committed, sidecarIds, asked := [], [], 0;
    var done: set<string> := {};
    assert cs[0..] == cs && selected[0..] == selected;
    for i := 0 to |cs|
      invariant asked <= |selected|
      invariant selected[asked..] == Selected(cs[i..], done, w)
      invariant committed == CommittedWithIds(selected[..asked], client)
      invariant sidecarIds == SidecarIds(client, asked)
      invariant forall j :: 0 <= j < asked ==> client(j).Stored?
    {
      var c := Ready(cs[i], w);
      SelectedStep(cs, i, done, w);
      if !Eligible(c) || KeyOf(c, w) in done {
        continue;
      }
      assert selected[asked] == selected[asked..][0] == c;
      match client(asked) {
        case Raised(name) =>
          RaiseIs(client, asked, |selected|);
          return [], [], asked + 1, Some(name);
        case Stored(id) =>
          done := done + {KeyOf(c, w)};
          if id != "" {
            sidecarIds := sidecarIds + [id];
          }
          committed := committed + [Committed(c, SidecarStamp(id))];
          OneAdded(client, selected, asked, id);
          assert selected[asked + 1..] == selected[asked..][1..];
          asked := asked + 1;
      }
    }
    assert cs[|cs|..] == [];
    SelectedNone(done, w);
    assert asked == |selected| && selected[..asked] == selected;
    RaiseIs(client, |selected|, |selected|);
    failure := None;
  }

  lemma NothingAdded(client: Client, selected: seq<Candidate>)
    ensures CommittedWithIds(selected[..0], client) == [] && SidecarIds(client, 0) == []
  {
  }

  /** What one more addition leaves. */
  lemma OneAdded(client: Client, selected: seq<Candidate>, asked: nat, id: string)
    requires asked < |selected| && client(asked) == Added.Stored(id)
    ensures CommittedWithIds(selected[..asked + 1], client)
         == CommittedWithIds(selected[..asked], client) + [Committed(selected[asked], SidecarStamp(id))]
    ensures SidecarIds(client, asked + 1) == SidecarIds(client, asked) + if id == "" then [] else [id]
  {
    hide Committed, SidecarStamp;
    assert selected[..asked + 1] == selected[..asked] + [selected[asked]];
  }

  lemma RaiseIs(client: Client, i: nat, n: nat)
    requires i <= n && forall j :: 0 <= j < i ==> client(j).Stored?
    ensures RaiseAt(client, i).None?
    ensures i < n && client(i).Raised? ==> RaiseAt(client, n) == Some(i)
  {
    var r := RaiseAt(client, n);
    assert r.Some? ==> client(r.value).Raised?;
  }

  /** The loop without a client: every selected candidate is marked as a fallback commit. */
  method Fallback(cs: seq<Candidate>, w: World) returns (committed: seq<Candidate>)
    ensures committed == CommittedAll(Selected(cs, {}, w), FALLBACK_STAMP)
  {
    hide Ready, Eligible, KeyOf, Selected, Committed;
    var done: set<string> := {};
    committed := [];
    ghost var taken: seq<Candidate> := [];
    assert cs[0..] == cs;
    for i := 0 to |cs|
      invariant taken + Selected(cs[i..], done, w) == Selected(cs, {}, w)
      invariant committed == CommittedAll(taken, FALLBACK_STAMP)
    {
      var c := Ready(cs[i], w);
      SelectedStep(cs, i, done, w);
      if !Eligible(c) || KeyOf(c, w) in done {
        continue;
      }
      done := done + {KeyOf(c, w)};
      committed := committed + [Committed(c, FALLBACK_STAMP)];
      taken := taken + [c];
    }
    assert cs[|cs|..] == [];
    SelectedNone(done, w);
    assert taken == Selected(cs, {}, w);
  }
}
