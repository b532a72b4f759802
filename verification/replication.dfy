/**
 * Two servers: an owner whose jobs are edited by its request goroutine, and a peer that replays the owner's
 * messages, with the owner's outgoing queue, the connection, and the peer's own request queue in between.
 */
module Replication {
  import opened Common
  import opened Jobs
  import opened JobServers
  import opened ForeignUpdates
  import opened Views
  import opened Soundness
  import opened Broadcasts
  import opened Followers

  function IsFor(peer: string): Fju -> bool {
    (m: Fju) => m.target == AllPeers || m.target == OnePeer(peer)
  }

  function FlatItems(ms: seq<Fju>): seq<Item> {
    if ms == [] then [] else Items(ms[0]) + FlatItems(ms[1..])
  }

  lemma {:induction false} FlatItemsConcat(a: seq<Fju>, b: seq<Fju>)
    ensures FlatItems(a + b) == FlatItems(a) + FlatItems(b)
  {
    if a == [] {
      assert a + b == b;
    } else {
      assert (a + b)[1..] == a[1..] + b;
      FlatItemsConcat(a[1..], b);
    }
  }

  lemma EmittedIsNew(s: Server, r: Request)
    ensures Execute(s, r).outbox == s.outbox + Emitted(s, r)
  {
  }

  /** What the peer at the given address sees of the owner's jobs after replaying messages ms. */
  ghost function Replay(v: View, peer: string, ms: seq<Fju>, owner: string): View {
    ViewItems(v, peer, FlatItems(Select(ms, IsFor(peer))), owner)
  }

  lemma ReplayOrdered(v: View, peer: string, owner: string, answers: seq<Answer>)
    requires peer != owner && forall a :: a in answers ==> Text(a.fields, Siserver) == owner
    ensures Replay(v, peer, Broadcast(owner, answers), owner) == ViewAnswers(v, answers)
  {
    if answers != [] {
      ReplayOne(v, peer, owner, Fju(owner, AllPeers, false, answers));
    }
  }

  lemma ReplayOne(v: View, peer: string, owner: string, m: Fju)
    requires peer != owner && IsFor(peer)(m) && m.source == owner
    requires forall a :: a in m.answers ==> Text(a.fields, Siserver) == owner
    ensures Replay(v, peer, [m], owner) == ViewAnswers(if m.syncAll then map[] else v, m.answers)
  {
    OneMessage(m, peer);
    UpdatesView(if m.syncAll then map[] else v, peer, owner, m.answers);
    if m.syncAll {
      assert Items(m)[0] == Clear(owner) && Items(m)[1..] == Updates(owner, m.answers);
      ClearView(v, peer, owner);
    } else {
      assert Items(m) == Updates(owner, m.answers);
    }
  }

  lemma OneMessage(m: Fju, peer: string)
    requires IsFor(peer)(m)
    ensures FlatItems(Select([m], IsFor(peer))) == Items(m)
  {
    assert [m][..0] == [] && [m][1..] == [];
    assert Select([m], IsFor(peer)) == [m];
    assert FlatItems([]) == [];
  }

  lemma ClearView(v: View, peer: string, owner: string)
    ensures ViewRequests(v, ItemRequests(peer, Clear(owner)), owner) == map[]
  {
    var clear := ItemRequests(peer, Clear(owner));
    assert clear == [RemoveForeign(Origin(owner, None))] && clear[1..] == [];
    assert ViewRequests(map[], [], owner) == map[];
  }

  // ----- one step of the owner's goroutine

  lemma OwnRowsAre(s: Server, f: Filter)
    requires Sound(s) && forall j :: j in s.jobs && f(j) ==> j.From(s.addr)
    ensures OwnRows(s.addr, Select(s.jobs, f))
  {
    DistinctSelect(s.jobs, OriginOf(), f);
    SelectMember(s.jobs, f);
  }

  lemma OwnRowsOf(s: Server, f: Filter)
    requires Sound(s) && forall j :: j in s.jobs && f(j) ==> j.From(s.addr)
    ensures OwnRows(s.addr, Select(s.jobs, f))
    ensures var ours := ViewOf(s.jobs, s.addr);
            forall j :: j in Select(s.jobs, f) ==> j.original in ours && ours[j.original] == j.fields
  {
    OwnRowsAre(s, f);
    SelectMember(s.jobs, f);
    forall j | j in Select(s.jobs, f)
      ensures j.original in ViewOf(s.jobs, s.addr) && ViewOf(s.jobs, s.addr)[j.original] == j.fields
    {
      ViewRow(s.jobs, s.addr, j);
    }
  }

  lemma {:induction false} AnswersFrom(addr: string, rows: seq<Job>, g: Job -> Job)
    requires KeepsOrigin(g) && forall j :: j in rows ==> j.From(addr)
    ensures forall a :: a in Map(Map(rows, g), AsAnswer()) ==> Text(a.fields, Siserver) == addr
  {
    if rows != [] {
      var last := rows[|rows| - 1];
      AnswersFrom(addr, rows[..|rows| - 1], g);
      AnswerRows(rows, g);
      assert OriginOf()(g(last)) == OriginOf()(last);
      assert last in rows;
      assert OriginOf()(g(last)).0 == OriginOf()(last).0 == addr;
      assert Text(AsAnswer()(g(last)).fields, Siserver) == addr;
    }
  }

  lemma DoneKeepsOrigin(stopPeriodic: bool)
    ensures KeepsOrigin(Done(stopPeriodic))
  {
  }

  lemma OwnerModifies(s: Server, filter: Filter, update: Fields, theirs: View, peer: string)
    requires Sound(s) && peer != s.addr && Agree(ViewOf(s.jobs, s.addr), theirs) && Replicable(update)
    requires RequestOk(s.addr, s.nextId, ForeignIds(s.addr, s.jobs), ModifyLocal(filter, update))
    ensures Agree(ViewOf(ExecuteModify(s, filter, update).jobs, s.addr),
                  Replay(theirs, peer, Emitted(s, ModifyLocal(filter, update)), s.addr))
  {
    var g := Edited(update);
    var found := Select(s.jobs, filter);
    OwnOnlySelects(s, filter);
    OwnRowsOf(s, filter);
    EditKeepsOrigin(update);
    ViewRewritten(s.jobs, s.addr, filter, g);
    if Suppressed(update) {
      FollowHiddenEdit(s.addr, ViewOf(s.jobs, s.addr), theirs, found, update);
      ReplayOrdered(theirs, peer, s.addr, []);
    } else {
      FollowEdits(s.addr, ViewOf(s.jobs, s.addr), theirs, found, update);
      AnswersFrom(s.addr, found, g);
      ReplayOrdered(theirs, peer, s.addr, Map(Map(found, g), AsAnswer()));
    }
  }

  lemma OwnerRemoves(s: Server, filter: Filter, stopPeriodic: bool, theirs: View, peer: string)
    requires Sound(s) && peer != s.addr && Agree(ViewOf(s.jobs, s.addr), theirs)
    requires RequestOk(s.addr, s.nextId, ForeignIds(s.addr, s.jobs), RemoveLocal(filter, stopPeriodic))
    ensures Agree(ViewOf(ExecuteRemove(s, filter, stopPeriodic).jobs, s.addr),
                  Replay(theirs, peer, Emitted(s, RemoveLocal(filter, stopPeriodic)), s.addr))
  {
    var found := Select(s.jobs, filter);
    OwnOnlySelects(s, filter);
    OwnRowsOf(s, filter);
    ViewRemoved(s.jobs, s.addr, filter);
    FollowRemovals(theirs, found, stopPeriodic);
    DoneKeepsOrigin(stopPeriodic);
    AnswersFrom(s.addr, found, Done(stopPeriodic));
    ReplayOrdered(theirs, peer, s.addr, Map(Map(found, Done(stopPeriodic)), AsAnswer()));
    AgreeMinus(ViewOf(s.jobs, s.addr), theirs, Originals(found));
  }

  lemma OwnerAdds(s: Server, job: Job, theirs: View, peer: string)
    requires Sound(s) && peer != s.addr && Agree(ViewOf(s.jobs, s.addr), theirs)
    requires RequestOk(s.addr, s.nextId, ForeignIds(s.addr, s.jobs), AddLocal(job)) && job.id !in Ids(s.jobs)
    ensures Agree(ViewOf(ExecuteAdd(s, job).jobs, s.addr), Replay(theirs, peer, Emitted(s, AddLocal(job)), s.addr))
  {
    var row := job.(plainname := NameOr(job.plainname));
    ViewAdded(s, row);
    ReplayOne(theirs, peer, s.addr, Fju(s.addr, AllPeers, false, [AsAnswer()(row)]));
    ViewAnswersOne(theirs, AsAnswer()(row));
  }

  lemma ViewAdded(s: Server, row: Job)
    requires Sound(s) && row.From(s.addr) && row.original == row.id && row.id !in Ids(s.jobs)
    ensures row.id !in ViewOf(s.jobs, s.addr)
    ensures ViewOf(s.jobs + [row], s.addr) == ViewOf(s.jobs, s.addr)[row.id := row.fields]
  {
    ViewSnoc(s.jobs, row, s.addr);
    ViewKeys(s.jobs, s.addr);
    assert forall j :: j in s.jobs && j.From(s.addr) ==> j.original in Ids(s.jobs);
  }

  lemma ViewAnswersOne(v: View, answer: Answer)
    ensures ViewAnswers(v, [answer]) == ViewAnswer(v, answer)
  {
    assert [answer][..0] == [];
    assert ViewAnswers(v, []) == v;
  }

  lemma OwnerKeeps(s: Server, r: Request, theirs: View, peer: string)
    requires Sound(s) && RequestOk(s.addr, s.nextId, ForeignIds(s.addr, s.jobs), r)
    requires r.RemoveForeign? || r.AddOrModifyForeign?
    ensures ViewOf(Execute(s, r).jobs, s.addr) == ViewOf(s.jobs, s.addr)
    ensures Replay(theirs, peer, Emitted(s, r), s.addr) == theirs
  {
    match r
    case RemoveForeign(origin) => ViewUntouched(s.jobs, s.addr, Not(OfOrigin(origin)));
    case AddOrModifyForeign(origin, answer) =>
      EditKeepsOrigin(answer.fields);
      if Select(s.jobs, OfOrigin(origin)) != [] {
        ViewRewrittenOthers(s.jobs, s.addr, OfOrigin(origin), Overwritten(answer.fields));
      } else {
        assert Execute(s, r).jobs[..|s.jobs|] == s.jobs;
      }
  }

  /** After a full sync has been emitted, its receiver agrees with the owner, whatever it knew before. */
  lemma OwnerSyncs(s: Server, theirs: View, peer: string)
    requires Sound(s) && peer != s.addr
    ensures Replay(theirs, peer, Emitted(s, SyncAll(peer)), s.addr) == ViewOf(s.jobs, s.addr)
  {
    var mine := Select(s.jobs, FromServer(s.addr));
    OwnRowsAre(s, FromServer(s.addr));
    SyncEmitted(s, peer);
    SyncReplayed(s.addr, mine, theirs, peer);
    ViewUntouched(s.jobs, s.addr, FromServer(s.addr));
  }

  lemma SyncEmitted(s: Server, peer: string)
    ensures Emitted(s, SyncAll(peer))
            == [Fju(s.addr, OnePeer(peer), true, Map(Select(s.jobs, FromServer(s.addr)), AsAnswer()))]
  {
  }

  lemma SyncReplayed(addr: string, mine: seq<Job>, theirs: View, peer: string)
    requires OwnRows(addr, mine) && peer != addr
    ensures Replay(theirs, peer, [Fju(addr, OnePeer(peer), true, Map(mine, AsAnswer()))], addr) == ViewOf(mine, addr)
  {
    MapMemberAnswers(mine);
    ReplayOne(theirs, peer, addr, Fju(addr, OnePeer(peer), true, Map(mine, AsAnswer())));
    FollowSync(addr, mine);
  }

  lemma MapMemberAnswers(rows: seq<Job>)
    ensures forall a :: a in Map(rows, AsAnswer()) ==> exists j :: j in rows && a == AsAnswer()(j)
  {
    MapAt(rows, AsAnswer());
  }

  ghost predicate Follows(r: Request) {
    r.ModifyLocal? ==> Replicable(r.update)
  }

  /** Every request keeps a replica in agreement, once the replica has replayed what the request emitted. */
  lemma OwnerStep(s: Server, r: Request, theirs: View, peer: string)
    requires Sound(s) && peer != s.addr && Agree(ViewOf(s.jobs, s.addr), theirs) && Follows(r)
    requires RequestOk(s.addr, s.nextId, ForeignIds(s.addr, s.jobs), r)
    requires r.AddLocal? ==> r.job.id !in Ids(s.jobs)
    ensures Agree(ViewOf(Execute(s, r).jobs, s.addr), Replay(theirs, peer, Emitted(s, r), s.addr))
  {
    match r
    case AddLocal(job) => OwnerAdds(s, job, theirs, peer);
    case RemoveLocal(filter, stopPeriodic) => OwnerRemoves(s, filter, stopPeriodic, theirs, peer);
    case ModifyLocal(filter, update) => OwnerModifies(s, filter, update, theirs, peer);
    case RemoveForeign(_) => OwnerKeeps(s, r, theirs, peer);
    case AddOrModifyForeign(_, _) => OwnerKeeps(s, r, theirs, peer);
    case SyncAll(target) =>
      if target == peer {
        OwnerSyncs(s, theirs, peer);
        AgreeSelf(ViewOf(s.jobs, s.addr));
      } else {
        assert Emitted(s, r)[..0] == [];
        assert Select(Emitted(s, r), IsFor(peer)) == [];
      }
  }
}
