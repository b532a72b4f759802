/** The invariant every server keeps: ids and origins are unique, and queued requests stay executable. */
module Soundness {
  import opened Common
  import opened Jobs
  import opened JobServers
  import opened Views

  ghost function ForeignIds(addr: string, jobs: seq<Job>): set<nat> {
    set j | j in jobs && !j.From(addr) :: j.id
  }

  /**
   * A filter for local jobs either checks siserver or names the id of a local job, and the id of a local job
   * never becomes the id of a foreign one.
   */
  ghost predicate OwnOnly(addr: string, nextId: nat, foreign: set<nat>, f: Filter) {
    forall j :: f(j) && !j.From(addr) ==> j.id < nextId && j.id !in foreign
  }

  ghost predicate RequestOk(addr: string, nextId: nat, foreign: set<nat>, r: Request) {
    match r
    case AddLocal(job) => job.From(addr) && job.original == job.id && !job.HasStatus("done") && job.id < nextId
    case RemoveLocal(filter, _) => OwnOnly(addr, nextId, foreign, filter)
    case ModifyLocal(filter, update) => OwnOnly(addr, nextId, foreign, filter) && Text(update, Status) != "done"
    case RemoveForeign(origin) => origin.server != addr
    case AddOrModifyForeign(origin, answer) =>
      && origin.server != addr
      && origin.original == Some(answer.id)
      && Text(answer.fields, Siserver) == origin.server
      && Text(answer.fields, Status) != "done"
    case SyncAll(_) => true
  }

  ghost predicate TableOk(addr: string, nextId: nat, jobs: seq<Job>) {
    && DistinctBy(jobs, IdOf())
    && DistinctBy(jobs, OriginOf())
    && (forall j :: j in jobs ==> j.id < nextId)
    && (forall j :: j in jobs && j.From(addr) ==> j.original == j.id && !j.HasStatus("done"))
  }

  ghost function AddedIds(requests: seq<Request>): set<nat> {
    set r | r in requests && r.AddLocal? :: r.job.id
  }

  ghost predicate AddsDistinct(requests: seq<Request>) {
    forall i, k :: 0 <= i < k < |requests| && requests[i].AddLocal? && requests[k].AddLocal? ==>
      requests[i].job.id != requests[k].job.id
  }

  ghost predicate QueueOk(addr: string, nextId: nat, foreign: set<nat>, requests: seq<Request>) {
    && AddsDistinct(requests)
    && forall r :: r in requests ==> RequestOk(addr, nextId, foreign, r)
  }

  ghost predicate Sound(s: Server) {
    && TableOk(s.addr, s.nextId, s.jobs)
    && QueueOk(s.addr, s.nextId, ForeignIds(s.addr, s.jobs), s.requests)
    && AddedIds(s.requests) !! Ids(s.jobs)
  }

  ghost predicate Grown(nextId: nat, before: set<nat>, after: set<nat>) {
    forall n :: n in after ==> n in before || nextId <= n
  }

  lemma QueueStable(addr: string, nextId: nat, nextId': nat, foreign: set<nat>, foreign': set<nat>, requests: seq<Request>)
    requires QueueOk(addr, nextId, foreign, requests)
    requires nextId <= nextId' && Grown(nextId, foreign, foreign')
    ensures QueueOk(addr, nextId', foreign', requests)
  {
    forall r | r in requests
      ensures RequestOk(addr, nextId', foreign', r)
    {
      assert RequestOk(addr, nextId, foreign, r);
    }
  }

  lemma OwnOnlySelects(s: Server, f: Filter)
    requires Sound(s) && OwnOnly(s.addr, s.nextId, ForeignIds(s.addr, s.jobs), f)
    ensures forall j :: j in s.jobs && f(j) ==> j.From(s.addr)
  {
    assert forall j :: j in s.jobs && !j.From(s.addr) ==> j.id in ForeignIds(s.addr, s.jobs);
  }

  lemma TableSelect(addr: string, nextId: nat, jobs: seq<Job>, p: Filter)
    requires TableOk(addr, nextId, jobs)
    ensures TableOk(addr, nextId, Select(jobs, p))
    ensures ForeignIds(addr, Select(jobs, p)) <= ForeignIds(addr, jobs) && Ids(Select(jobs, p)) <= Ids(jobs)
  {
    DistinctSelect(jobs, IdOf(), p);
    DistinctSelect(jobs, OriginOf(), p);
    SelectMember(jobs, p);
  }

  /** An edit that keeps ids and origins, and does not mark local jobs as done, keeps the table sound. */
  lemma TableRewritten(addr: string, nextId: nat, jobs: seq<Job>, f: Filter, g: Job -> Job)
    requires TableOk(addr, nextId, jobs) && KeepsOrigin(g) && forall j :: g(j).id == j.id
    requires forall j :: j in jobs && f(j) && j.From(addr) ==> !g(j).HasStatus("done")
    ensures TableOk(addr, nextId, Rewritten(jobs, f, g))
    ensures ForeignIds(addr, Rewritten(jobs, f, g)) <= ForeignIds(addr, jobs)
    ensures Ids(Rewritten(jobs, f, g)) <= Ids(jobs)
  {
    DistinctRewritten(jobs, IdOf(), f, g);
    DistinctRewritten(jobs, OriginOf(), f, g);
    SelectMember(jobs, f);
    SelectMember(jobs, Not(f));
    MapMember(Select(jobs, f), g);
    forall y | y in Rewritten(jobs, f, g)
      ensures exists x :: x in jobs && y.id == x.id && OriginOf()(y) == OriginOf()(x)
                          && (y.From(addr) ==> !y.HasStatus("done"))
    {
      if y in Map(Select(jobs, f), g) {
        var x :| x in Select(jobs, f) && y == g(x);
        assert OriginOf()(g(x)) == OriginOf()(x);
      }
    }
  }

  lemma TableAppend(addr: string, nextId: nat, nextId': nat, jobs: seq<Job>, row: Job)
    requires TableOk(addr, nextId, jobs) && nextId <= nextId' && row.id < nextId' && row.id !in Ids(jobs)
    requires row.From(addr) ==> row.original == row.id && !row.HasStatus("done")
    requires forall j :: j in jobs ==> OriginOf()(j) != OriginOf()(row)
    ensures TableOk(addr, nextId', jobs + [row])
  {
    assert forall j :: j in jobs ==> IdOf()(j) in Ids(jobs);
  }

  lemma {:induction false} EvictionsOk(s: Server, update: Fields, found: seq<Job>)
    ensures forall r :: r in AllEvictions(s.addr, update, found) ==>
              RequestOk(s.addr, s.nextId, ForeignIds(s.addr, s.jobs), r) && !r.AddLocal?
  {
    if found != [] {
      EvictionsOk(s, update, found[..|found| - 1]);
    }
  }

  lemma QueueAppend(addr: string, nextId: nat, foreign: set<nat>, rs: seq<Request>, more: seq<Request>)
    requires QueueOk(addr, nextId, foreign, rs)
    requires forall r :: r in more ==> RequestOk(addr, nextId, foreign, r) && !r.AddLocal?
    ensures QueueOk(addr, nextId, foreign, rs + more) && AddedIds(rs + more) == AddedIds(rs)
  {
  }

  lemma EditedStatus(update: Fields, j: Job)
    requires Text(update, Status) != "done" && !j.HasStatus("done")
    ensures !Edited(update)(j).HasStatus("done")
  {
    MergeStatus(j.fields, update);
  }

  // ----- executing a request keeps a server sound

  lemma SoundModify(s: Server, filter: Filter, update: Fields)
    requires Sound(s) && RequestOk(s.addr, s.nextId, ForeignIds(s.addr, s.jobs), ModifyLocal(filter, update))
    ensures Sound(ExecuteModify(s, filter, update))
  {
    EditKeepsOrigin(update);
    forall j | j in s.jobs && filter(j) && j.From(s.addr)
      ensures !Edited(update)(j).HasStatus("done")
    {
      EditedStatus(update, j);
    }
    TableRewritten(s.addr, s.nextId, s.jobs, filter, Edited(update));
    var s' := ExecuteModify(s, filter, update);
    EvictionsOk(s, update, Select(s.jobs, filter));
    QueueAppend(s.addr, s.nextId, ForeignIds(s.addr, s.jobs), s.requests, AllEvictions(s.addr, update, Select(s.jobs, filter)));
    QueueStable(s.addr, s.nextId, s.nextId, ForeignIds(s.addr, s.jobs), ForeignIds(s.addr, s'.jobs), s'.requests);
  }

  lemma SoundSelect(s: Server, p: Filter)
    requires Sound(s)
    ensures Sound(s.(jobs := Select(s.jobs, p)))
  {
    TableSelect(s.addr, s.nextId, s.jobs, p);
    QueueStable(s.addr, s.nextId, s.nextId, ForeignIds(s.addr, s.jobs), ForeignIds(s.addr, Select(s.jobs, p)), s.requests);
  }

  lemma SoundAdd(s: Server, job: Job)
    requires Sound(s) && RequestOk(s.addr, s.nextId, ForeignIds(s.addr, s.jobs), AddLocal(job))
    requires job.id !in Ids(s.jobs) && job.id !in AddedIds(s.requests)
    ensures Sound(ExecuteAdd(s, job))
  {
    var row := job.(plainname := NameOr(job.plainname));
    var s' := ExecuteAdd(s, job);
    assert forall j :: j in s.jobs && j.From(s.addr) ==> j.original in Ids(s.jobs);
    TableAppend(s.addr, s.nextId, s.nextId, s.jobs, row);
    assert ForeignIds(s.addr, s'.jobs) == ForeignIds(s.addr, s.jobs);
    assert Ids(s'.jobs) == Ids(s.jobs) + {job.id};
  }

  lemma SoundAddOrModify(s: Server, origin: Origin, answer: Answer)
    requires Sound(s) && RequestOk(s.addr, s.nextId, ForeignIds(s.addr, s.jobs), AddOrModifyForeign(origin, answer))
    ensures Sound(ExecuteAddOrModify(s, origin, answer))
  {
    var s' := ExecuteAddOrModify(s, origin, answer);
    SelectMember(s.jobs, OfOrigin(origin));
    if Select(s.jobs, OfOrigin(origin)) != [] {
      EditKeepsOrigin(answer.fields);
      TableRewritten(s.addr, s.nextId, s.jobs, OfOrigin(origin), Overwritten(answer.fields));
    } else {
      var row := Job(s.nextId, answer.id, NameOr(answer.plainname), answer.fields);
      assert forall j :: j in s.jobs && j.From(origin.server) && j.original == answer.id ==> j in Select(s.jobs, OfOrigin(origin));
      TableAppend(s.addr, s.nextId, s'.nextId, s.jobs, row);
    }
    QueueStable(s.addr, s.nextId, s'.nextId, ForeignIds(s.addr, s.jobs), ForeignIds(s.addr, s'.jobs), s.requests);
    forall n | n in AddedIds(s.requests)
      ensures n !in Ids(s'.jobs)
    {
      var r :| r in s.requests && r.AddLocal? && r.job.id == n;
      assert RequestOk(s.addr, s.nextId, ForeignIds(s.addr, s.jobs), r);
    }
  }

  lemma SoundExecute(s: Server, r: Request)
    requires Sound(s) && RequestOk(s.addr, s.nextId, ForeignIds(s.addr, s.jobs), r)
    requires r.AddLocal? ==> r.job.id !in Ids(s.jobs) && r.job.id !in AddedIds(s.requests)
    ensures Sound(Execute(s, r))
  {
    match r
    case AddLocal(job) => SoundAdd(s, job);
    case RemoveLocal(filter, stopPeriodic) => SoundSelect(s, Not(filter));
    case ModifyLocal(filter, update) => SoundModify(s, filter, update);
    case RemoveForeign(origin) => SoundSelect(s, Not(OfOrigin(origin)));
    case AddOrModifyForeign(origin, answer) => SoundAddOrModify(s, origin, answer);
    case SyncAll(target) =>
  }

  lemma SoundPop(s: Server)
    requires Sound(s) && s.requests != []
    ensures var r, t := s.requests[0], s.(requests := s.requests[1..]);
            && Sound(t) && RequestOk(s.addr, s.nextId, ForeignIds(s.addr, s.jobs), r)
            && (r.AddLocal? ==> r.job.id !in Ids(s.jobs) && r.job.id !in AddedIds(t.requests))
  {
    var r, t := s.requests[0], s.(requests := s.requests[1..]);
    assert forall x :: x in t.requests ==> x in s.requests;
    assert r in s.requests;
    if r.AddLocal? {
      assert r.job.id in AddedIds(s.requests);
      assert forall k :: 0 <= k < |t.requests| ==> t.requests[k] == s.requests[k + 1];
    }
  }

  /** Ids stay pairwise distinct and below the counter through every step of the goroutine. */
  lemma SoundExecuteNext(s: Server)
    requires Sound(s) && s.requests != []
    ensures Sound(ExecuteNext(s))
  {
    SoundPop(s);
    SoundExecute(s.(requests := s.requests[1..]), s.requests[0]);
  }

  lemma SoundEnqueue(s: Server, more: seq<Request>)
    requires Sound(s)
    requires forall r :: r in more ==> RequestOk(s.addr, s.nextId, ForeignIds(s.addr, s.jobs), r) && !r.AddLocal?
    ensures Sound(s.(requests := s.requests + more))
  {
    QueueAppend(s.addr, s.nextId, ForeignIds(s.addr, s.jobs), s.requests, more);
  }

  lemma SoundCallAddLocal(s: Server, plainname: string, fields: Fields)
    requires Sound(s) && Text(fields, Siserver) == s.addr && Text(fields, Status) != "done"
    ensures Sound(CallAddLocal(s, plainname, fields))
  {
    var t := CallAddLocal(s, plainname, fields);
    var foreign := ForeignIds(s.addr, s.jobs);
    QueueStable(s.addr, s.nextId, t.nextId, foreign, foreign, s.requests);
    forall i | 0 <= i < |s.requests| && s.requests[i].AddLocal?
      ensures s.requests[i].job.id < s.nextId
    {
      assert RequestOk(s.addr, s.nextId, foreign, s.requests[i]);
    }
    assert AddedIds(t.requests) == AddedIds(s.requests) + {s.nextId};
  }
}
