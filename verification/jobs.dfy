/** Sequences and option values shared by the other modules. */
module Common {
  datatype Option<+T> = None | Some(value: T)

  /** The elements of s that satisfy p, in order. */
  function Select<T>(s: seq<T>, p: T -> bool): seq<T> {
    if s == [] then []
    else Select(s[..|s| - 1], p) + if p(s[|s| - 1]) then [s[|s| - 1]] else []
  }

  function Map<T, U>(s: seq<T>, f: T -> U): seq<U> {
    if s == [] then [] else Map(s[..|s| - 1], f) + [f(s[|s| - 1])]
  }

  lemma {:induction false} MapAt<T, U>(s: seq<T>, f: T -> U)
    ensures |Map(s, f)| == |s|
    ensures forall i :: 0 <= i < |s| ==> Map(s, f)[i] == f(s[i])
  {
    if s != [] {
      MapAt(s[..|s| - 1], f);
    }
  }

  lemma SelectOne<T>(x: T, p: T -> bool)
    ensures Select([x], p) == if p(x) then [x] else []
  {
    assert [x][..0] == [];
    assert Select<T>([], p) == [];
  }

  lemma MapSnoc<T, U>(s: seq<T>, i: nat, f: T -> U)
    requires i < |s|
    ensures Map(s[..i + 1], f) == Map(s[..i], f) + [f(s[i])]
  {
    assert s[..i + 1][..i] == s[..i];
  }

  lemma {:induction false} SelectMember<T>(s: seq<T>, p: T -> bool)
    ensures forall x :: x in Select(s, p) <==> x in s && p(x)
  {
    if s != [] {
      SelectMember(s[..|s| - 1], p);
      assert s == s[..|s| - 1] + [s[|s| - 1]];
    }
  }

  lemma {:induction false} SelectConcat<T>(a: seq<T>, b: seq<T>, p: T -> bool)
    ensures Select(a + b, p) == Select(a, p) + Select(b, p)
  {
    if b == [] {
      assert a + b == a;
    } else {
      var c := a + b;
      assert c[..|c| - 1] == a + b[..|b| - 1];
      SelectConcat(a, b[..|b| - 1], p);
    }
  }

  lemma {:induction false} SelectAll<T>(s: seq<T>, p: T -> bool)
    requires forall x :: x in s ==> p(x)
    ensures Select(s, p) == s
  {
    if s != [] {
      var init, last := s[..|s| - 1], s[|s| - 1];
      assert s == init + [last] && p(last);
      forall x | x in init
        ensures p(x)
      {
        assert x in s;
      }
      SelectAll(init, p);
    }
  }

  lemma {:induction false} SelectCongruent<T>(s: seq<T>, p: T -> bool, q: T -> bool)
    requires forall x :: x in s ==> p(x) == q(x)
    ensures Select(s, p) == Select(s, q)
  {
    if s != [] {
      SelectCongruent(s[..|s| - 1], p, q);
    }
  }

  function Both<T>(p: T -> bool, q: T -> bool): T -> bool {
    x => p(x) && q(x)
  }

  lemma {:induction false} SelectSelect<T>(s: seq<T>, p: T -> bool, q: T -> bool)
    ensures Select(Select(s, p), q) == Select(s, Both(p, q))
  {
    if s != [] {
      var init, last := s[..|s| - 1], s[|s| - 1];
      SelectSelect(init, p, q);
      SelectConcat(Select(init, p), if p(last) then [last] else [], q);
      if p(last) {
        assert [last][..0] == [];
        assert Select([last], q) == Select([], q) + if q(last) then [last] else [];
      }
    }
  }
}

/** The job table of one server, the requests queued for it, and what executing a request does. */
module Jobs {
  import opened Common

  /** The name of a child element of a job. */
  datatype Tag =
    | Progress | Status | Periodic | Timestamp | Tminus | Result
    | Siserver | Headertag | Macaddress | OtherTag(name: string)

  /** The child elements of a job, except the ones that have a field of their own in Job. */
  type Fields = map<Tag, string>

  function Text(f: Fields, tag: Tag): string {
    if tag in f then f[tag] else ""
  }

  /** A row of jobDB. A local job has original == id; a foreign one keeps its owner's id in original. */
  datatype Job = Job(id: nat, original: nat, plainname: string, fields: Fields) {
    predicate From(server: string) {
      Text(fields, Siserver) == server
    }

    predicate InstallOrUpdate() {
      Text(fields, Headertag) == "trigger_action_reinstall" || Text(fields, Headertag) == "trigger_action_update"
    }

    predicate HasStatus(status: string) {
      Text(fields, Status) == status
    }
  }

  /** A job as it travels in a message: without original_id. */
  datatype Answer = Answer(id: nat, plainname: string, fields: Fields)

  datatype Target = AllPeers | OnePeer(addr: string)

  /** A foreign_job_updates message; sync is "all" or "ordered". */
  datatype Fju = Fju(source: string, target: Target, syncAll: bool, answers: seq<Answer>)

  type Filter = Job -> bool

  /** FilterSimple("siserver", server) or FilterSimple("siserver", server, "original_id", original). */
  datatype Origin = Origin(server: string, original: Option<nat>) {
    predicate Selects(j: Job) {
      j.From(server) && (original.Some? ==> j.original == original.value)
    }
  }

  datatype Request =
    | AddLocal(job: Job)
    | RemoveLocal(filter: Filter, stopPeriodic: bool)
    | ModifyLocal(filter: Filter, update: Fields)
    | RemoveForeign(origin: Origin)
    | AddOrModifyForeign(origin: Origin, answer: Answer)
    | SyncAll(target: string)

  datatype Server = Server(
    addr: string, jobs: seq<Job>, nextId: nat, requests: seq<Request>, outbox: seq<Fju>, actions: seq<Job>)

  const UPDATABLE_FIELDS: nat := 6

  /** The k-th of the fields that an edit may change. */
  function Updatable(k: nat): Tag
    requires k < UPDATABLE_FIELDS
  {
    if k == 0 then Progress else if k == 1 then Status else if k == 2 then Periodic
    else if k == 3 then Timestamp else if k == 4 then Tminus else Result
  }

  /** The part of update that an edit may write, looking only at the first k updatable fields. */
  function Writes(update: Fields, k: nat): Fields
    requires k <= UPDATABLE_FIELDS
  {
    if k == 0 then map[]
    else
      var tag := Updatable(k - 1);
      if tag in update then Writes(update, k - 1)[tag := update[tag]] else Writes(update, k - 1)
  }

  function Merge(fields: Fields, update: Fields): Fields {
    fields + Writes(update, UPDATABLE_FIELDS)
  }

  /** Edits that only mark a job as being forwarded or groomed are not broadcast. */
  predicate Suppressed(update: Fields) {
    Progress in update && (update[Progress] == "forward" || update[Progress] == "groom")
  }

  predicate Launches(update: Fields) {
    Status in update && update[Status] == "launch"
  }

  /** A job after JobsModifyLocal: "launch" becomes "processing". */
  function Edited(update: Fields): Job -> Job {
    (j: Job) => j.(fields := if Launches(update) then Merge(j.fields, update)[Status := "processing"]
                             else Merge(j.fields, update))
  }

  /** Other install or update jobs of the same machine that this server is processing. */
  function Others(addr: string, macaddress: string, id: nat): Filter {
    (j: Job) => j.From(addr) && Text(j.fields, Macaddress) == macaddress && j.HasStatus("processing")
                && j.InstallOrUpdate() && j.id != id
  }

  const GROOM: Fields := map[Progress := "groom"]

  /** The removal queued when an install or update job is launched. */
  function Evictions(addr: string, update: Fields, j: Job): seq<Request> {
    if Launches(update) && j.InstallOrUpdate() then
      var others := Others(addr, Text(j.fields, Macaddress), j.id);
      [ModifyLocal(others, GROOM), RemoveLocal(others, false)]
    else []
  }

  function AllEvictions(addr: string, update: Fields, found: seq<Job>): seq<Request> {
    if found == [] then []
    else AllEvictions(addr, update, found[..|found| - 1]) + Evictions(addr, update, found[|found| - 1])
  }

  predicate NeedsAction(update: Fields) {
    Text(update, Status) == "launch" || Text(update, Status) == "wakeup"
  }

  function AsAnswer(): Job -> Answer {
    (j: Job) => Answer(j.id, j.plainname, j.fields)
  }

  /** A job on its way out of the table. */
  function Done(stopPeriodic: bool): Job -> Job {
    (j: Job) => j.(fields := if stopPeriodic then j.fields[Status := "done"][Periodic := "none"]
                             else j.fields[Status := "done"])
  }

  function Broadcast(addr: string, answers: seq<Answer>): seq<Fju> {
    if answers == [] then [] else [Fju(addr, AllPeers, false, answers)]
  }

  function Not(f: Filter): Filter {
    (j: Job) => !f(j)
  }

  function FromServer(addr: string): Filter {
    (j: Job) => j.From(addr)
  }

  function OfOrigin(origin: Origin): Filter {
    (j: Job) => origin.Selects(j)
  }

  function Overwritten(update: Fields): Job -> Job {
    (j: Job) => j.(fields := Merge(j.fields, update))
  }

  function NameOr(plainname: string): string {
    if plainname == "" then "none" else plainname
  }

  /** Takes the selected rows out of the table and appends their new versions. */
  function Rewritten(jobs: seq<Job>, f: Filter, g: Job -> Job): seq<Job> {
    Select(jobs, Not(f)) + Map(Select(jobs, f), g)
  }

  // ----- calls: what a caller of the job API appends to the request queue

  function CallModifyLocal(filter: Filter, update: Fields): seq<Request> {
    if Text(update, Status) == "done" then
      [RemoveLocal(filter, Periodic in update && (update[Periodic] == "" || update[Periodic] == "none"))]
    else [ModifyLocal(filter, update)]
  }

  function CallAddOrModifyForeign(origin: Origin, answer: Answer): seq<Request> {
    if Text(answer.fields, Status) == "done" then [RemoveForeign(origin)]
    else [AddOrModifyForeign(origin, answer)]
  }

  function CallAddLocal(s: Server, plainname: string, fields: Fields): Server {
    s.(nextId := s.nextId + 1, requests := s.requests + [AddLocal(Job(s.nextId, s.nextId, plainname, fields))])
  }

  // ----- execution of one request

  /** The message, if any, that executing a request puts into the outgoing queue. */
  function Emitted(s: Server, r: Request): seq<Fju> {
    match r
    case AddLocal(job) => [Fju(s.addr, AllPeers, false, [AsAnswer()(job.(plainname := NameOr(job.plainname)))])]
    case RemoveLocal(filter, stopPeriodic) =>
      Broadcast(s.addr, Map(Map(Select(s.jobs, filter), Done(stopPeriodic)), AsAnswer()))
    case ModifyLocal(filter, update) =>
      Broadcast(s.addr, if Suppressed(update) then []
                        else Map(Map(Select(s.jobs, filter), Edited(update)), AsAnswer()))
    case RemoveForeign(_) => []
    case AddOrModifyForeign(_, _) => []
    case SyncAll(target) => [Fju(s.addr, OnePeer(target), true, Map(Select(s.jobs, FromServer(s.addr)), AsAnswer()))]
  }

  function ExecuteAdd(s: Server, job: Job): Server {
    var row := job.(plainname := NameOr(job.plainname));
    s.(jobs := s.jobs + [row], outbox := s.outbox + Emitted(s, AddLocal(job)))
  }

  function ExecuteRemove(s: Server, filter: Filter, stopPeriodic: bool): Server {
    var gone := Map(Select(s.jobs, filter), Done(stopPeriodic));
    s.(jobs := Select(s.jobs, Not(filter)),
       actions := s.actions + gone,
       outbox := s.outbox + Emitted(s, RemoveLocal(filter, stopPeriodic)))
  }

  function ExecuteModify(s: Server, filter: Filter, update: Fields): Server {
    var found := Select(s.jobs, filter);
    var changed := Map(found, Edited(update));
    s.(jobs := Rewritten(s.jobs, filter, Edited(update)),
       requests := s.requests + AllEvictions(s.addr, update, found),
       actions := s.actions + (if NeedsAction(update) then changed else []),
       outbox := s.outbox + Emitted(s, ModifyLocal(filter, update)))
  }

  function ExecuteRemoveForeign(s: Server, origin: Origin): Server {
    s.(jobs := Select(s.jobs, Not(OfOrigin(origin))))
  }

  function ExecuteAddOrModify(s: Server, origin: Origin, answer: Answer): Server {
    if Select(s.jobs, OfOrigin(origin)) != [] then
      s.(jobs := Rewritten(s.jobs, OfOrigin(origin), Overwritten(answer.fields)))
    else
      s.(jobs := s.jobs + [Job(s.nextId, answer.id, NameOr(answer.plainname), answer.fields)],
         nextId := s.nextId + 1)
  }

  function ExecuteSyncAll(s: Server, target: string): Server {
    s.(outbox := s.outbox + Emitted(s, SyncAll(target)))
  }

  function Execute(s: Server, r: Request): Server {
    match r
    case AddLocal(job) => ExecuteAdd(s, job)
    case RemoveLocal(filter, stopPeriodic) => ExecuteRemove(s, filter, stopPeriodic)
    case ModifyLocal(filter, update) => ExecuteModify(s, filter, update)
    case RemoveForeign(origin) => ExecuteRemoveForeign(s, origin)
    case AddOrModifyForeign(origin, answer) => ExecuteAddOrModify(s, origin, answer)
    case SyncAll(target) => ExecuteSyncAll(s, target)
  }

  /** The goroutine takes the oldest request and runs it to completion. */
  function ExecuteNext(s: Server): Server
    requires s.requests != []
  {
    Execute(s.(requests := s.requests[1..]), s.requests[0])
  }
}
