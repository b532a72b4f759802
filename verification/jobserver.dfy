/** The imperative job database: the goroutine's request handlers, proved equal to Jobs.Execute. */
module JobServers {
  import opened Common
  import opened Jobs

  ghost predicate IdsDistinct(jobs: seq<Job>) {
    forall i, j :: 0 <= i < j < |jobs| ==> jobs[i].id != jobs[j].id
  }

  function WithId(id: nat): Filter {
    (j: Job) => j.id == id
  }

  function Ids(jobs: seq<Job>): set<nat> {
    set j | j in jobs :: j.id
  }

  function WithoutIds(ids: set<nat>): Filter {
    (j: Job) => j.id !in ids
  }

  ghost predicate KeepsId(g: Job -> Job) {
    forall j :: g(j).id == j.id
  }

  // ----- rewriting rows one at a time gives the same table as rewriting them all at once

  lemma {:induction false} SelectKeepsDistinct(jobs: seq<Job>, f: Filter)
    requires IdsDistinct(jobs)
    ensures IdsDistinct(Select(jobs, f))
  {
    if jobs != [] {
      var init := jobs[..|jobs| - 1];
      SelectKeepsDistinct(init, f);
      SelectMember(init, f);
      assert forall x :: x in Select(init, f) ==> x in init && x.id != jobs[|jobs| - 1].id;
    }
  }

  lemma WithoutOneMore(orig: seq<Job>, ids: set<nat>, id: nat)
    ensures Select(Select(orig, WithoutIds(ids)), Not(WithId(id))) == Select(orig, WithoutIds(ids + {id}))
  {
    SelectSelect(orig, WithoutIds(ids), Not(WithId(id)));
    SelectCongruent(orig, Both(WithoutIds(ids), Not(WithId(id))), WithoutIds(ids + {id}));
  }

  lemma StillThere(orig: seq<Job>, ids: set<nat>, job: Job)
    requires job in orig && job.id !in ids
    ensures Select(Select(orig, WithoutIds(ids)), WithId(job.id)) != []
  {
    SelectMember(orig, WithoutIds(ids));
    SelectMember(Select(orig, WithoutIds(ids)), WithId(job.id));
    assert job in Select(Select(orig, WithoutIds(ids)), WithId(job.id));
  }

  lemma RewriteRight(found: seq<Job>, i: nat, g: Job -> Job)
    requires i < |found| && IdsDistinct(found) && KeepsId(g)
    ensures Select(Map(found[..i], g), Not(WithId(found[i].id))) == Map(found[..i], g)
  {
    MapAt(found[..i], g);
    SelectAll(Map(found[..i], g), Not(WithId(found[i].id)));
  }

  lemma RewriteStep(orig: seq<Job>, found: seq<Job>, i: nat, g: Job -> Job)
    requires i < |found| && IdsDistinct(found) && KeepsId(g) && found[i] in orig
    ensures var table := Select(orig, WithoutIds(Ids(found[..i]))) + Map(found[..i], g);
            && Select(table, WithId(found[i].id)) != []
            && Select(table, Not(WithId(found[i].id))) + [g(found[i])]
               == Select(orig, WithoutIds(Ids(found[..i + 1]))) + Map(found[..i + 1], g)
  {
    var left := Select(orig, WithoutIds(Ids(found[..i])));
    var right := Map(found[..i], g);
    IdsSnoc(found, i);
    WithoutOneMore(orig, Ids(found[..i]), found[i].id);
    StillThere(orig, Ids(found[..i]), found[i]);
    RewriteRight(found, i, g);
    MapSnoc(found, i, g);
    SelectConcat(left, right, Not(WithId(found[i].id)));
    SelectConcat(left, right, WithId(found[i].id));
    RegroupJobs(Select(left, Not(WithId(found[i].id))), right, g(found[i]));
  }

  lemma IdsSnoc(found: seq<Job>, i: nat)
    requires i < |found|
    ensures Ids(found[..i + 1]) == Ids(found[..i]) + {found[i].id}
  {
    assert found[..i + 1] == found[..i] + [found[i]];
  }

  lemma RegroupJobs(a: seq<Job>, b: seq<Job>, job: Job)
    ensures (a + b) + [job] == a + (b + [job])
  {
  }

  lemma DistinctMember(jobs: seq<Job>, a: Job, b: Job)
    requires IdsDistinct(jobs) && a in jobs && b in jobs && a.id == b.id
    ensures a == b
  {
  }

  lemma RewriteEnd(orig: seq<Job>, f: Filter)
    requires IdsDistinct(orig)
    ensures Select(orig, WithoutIds(Ids(Select(orig, f)))) == Select(orig, Not(f))
  {
    var found := Select(orig, f);
    SelectMember(orig, f);
    forall j | j in orig
      ensures WithoutIds(Ids(found))(j) == Not(f)(j)
    {
      if f(j) {
        assert j in found;
      } else if j.id in Ids(found) {
        var x :| x in found && x.id == j.id;
        DistinctMember(orig, x, j);
      }
    }
    SelectCongruent(orig, WithoutIds(Ids(found)), Not(f));
  }

  lemma RewriteBegin(orig: seq<Job>, found: seq<Job>, g: Job -> Job)
    ensures Select(orig, WithoutIds(Ids(found[..0]))) + Map(found[..0], g) == orig
  {
    SelectAll(orig, WithoutIds(Ids(found[..0])));
  }

  lemma AnswerSnoc(s: seq<Job>, job: Job)
    ensures Map(s + [job], AsAnswer()) == Map(s, AsAnswer()) + [AsAnswer()(job)]
  {
    assert (s + [job])[..|s|] == s;
  }

  ghost function ActionsFor(update: Fields, found: seq<Job>): seq<Job> {
    if NeedsAction(update) then Map(found, Edited(update)) else []
  }

  ghost function AnswersFor(update: Fields, found: seq<Job>): seq<Answer> {
    if Suppressed(update) then [] else Map(Map(found, Edited(update)), AsAnswer())
  }

  lemma EvictionsSnoc(requests: seq<Request>, addr: string, update: Fields, found: seq<Job>, i: nat)
    requires i < |found|
    ensures requests + AllEvictions(addr, update, found[..i + 1])
            == requests + AllEvictions(addr, update, found[..i]) + Evictions(addr, update, found[i])
  {
    assert found[..i + 1][..i] == found[..i];
  }

  lemma ActionsSnoc(actions: seq<Job>, update: Fields, found: seq<Job>, i: nat)
    requires i < |found|
    ensures actions + ActionsFor(update, found[..i + 1])
            == actions + ActionsFor(update, found[..i]) + if NeedsAction(update) then [Edited(update)(found[i])] else []
  {
    MapSnoc(found, i, Edited(update));
  }

  lemma AnswersSnoc(update: Fields, found: seq<Job>, i: nat)
    requires i < |found|
    ensures AnswersFor(update, found[..i + 1])
            == AnswersFor(update, found[..i])
               + if Suppressed(update) then [] else [AsAnswer()(Edited(update)(found[i]))]
  {
    MapSnoc(found, i, Edited(update));
    AnswerSnoc(Map(found[..i], Edited(update)), Edited(update)(found[i]));
  }

  lemma ModifiedIs(s: Server, filter: Filter, update: Fields, n: Server)
    requires n.addr == s.addr && n.nextId == s.nextId && n.jobs == Rewritten(s.jobs, filter, Edited(update))
    requires n.requests == s.requests + AllEvictions(s.addr, update, Select(s.jobs, filter))
    requires n.actions == s.actions + ActionsFor(update, Select(s.jobs, filter))
    requires n.outbox == s.outbox + Broadcast(s.addr, AnswersFor(update, Select(s.jobs, filter)))
    ensures n == ExecuteModify(s, filter, update)
  {
  }

  predicate IsUpdatable(tag: Tag) {
    tag.Progress? || tag.Status? || tag.Periodic? || tag.Timestamp? || tag.Tminus? || tag.Result?
  }

  lemma WritesOnly(update: Fields, k: nat)
    requires k <= UPDATABLE_FIELDS
    ensures forall tag :: tag in Writes(update, k) <==> tag in update && exists i :: 0 <= i < k && Updatable(i) == tag
    ensures forall tag :: tag in Writes(update, k) ==> Writes(update, k)[tag] == update[tag]
  {
  }

  lemma WritesAll(update: Fields)
    ensures forall tag :: tag in Writes(update, UPDATABLE_FIELDS) <==> tag in update && IsUpdatable(tag)
    ensures forall tag :: tag in Writes(update, UPDATABLE_FIELDS) ==> Writes(update, UPDATABLE_FIELDS)[tag] == update[tag]
  {
    WritesOnly(update, UPDATABLE_FIELDS);
    assert Updatable(0) == Progress && Updatable(1) == Status && Updatable(2) == Periodic;
    assert Updatable(3) == Timestamp && Updatable(4) == Tminus && Updatable(5) == Result;
  }

  lemma MergeStatus(fields: Fields, update: Fields)
    ensures Text(Merge(fields, update), Status) == if Status in update then update[Status] else Text(fields, Status)
  {
    WritesAll(update);
  }

  class JobServer {
    const addr: string
    var jobs: seq<Job>
    var nextId: nat
    var requests: seq<Request>
    var outbox: seq<Fju>
    var actions: seq<Job>

    constructor (addr: string, nextId: nat)
      ensures State() == Server(addr, [], nextId, [], [], [])
    {
      this.addr := addr;
      this.nextId := nextId;
      jobs, requests, outbox, actions := [], [], [], [];
    }

    function State(): Server
      reads this
    {
      Server(addr, jobs, nextId, requests, outbox, actions)
    }

    // ----- the job API: each call only appends to the request queue

    method JobAddLocal(plainname: string, fields: Fields)
      modifies this
      ensures State() == CallAddLocal(old(State()), plainname, fields)
    {
      var id := nextId;
      nextId := nextId + 1;
      requests := requests + [AddLocal(Job(id, id, plainname, fields))];
    }

    method JobsRemoveLocal(filter: Filter, stopPeriodic: bool)
      modifies `requests
      ensures State() == old(State()).(requests := old(requests) + [RemoveLocal(filter, stopPeriodic)])
    {
      requests := requests + [RemoveLocal(filter, stopPeriodic)];
    }

    method JobsModifyLocal(filter: Filter, update: Fields)
      modifies `requests
      ensures State() == old(State()).(requests := old(requests) + CallModifyLocal(filter, update))
    {
      if Text(update, Status) == "done" {
        var stopPeriodic := Periodic in update && (Text(update, Periodic) == "" || Text(update, Periodic) == "none");
        JobsRemoveLocal(filter, stopPeriodic);
        return;
      }
      requests := requests + [ModifyLocal(filter, update)];
    }

    method JobsRemoveForeign(origin: Origin)
      modifies `requests
      ensures State() == old(State()).(requests := old(requests) + [RemoveForeign(origin)])
    {
      requests := requests + [RemoveForeign(origin)];
    }

    method JobsAddOrModifyForeign(origin: Origin, answer: Answer)
      modifies `requests
      ensures State() == old(State()).(requests := old(requests) + CallAddOrModifyForeign(origin, answer))
    {
      if Text(answer.fields, Status) == "done" {
        JobsRemoveForeign(origin);
        return;
      }
      requests := requests + [AddOrModifyForeign(origin, answer)];
    }

    method JobsSyncAll(target: string)
      modifies `requests
      ensures State() == old(State()).(requests := old(requests) + [SyncAll(target)])
    {
      requests := requests + [SyncAll(target)];
    }

    // ----- the database operations the handlers use

    method Remove(filter: Filter) returns (removed: seq<Job>)
      modifies `jobs
      ensures jobs == Select(old(jobs), Not(filter)) && removed == Select(old(jobs), filter)
    {
      removed := Select(jobs, filter);
      jobs := Select(jobs, Not(filter));
    }

    /** Removes the row with job's id and, if there was one, appends job. */
    method Replace(job: Job)
      modifies `jobs
      ensures jobs == Select(old(jobs), Not(WithId(job.id)))
                      + if Select(old(jobs), WithId(job.id)) != [] then [job] else []
    {
      var removed := Remove(WithId(job.id));
      if removed != [] {
        jobs := jobs + [job];
      }
    }

    // ----- the request handlers

    method AddJob(job: Job)
      modifies this
      ensures State() == ExecuteAdd(old(State()), job)
    {
      var plainname := job.plainname;
      if plainname == "" {
        plainname := "none";
      }
      var row := job.(plainname := plainname);
      jobs := jobs + [row];
      outbox := outbox + [Fju(addr, AllPeers, false, [Answer(row.id, row.plainname, row.fields)])];
    }

    method Finish(job: Job, stopPeriodic: bool) returns (done: Job)
      modifies `actions
      ensures done == Done(stopPeriodic)(job)
      ensures actions == old(actions) + [done]
    {
      done := job.(fields := job.fields[Status := "done"]);
      if stopPeriodic {
        done := done.(fields := done.fields[Periodic := "none"]);
      }
      actions := actions + [done];
    }

    method Send(answers: seq<Answer>)
      modifies `outbox
      ensures outbox == old(outbox) + Broadcast(addr, answers)
    {
      if answers != [] {
        outbox := outbox + [Fju(addr, AllPeers, false, answers)];
      }
    }

    method DeleteJobs(filter: Filter, stopPeriodic: bool)
      modifies this
      ensures State() == ExecuteRemove(old(State()), filter, stopPeriodic)
    {
      var found := Remove(filter);
      var answers := FinishAll(found, stopPeriodic);
      Send(answers);
    }

    method FinishAll(found: seq<Job>, stopPeriodic: bool) returns (answers: seq<Answer>)
      modifies `actions
      ensures actions == old(actions) + Map(found, Done(stopPeriodic))
      ensures answers == Map(Map(found, Done(stopPeriodic)), AsAnswer())
    {
      answers := [];
      ghost var g := Done(stopPeriodic);
      var i := 0;
      while i < |found|
        invariant 0 <= i <= |found|
        invariant actions == old(actions) + Map(found[..i], g)
        invariant answers == Map(Map(found[..i], g), AsAnswer())
      {
        MapSnoc(found, i, g);
        AnswerSnoc(Map(found[..i], g), g(found[i]));
        var job := Finish(found[i], stopPeriodic);
        answers := answers + [AsAnswer()(job)];
        i := i + 1;
      }
      assert found[..|found|] == found;
    }

    /** Queues the removal of the other install and update jobs that are processing for the machine of a launched one. */
    method EvictOthers(fields: Fields, id: nat)
      modifies `requests
      ensures requests == old(requests)
        + if Text(fields, Headertag) == "trigger_action_reinstall" || Text(fields, Headertag) == "trigger_action_update" then
            var others := Others(addr, Text(fields, Macaddress), id);
            [ModifyLocal(others, GROOM), RemoveLocal(others, false)]
          else []
    {
      if Text(fields, Headertag) == "trigger_action_reinstall" || Text(fields, Headertag) == "trigger_action_update" {
        var others := Others(addr, Text(fields, Macaddress), id);
        JobsModifyLocal(others, GROOM);
        JobsRemoveLocal(others, false);
      }
    }

    /** The inner loop of an edit: writes the updatable fields and queues evictions on the way. */
    method WriteFields(job: Job, update: Fields) returns (fields: Fields, send: bool, statusChanged: bool)
      modifies `requests
      ensures fields == Merge(job.fields, update)
      ensures send == !Suppressed(update)
      ensures statusChanged == (Status in update && update[Status] != "")
      ensures requests == old(requests) + Evictions(addr, update, job)
    {
      fields, send, statusChanged := job.fields, true, false;
      var k := 0;
      while k < UPDATABLE_FIELDS
        invariant 0 <= k <= UPDATABLE_FIELDS
        invariant fields == job.fields + Writes(update, k)
        invariant send == (k < 1 || !Suppressed(update))
        invariant Text(fields, Headertag) == Text(job.fields, Headertag)
        invariant Text(fields, Macaddress) == Text(job.fields, Macaddress)
        invariant statusChanged == (k > 1 && Status in update && update[Status] != "")
        invariant requests == old(requests) + if k > 1 then Evictions(addr, update, job) else []
      {
        var field := Updatable(k);
        if field in update {
          var x := update[field];
          statusChanged := statusChanged || (field == Status && x != "");
          fields := fields[field := x];
          if field == Status && x == "launch" {
            EvictOthers(fields, job.id);
          } else if field == Progress && (x == "forward" || x == "groom") {
            send := false;
          }
        }
        k := k + 1;
      }
    }

    /** The body of the edit's loop over the selected jobs. */
    method EditOne(before: Job, update: Fields) returns (stored: Job, send: bool)
      modifies `jobs, `requests, `actions
      ensures stored == Edited(update)(before) && send == !Suppressed(update)
      ensures jobs == Select(old(jobs), Not(WithId(before.id)))
                      + if Select(old(jobs), WithId(before.id)) != [] then [stored] else []
      ensures requests == old(requests) + Evictions(addr, update, before)
      ensures actions == old(actions) + if NeedsAction(update) then [stored] else []
    {
      var fields, statusChanged;
      fields, send, statusChanged := WriteFields(before, update);
      MergeStatus(before.fields, update);
      stored := before.(fields := fields);
      if statusChanged {
        if stored.HasStatus("launch") {
          stored := stored.(fields := stored.fields[Status := "processing"]);
          actions := actions + [stored];
        }
        if stored.HasStatus("wakeup") {
          actions := actions + [stored];
        }
      }
      Replace(stored);
    }

    /** The edit's loop over the selected jobs. */
    method EditAll(found: seq<Job>, update: Fields) returns (answers: seq<Answer>)
      requires IdsDistinct(found) && forall j :: j in found ==> j in jobs
      modifies `jobs, `requests, `actions
      ensures jobs == Select(old(jobs), WithoutIds(Ids(found))) + Map(found, Edited(update))
      ensures requests == old(requests) + AllEvictions(addr, update, found)
      ensures actions == old(actions) + ActionsFor(update, found)
      ensures answers == AnswersFor(update, found)
    {
      answers := [];
      RewriteBegin(jobs, found, Edited(update));
      var i := 0;
      while i < |found|
        invariant 0 <= i <= |found|
        invariant jobs == Select(old(jobs), WithoutIds(Ids(found[..i]))) + Map(found[..i], Edited(update))
        invariant requests == old(requests) + AllEvictions(addr, update, found[..i])
        invariant actions == old(actions) + ActionsFor(update, found[..i])
        invariant answers == AnswersFor(update, found[..i])
        modifies `jobs, `requests, `actions
      {
        EvictionsSnoc(old(requests), addr, update, found, i);
        ActionsSnoc(old(actions), update, found, i);
        AnswersSnoc(update, found, i);
        RewriteStep(old(jobs), found, i, Edited(update));
        var stored, send := EditOne(found[i], update);
        if send {
          answers := answers + [AsAnswer()(stored)];
        }
        i := i + 1;
      }
      assert found[..|found|] == found;
    }

    method ModifyJobs(filter: Filter, update: Fields)
      requires IdsDistinct(jobs)
      modifies this
      ensures State() == ExecuteModify(old(State()), filter, update)
    {
      var found := Select(jobs, filter);
      SelectKeepsDistinct(jobs, filter);
      SelectMember(jobs, filter);
      RewriteEnd(jobs, filter);
      ghost var before := State();
      var answers := EditAll(found, update);
      Send(answers);
      ModifiedIs(before, filter, update, State());
    }

    method DeleteForeignJobs(origin: Origin)
      modifies this
      ensures State() == ExecuteRemoveForeign(old(State()), origin)
    {
      var removed := Remove(OfOrigin(origin));
    }

    method Overwrite(before: Fields, update: Fields) returns (fields: Fields)
      ensures fields == Merge(before, update)
    {
      fields := before;
      var k := 0;
      while k < UPDATABLE_FIELDS
        invariant 0 <= k <= UPDATABLE_FIELDS
        invariant fields == before + Writes(update, k)
      {
        if Updatable(k) in update {
          fields := fields[Updatable(k) := update[Updatable(k)]];
        }
        k := k + 1;
      }
    }

    method OverwriteFound(origin: Origin, answer: Answer, found: seq<Job>)
      requires IdsDistinct(jobs) && found == Select(jobs, OfOrigin(origin))
      modifies this`jobs
      ensures jobs == Rewritten(old(jobs), OfOrigin(origin), Overwritten(answer.fields))
    {
      ghost var g := Overwritten(answer.fields);
      SelectKeepsDistinct(jobs, OfOrigin(origin));
      SelectMember(jobs, OfOrigin(origin));
      RewriteBegin(jobs, found, g);
      var i := 0;
      while i < |found|
        invariant 0 <= i <= |found|
        invariant jobs == Select(old(jobs), WithoutIds(Ids(found[..i]))) + Map(found[..i], g)
      {
        RewriteStep(old(jobs), found, i, g);
        var fields := Overwrite(found[i].fields, answer.fields);
        Replace(found[i].(fields := fields));
        i := i + 1;
      }
      RewriteEnd(old(jobs), OfOrigin(origin));
      assert found[..|found|] == found;
    }

    method AddOrModifyJobs(origin: Origin, answer: Answer)
      requires IdsDistinct(jobs)
      modifies this
      ensures State() == ExecuteAddOrModify(old(State()), origin, answer)
    {
      var found := Select(jobs, OfOrigin(origin));
      if found != [] {
        OverwriteFound(origin, answer, found);
      } else {
        var plainname := answer.plainname;
        if plainname == "" {
          plainname := "none";
        }
        jobs := jobs + [Job(nextId, answer.id, plainname, answer.fields)];
        nextId := nextId + 1;
      }
    }

    method SendAll(target: string)
      modifies this
      ensures State() == ExecuteSyncAll(old(State()), target)
    {
      var mine := Select(jobs, FromServer(addr));
      var answers: seq<Answer> := [];
      var i := 0;
      while i < |mine|
        invariant 0 <= i <= |mine|
        invariant answers == Map(mine[..i], AsAnswer())
        invariant unchanged(this)
      {
        MapSnoc(mine, i, AsAnswer());
        answers := answers + [AsAnswer()(mine[i])];
        i := i + 1;
      }
      assert mine[..|mine|] == mine;
      outbox := outbox + [Fju(addr, OnePeer(target), true, answers)];
    }

    /** One turn of the goroutine's loop: takes the oldest request and runs its handler. */
    method HandleRequest()
      requires requests != [] && IdsDistinct(jobs)
      modifies this
      ensures State() == ExecuteNext(old(State()))
    {
      var request := requests[0];
      requests := requests[1..];
      match request {
        case AddLocal(job) => AddJob(job);
        case RemoveLocal(filter, stopPeriodic) => DeleteJobs(filter, stopPeriodic);
        case ModifyLocal(filter, update) => ModifyJobs(filter, update);
        case RemoveForeign(origin) => DeleteForeignJobs(origin);
        case AddOrModifyForeign(origin, answer) => AddOrModifyJobs(origin, answer);
        case SyncAll(target) => SendAll(target);
      }
    }
  }
}
