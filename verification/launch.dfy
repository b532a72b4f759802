/** At most one install or update job per machine is being processed once the request queue is empty. */
module Launching {
  import opened Common
  import opened Jobs
  import opened JobServers
  import opened Views
  import opened Soundness

  predicate Running(addr: string, j: Job) {
    j.From(addr) && j.HasStatus("processing") && j.InstallOrUpdate()
  }

  predicate SameMachine(p: Job, q: Job) {
    Text(p.fields, Macaddress) == Text(q.fields, Macaddress)
  }

  /** The removal that launching q queues. */
  function Eviction(addr: string, q: Job): Request {
    RemoveLocal(Others(addr, Text(q.fields, Macaddress), q.id), false)
  }

  /** Of two jobs running on one machine, the launch of one has queued the removal of the other. */
  ghost predicate Exclusive(s: Server) {
    forall p, q :: p in s.jobs && q in s.jobs && p.id != q.id && Running(s.addr, p) && Running(s.addr, q) && SameMachine(p, q) ==>
      Eviction(s.addr, p) in s.requests || Eviction(s.addr, q) in s.requests
  }

  /** Jobs become "processing" only by being launched. */
  predicate LaunchOnly(r: Request) {
    match r
    case AddLocal(job) => !job.HasStatus("processing")
    case ModifyLocal(_, update) => Text(update, Status) != "processing"
    case _ => true
  }

  ghost predicate LaunchInv(s: Server) {
    Sound(s) && Exclusive(s) && forall r :: r in s.requests ==> LaunchOnly(r)
  }

  lemma {:induction false} EvictionInAll(addr: string, update: Fields, found: seq<Job>, x: Job)
    requires x in found && Launches(update) && x.InstallOrUpdate()
    ensures Eviction(addr, x) in AllEvictions(addr, update, found)
  {
    var init, last := found[..|found| - 1], found[|found| - 1];
    if x != last {
      EvictionInAll(addr, update, init, x);
    }
  }

  lemma {:induction false} EvictionsLaunchOnly(addr: string, update: Fields, found: seq<Job>)
    ensures forall r :: r in AllEvictions(addr, update, found) ==> LaunchOnly(r)
  {
    if found != [] {
      EvictionsLaunchOnly(addr, update, found[..|found| - 1]);
    }
  }

  /** Where a row of an edited table comes from. */
  lemma EditedRow(jobs: seq<Job>, filter: Filter, g: Job -> Job, y: Job) returns (x: Job)
    requires y in Rewritten(jobs, filter, g)
    ensures x in jobs && ((!filter(x) && y == x) || (filter(x) && y == g(x)))
  {
    SelectMember(jobs, filter);
    SelectMember(jobs, Not(filter));
    MapMember(Select(jobs, filter), g);
    if y in Select(jobs, Not(filter)) {
      x := y;
    } else {
      x :| x in Select(jobs, filter) && y == g(x);
    }
  }

  lemma EditKeepsIdentity(update: Fields, x: Job)
    ensures var y := Edited(update)(x);
            && y.id == x.id && SameMachine(x, y) && x.InstallOrUpdate() == y.InstallOrUpdate()
            && forall addr :: x.From(addr) == y.From(addr)
  {
    MergeKeeps(x.fields, update, Siserver);
    MergeKeeps(x.fields, update, Headertag);
    MergeKeeps(x.fields, update, Macaddress);
  }

  /** A row that is running after an edit was running before, or the edit launched it. */
  lemma RunningAfterEdit(addr: string, update: Fields, x: Job)
    requires Text(update, Status) != "processing" && Running(addr, Edited(update)(x))
    ensures Launches(update) || Running(addr, x)
  {
    EditKeepsIdentity(update, x);
    MergeStatus(x.fields, update);
  }

  /** A running row of the edited table, traced back: it was running, or its eviction has been queued. */
  lemma TraceBack(s: Server, filter: Filter, update: Fields, y: Job) returns (x: Job)
    requires y in Rewritten(s.jobs, filter, Edited(update)) && Running(s.addr, y) && Text(update, Status) != "processing"
    ensures x in s.jobs && x.id == y.id && SameMachine(x, y) && Eviction(s.addr, x) == Eviction(s.addr, y)
    ensures Running(s.addr, x) || Eviction(s.addr, y) in AllEvictions(s.addr, update, Select(s.jobs, filter))
  {
    x := EditedRow(s.jobs, filter, Edited(update), y);
    if filter(x) {
      EditKeepsIdentity(update, x);
      RunningAfterEdit(s.addr, update, x);
      if Launches(update) {
        SelectMember(s.jobs, filter);
        EvictionInAll(s.addr, update, Select(s.jobs, filter), x);
      }
    }
  }

  ghost predicate Evicted(s: Server, p: Job, q: Job) {
    Eviction(s.addr, p) in s.requests || Eviction(s.addr, q) in s.requests
  }

  lemma ExclusivePair(s: Server, p: Job, q: Job)
    requires Exclusive(s) && p in s.jobs && q in s.jobs && p.id != q.id
    requires Running(s.addr, p) && Running(s.addr, q) && SameMachine(p, q)
    ensures Evicted(s, p, q)
  {
  }

  lemma ModifyKeepsExclusive(s: Server, filter: Filter, update: Fields)
    requires s.requests != [] && s.requests[0] == ModifyLocal(filter, update) && LaunchInv(s)
    ensures Exclusive(ExecuteNext(s))
  {
    var t := ExecuteNext(s);
    assert LaunchOnly(s.requests[0]);
    assert forall r :: r in s.requests && r != s.requests[0] ==> r in t.requests;
    forall p, q | p in t.jobs && q in t.jobs && p.id != q.id && Running(t.addr, p) && Running(t.addr, q) && SameMachine(p, q)
      ensures Evicted(t, p, q)
    {
      var px := TraceBack(s, filter, update, p);
      var qx := TraceBack(s, filter, update, q);
      if Running(s.addr, px) && Running(s.addr, qx) {
        ExclusivePair(s, px, qx);
      }
    }
  }

  lemma RemoveKeepsExclusive(s: Server, filter: Filter, stopPeriodic: bool)
    requires s.requests != [] && s.requests[0] == RemoveLocal(filter, stopPeriodic) && LaunchInv(s)
    ensures Exclusive(ExecuteNext(s))
  {
    var t := ExecuteNext(s);
    SelectMember(s.jobs, Not(filter));
    assert forall r :: r in s.requests && r != s.requests[0] ==> r in t.requests;
    forall p, q | p in t.jobs && q in t.jobs && p.id != q.id && Running(t.addr, p) && Running(t.addr, q) && SameMachine(p, q)
      ensures Evicted(t, p, q)
    {
      ExclusivePair(s, p, q);
      assert Others(s.addr, Text(q.fields, Macaddress), q.id)(p) && Others(s.addr, Text(p.fields, Macaddress), p.id)(q);
    }
  }

  /** Requests that neither edit nor remove local rows add no running row and queue nothing. */
  lemma OtherKeepsExclusive(s: Server)
    requires s.requests != [] && LaunchInv(s) && !s.requests[0].ModifyLocal? && !s.requests[0].RemoveLocal?
    ensures Exclusive(ExecuteNext(s))
  {
    var r, t := s.requests[0], ExecuteNext(s);
    SoundPop(s);
    assert LaunchOnly(r);
    assert forall x :: x in s.requests && x != r ==> x in t.requests;
    forall y | y in t.jobs && Running(t.addr, y)
      ensures y in s.jobs
    {
      match r
      case AddLocal(_) =>
      case RemoveForeign(origin) => SelectMember(s.jobs, Not(OfOrigin(origin)));
      case AddOrModifyForeign(origin, answer) =>
        if Select(s.jobs, OfOrigin(origin)) != [] {
          var x := EditedRow(s.jobs, OfOrigin(origin), Overwritten(answer.fields), y);
          MergeKeeps(x.fields, answer.fields, Siserver);
        }
      case SyncAll(_) =>
    }
    forall p, q | p in t.jobs && q in t.jobs && p.id != q.id && Running(t.addr, p) && Running(t.addr, q) && SameMachine(p, q)
      ensures Evicted(t, p, q)
    {
      ExclusivePair(s, p, q);
    }
  }

  lemma LaunchStep(s: Server)
    requires LaunchInv(s) && s.requests != []
    ensures LaunchInv(ExecuteNext(s))
  {
    SoundExecuteNext(s);
    match s.requests[0] {
      case ModifyLocal(filter, update) =>
        ModifyKeepsExclusive(s, filter, update);
        EvictionsLaunchOnly(s.addr, update, Select(s.jobs, filter));
      case RemoveLocal(filter, stopPeriodic) => RemoveKeepsExclusive(s, filter, stopPeriodic);
      case _ => OtherKeepsExclusive(s);
    }
  }

  // ----- runs of one server

  ghost predicate Step(s: Server, t: Server) {
    || (s.requests != [] && t == ExecuteNext(s))
    || (exists rs :: Called(s, rs, t))
    || (exists plainname, fields :: Added(s, plainname, fields, t))
  }

  ghost predicate Called(s: Server, rs: seq<Request>, t: Server) {
    && t == s.(requests := s.requests + rs)
    && forall r :: r in rs ==>
         RequestOk(s.addr, s.nextId, ForeignIds(s.addr, s.jobs), r) && !r.AddLocal? && LaunchOnly(r)
  }

  ghost predicate Added(s: Server, plainname: string, fields: Fields, t: Server) {
    && t == CallAddLocal(s, plainname, fields)
    && Text(fields, Siserver) == s.addr && Text(fields, Status) != "done" && Text(fields, Status) != "processing"
  }

  lemma StepKeepsLaunchInv(s: Server, t: Server)
    requires LaunchInv(s) && Step(s, t)
    ensures LaunchInv(t)
  {
    if s.requests != [] && t == ExecuteNext(s) {
      LaunchStep(s);
    } else if rs :| Called(s, rs, t) {
      SoundEnqueue(s, rs);
    } else {
      var plainname, fields :| Added(s, plainname, fields, t);
      SoundCallAddLocal(s, plainname, fields);
    }
  }

  /** Throughout a run, of two jobs running on one machine one is about to be removed. */
  lemma {:induction false} RunIsExclusive(states: seq<Server>, n: nat)
    requires n < |states| && LaunchInv(states[0])
    requires forall i :: 0 <= i < |states| - 1 ==> Step(states[i], states[i + 1])
    ensures LaunchInv(states[n])
  {
    if n > 0 {
      RunIsExclusive(states, n - 1);
      StepKeepsLaunchInv(states[n - 1], states[n]);
    }
  }

  /** With an empty request queue, no two install or update jobs are being processed for one machine. */
  lemma DrainedRunsOne(states: seq<Server>, n: nat, p: Job, q: Job)
    requires n < |states| && LaunchInv(states[0])
    requires forall i :: 0 <= i < |states| - 1 ==> Step(states[i], states[i + 1])
    requires states[n].requests == [] && p in states[n].jobs && q in states[n].jobs
    requires Running(states[n].addr, p) && Running(states[n].addr, q) && SameMachine(p, q)
    ensures p == q
  {
    RunIsExclusive(states, n);
    if p.id == q.id {
      SameKeySameRow(states[n].jobs, IdOf(), p, q);
    }
  }
}
