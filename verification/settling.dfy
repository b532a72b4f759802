/** What an edit and what a peer's message have done to the table once the requests they queued are executed. */
module Settling {
  import opened Common
  import opened Jobs
  import opened JobServers
  import opened Views
  import opened ForeignUpdates
  import opened RequestMeaning
  import Sequences

  /** When the goroutine has executed all requests, which are at most n, the server is u. */
  ghost predicate Settles(s: Server, n: nat, u: Server)
    decreases n
  {
    if s.requests == [] then u == s else n > 0 && Settles(ExecuteNext(s), n - 1, u)
  }

  predicate InstallsOrUpdates(fields: Fields) {
    Text(fields, Headertag) in {"trigger_action_reinstall", "trigger_action_update"}
  }

  /** An install or update job of this server is being processed. */
  predicate Busy(addr: string, y: Job) {
    Text(y.fields, Siserver) == addr && Text(y.fields, Status) == "processing" && InstallsOrUpdates(y.fields)
  }

  /** Job y has to give way to another install or update job of its machine that is launched. */
  predicate Yields(addr: string, y: Job, l: Job) {
    && Busy(addr, y) && InstallsOrUpdates(l.fields)
    && Text(l.fields, Macaddress) == Text(y.fields, Macaddress) && l.id != y.id
  }

  ghost predicate Displaced(addr: string, launched: seq<Job>, y: Job) {
    exists l :: l in launched && Yields(addr, y, l)
  }

  ghost predicate DisplacedBy(addr: string, jobs: seq<Job>, filter: Filter, update: Fields, y: Job) {
    Text(update, Status) == "launch" && exists l :: l in jobs && filter(l) && Yields(addr, y, l)
  }

  // ----- an edit that is followed by the removal of the same rows

  predicate Unlaunching(update: Fields) {
    Status !in update
  }

  lemma StaysSelected(addr: string, update: Fields, j: Job)
    requires Unlaunching(update)
    ensures var y := Edited(update)(j);
      y.id == j.id && Busy(addr, y) == Busy(addr, j) && Text(y.fields, Macaddress) == Text(j.fields, Macaddress)
  {
    MergeMeans(j.fields, update, Siserver);
    MergeMeans(j.fields, update, Status);
    MergeMeans(j.fields, update, Headertag);
    MergeMeans(j.fields, update, Macaddress);
  }

  lemma {:induction false} NoEvictions(addr: string, update: Fields, found: seq<Job>)
    requires Text(update, Status) != "launch"
    ensures AllEvictions(addr, update, found) == []
  {
    if found != [] {
      NoEvictions(addr, update, found[..|found| - 1]);
    }
  }

  lemma MarkingStep(s: Server, filter: Filter, update: Fields, second: Request, rest: seq<Request>)
    requires s.requests == [ModifyLocal(filter, update), second] + rest && Unlaunching(update)
    ensures var t := ExecuteNext(s);
      && t.requests == [second] + rest && t.addr == s.addr && t.nextId == s.nextId
      && t.jobs == Rewritten(s.jobs, filter, Edited(update)) && t.actions == s.actions
  {
    NoEvictions(s.addr, update, Select(s.jobs, filter));
    assert s.requests[1..] == [second] + rest;
    assert [second] + rest + [] == [second] + rest && s.actions + [] == s.actions;
  }

  lemma RemovingStep(t: Server, filter: Filter, stopPeriodic: bool, rest: seq<Request>)
    requires t.requests == [RemoveLocal(filter, stopPeriodic)] + rest
    ensures var u := ExecuteNext(t);
      && u.requests == rest && u.addr == t.addr && u.nextId == t.nextId
      && u.jobs == Select(t.jobs, Not(filter)) && u.actions == t.actions + Map(Select(t.jobs, filter), Done(stopPeriodic))
  {
    assert t.requests[1..] == rest;
  }

  lemma MarkingSteps(s: Server, filter: Filter, update: Fields, stopPeriodic: bool, rest: seq<Request>)
    requires s.requests == [ModifyLocal(filter, update), RemoveLocal(filter, stopPeriodic)] + rest
    requires Unlaunching(update)
    ensures ExecuteNext(s).requests != []
    ensures var t := ExecuteNext(ExecuteNext(s));
      && t.requests == rest && t.addr == s.addr && t.nextId == s.nextId
      && t.jobs == Select(Rewritten(s.jobs, filter, Edited(update)), Not(filter))
      && t.actions == s.actions + Map(Select(Rewritten(s.jobs, filter, Edited(update)), filter), Done(stopPeriodic))
  {
    MarkingStep(s, filter, update, RemoveLocal(filter, stopPeriodic), rest);
    RemovingStep(ExecuteNext(s), filter, stopPeriodic, rest);
  }

  /** Marking rows and then removing them removes them. */
  lemma MarkedAndRemoved(s: Server, filter: Filter, update: Fields, stopPeriodic: bool, rest: seq<Request>, y: Job)
    requires s.requests == [ModifyLocal(filter, update), RemoveLocal(filter, stopPeriodic)] + rest
    requires Unlaunching(update) && forall j :: filter(Edited(update)(j)) == filter(j)
    ensures ExecuteNext(s).requests != [] && (y in ExecuteNext(ExecuteNext(s)).jobs <==> y in s.jobs && !filter(y))
  {
    MarkingSteps(s, filter, update, stopPeriodic, rest);
    RewrittenMember(s.jobs, filter, Edited(update), y);
    SelectMember(Rewritten(s.jobs, filter, Edited(update)), Not(filter));
  }

  // ----- the removals that launches queue

  lemma EvictionsOneMore(addr: string, update: Fields, found: seq<Job>, last: Job)
    ensures AllEvictions(addr, update, found + [last]) == AllEvictions(addr, update, found) + Evictions(addr, update, last)
  {
    assert (found + [last])[..|found|] == found;
  }

  lemma {:induction false} EvictionsCons(addr: string, update: Fields, l: Job, rest: seq<Job>)
    ensures AllEvictions(addr, update, [l] + rest) == Evictions(addr, update, l) + AllEvictions(addr, update, rest)
    decreases |rest|
  {
    if rest == [] {
      EvictionsOneMore(addr, update, [], l);
      assert [l] + rest == [] + [l];
    } else {
      var init, last := rest[..|rest| - 1], rest[|rest| - 1];
      EvictionsCons(addr, update, l, init);
      EvictionsOneMore(addr, update, init, last);
      EvictionsOneMore(addr, update, [l] + init, last);
      assert [l] + rest == ([l] + init) + [last] && rest == init + [last];
      Sequences.Regroup(Evictions(addr, update, l), AllEvictions(addr, update, init), Evictions(addr, update, last));
    }
  }

  lemma GivesWay(addr: string, l: Job, y: Job)
    requires InstallsOrUpdates(l.fields)
    ensures Others(addr, Text(l.fields, Macaddress), l.id)(y) <==> Yields(addr, y, l)
  {
  }

  lemma OneEviction(s: Server, others: Filter, l: Job, rest: seq<Request>, y: Job)
    requires InstallsOrUpdates(l.fields) && others == Others(s.addr, Text(l.fields, Macaddress), l.id)
    requires s.requests == [ModifyLocal(others, GROOM), RemoveLocal(others, false)] + rest
    ensures ExecuteNext(s).requests != []
    ensures var t := ExecuteNext(ExecuteNext(s));
      t.requests == rest && t.addr == s.addr && (y in t.jobs <==> y in s.jobs && !Yields(s.addr, y, l))
  {
    forall j
      ensures others(Edited(GROOM)(j)) == others(j)
    {
      StaysSelected(s.addr, GROOM, j);
      GivesWay(s.addr, l, j);
      GivesWay(s.addr, l, Edited(GROOM)(j));
    }
    MarkingSteps(s, others, GROOM, false, rest);
    MarkedAndRemoved(s, others, GROOM, false, rest, y);
    GivesWay(s.addr, l, y);
  }

  lemma DisplacedCons(addr: string, found: seq<Job>, y: Job)
    requires found != []
    ensures Displaced(addr, found, y) <==> Yields(addr, y, found[0]) || Displaced(addr, found[1..], y)
  {
    assert forall l :: l in found <==> l == found[0] || l in found[1..];
  }

  lemma TwoOf(s: Server, n: nat, u: Server)
    requires s.requests != [] && Settles(s, n, u) && ExecuteNext(s).requests != []
    ensures n >= 2 && Settles(ExecuteNext(ExecuteNext(s)), n - 2, u)
  {
    assert Settles(ExecuteNext(s), n - 1, u);
  }

  lemma EvictionQueued(s: Server, update: Fields, l: Job, rest: seq<Request>) returns (others: Filter)
    requires Launches(update) && s.requests == Evictions(s.addr, update, l) + rest
    ensures others == Others(s.addr, Text(l.fields, Macaddress), l.id)
    ensures InstallsOrUpdates(l.fields) ==> s.requests == [ModifyLocal(others, GROOM), RemoveLocal(others, false)] + rest
    ensures !InstallsOrUpdates(l.fields) ==> s.requests == rest
  {
    others := Others(s.addr, Text(l.fields, Macaddress), l.id);
  }

  /** The removal queued for one launched job is executed. */
  lemma EvictionExecuted(s: Server, others: Filter, l: Job, rest: seq<Request>, n: nat, u: Server, y: Job)
      returns (t: Server, m: nat)
    requires InstallsOrUpdates(l.fields) && others == Others(s.addr, Text(l.fields, Macaddress), l.id)
    requires s.requests == [ModifyLocal(others, GROOM), RemoveLocal(others, false)] + rest && Settles(s, n, u)
    ensures Settles(t, m, u) && t.requests == rest && t.addr == s.addr
    ensures y in t.jobs <==> y in s.jobs && !Yields(s.addr, y, l)
  {
    OneEviction(s, others, l, rest, y);
    TwoOf(s, n, u);
    t, m := ExecuteNext(ExecuteNext(s)), n - 2;
  }

  /** One launched job's removal is executed, if there is one. */
  lemma FirstEviction(s: Server, update: Fields, l: Job, rest: seq<Request>, n: nat, u: Server, y: Job)
      returns (t: Server, m: nat)
    requires Launches(update) && s.requests == Evictions(s.addr, update, l) + rest && Settles(s, n, u)
    ensures Settles(t, m, u) && t.requests == rest && t.addr == s.addr
    ensures y in t.jobs <==> y in s.jobs && !Yields(s.addr, y, l)
  {
    var others := EvictionQueued(s, update, l, rest);
    if InstallsOrUpdates(l.fields) {
      t, m := EvictionExecuted(s, others, l, rest, n, u, y);
    } else {
      t, m := s, n;
    }
  }

  /** Once the removals queued for the launched jobs are executed, exactly the displaced rows are gone. */
  lemma {:induction false} EvictionsSettle(s: Server, update: Fields, found: seq<Job>, n: nat, u: Server, y: Job)
    requires Launches(update) && s.requests == AllEvictions(s.addr, update, found)
    requires Settles(s, n, u)
    ensures y in u.jobs <==> y in s.jobs && !Displaced(s.addr, found, y)
    decreases |found|
  {
    if found != [] {
      EvictionsCons(s.addr, update, found[0], found[1..]);
      assert [found[0]] + found[1..] == found;
      DisplacedCons(s.addr, found, y);
      var t, m := FirstEviction(s, update, found[0], AllEvictions(s.addr, update, found[1..]), n, u, y);
      EvictionsSettle(t, update, found[1..], m, u, y);
    }
  }

  lemma DisplacedSelected(addr: string, jobs: seq<Job>, filter: Filter, update: Fields, y: Job)
    requires Launches(update)
    ensures Displaced(addr, Select(jobs, filter), y) <==> DisplacedBy(addr, jobs, filter, update, y)
  {
    SelectMember(jobs, filter);
    assert forall l :: l in Select(jobs, filter) <==> l in jobs && filter(l);
  }

  lemma AfterFirst(s: Server, filter: Filter, update: Fields, n: nat, u: Server) returns (t: Server, m: nat)
    requires s.requests == [ModifyLocal(filter, update)] && Settles(s, n, u)
    ensures Settles(t, m, u)
    ensures t.requests == AllEvictions(s.addr, update, Select(s.jobs, filter)) && t.addr == s.addr
    ensures t.jobs == Rewritten(s.jobs, filter, Edited(update))
  {
    t, m := ExecuteNext(s), n - 1;
    assert s.requests[1..] == [];
  }

  /** The requests that the first step leaves are those for the launched jobs. */
  lemma RestSettles(t: Server, jobs: seq<Job>, filter: Filter, update: Fields, n: nat, u: Server, y: Job)
    requires t.requests == AllEvictions(t.addr, update, Select(jobs, filter)) && Settles(t, n, u)
    ensures y in u.jobs <==> y in t.jobs && !DisplacedBy(t.addr, jobs, filter, update, y)
  {
    if Launches(update) {
      EvictionsSettle(t, update, Select(jobs, filter), n, u, y);
      DisplacedSelected(t.addr, jobs, filter, update, y);
    } else {
      NoEvictions(t.addr, update, Select(jobs, filter));
    }
  }

  lemma RewrittenSettles(s: Server, filter: Filter, update: Fields, n: nat, u: Server, y: Job)
    requires s.requests == [ModifyLocal(filter, update)] && Settles(s, n, u)
    ensures y in u.jobs <==>
      y in Rewritten(s.jobs, filter, Edited(update)) && !DisplacedBy(s.addr, s.jobs, filter, update, y)
  {
    var t, m := AfterFirst(s, filter, update, n, u);
    RestSettles(t, s.jobs, filter, update, m, u, y);
  }

  /**
   * Once an edit and what it queued are executed, the table holds exactly the unselected rows and the edited
   * versions of the selected ones, without the rows that have to give way to a job that was launched.
   */
  lemma EditSettles(s: Server, filter: Filter, update: Fields, n: nat, u: Server, y: Job)
    requires s.requests == [ModifyLocal(filter, update)] && Settles(s, n, u)
    ensures y in u.jobs <==>
      EditedFrom(s.jobs, filter, update, true, y) && !DisplacedBy(s.addr, s.jobs, filter, update, y)
  {
    EditedRows(s.jobs, filter, update, y);
    RewrittenSettles(s, filter, update, n, u, y);
  }

  lemma KeepsPlace(s: Server, filter: Filter, update: Fields, j: Job, y: Job)
    requires IdsDistinct(s.jobs) && j in s.jobs && y.id == j.id && EditedFrom(s.jobs, filter, update, true, y)
    ensures if filter(j) then RowAfter(j, y, update, true) else y == j
  {
    var x :| x in s.jobs && if filter(x) then RowAfter(x, y, update, true) else y == x;
    DistinctMember(s.jobs, j, x);
  }

  /**
   * A row that a launch did not select is gone exactly if it is an install or update job of this server in
   * "processing" whose machine is that of another such job that was launched, and is otherwise unchanged.
   */
  lemma LaunchDisplaces(s: Server, filter: Filter, update: Fields, n: nat, u: Server, j: Job)
    requires IdsDistinct(s.jobs) && s.requests == [ModifyLocal(filter, update)] && Settles(s, n, u)
    requires j in s.jobs && !filter(j)
    ensures var gone := Text(update, Status) == "launch" && Busy(s.addr, j)
                        && exists l :: l in s.jobs && filter(l) && InstallsOrUpdates(l.fields)
                                       && Text(l.fields, Macaddress) == Text(j.fields, Macaddress);
      && (gone ==> forall y :: y in u.jobs ==> y.id != j.id)
      && (!gone ==> j in u.jobs && forall y :: y in u.jobs && y.id == j.id ==> y == j)
  {
    forall l | l in s.jobs && filter(l)
      ensures l.id != j.id
    {
      if l.id == j.id {
        DistinctMember(s.jobs, j, l);
      }
    }
    assert DisplacedBy(s.addr, s.jobs, filter, update, j) <==>
      Text(update, Status) == "launch" && exists l :: l in s.jobs && filter(l) && Yields(s.addr, j, l);
    EditSettles(s, filter, update, n, u, j);
    assert EditedFrom(s.jobs, filter, update, true, j);
    forall y | y in u.jobs && y.id == j.id
      ensures y == j
    {
      EditSettles(s, filter, update, n, u, y);
      KeepsPlace(s, filter, update, j, y);
    }
  }

  // ----- a peer's message about one job

  /** The server that an answer is about. */
  function Owner(source: string, a: Answer): string {
    if Text(a.fields, Siserver) == "localhost" then source else Text(a.fields, Siserver)
  }

  /** The rows that an answer about a job of this server means: by id for a go-susi, else by kind and machine. */
  predicate Meant(addr: string, gosusi: bool, a: Answer, j: Job) {
    && Text(j.fields, Siserver) == addr
    && if gosusi then j.id == a.id
       else Text(j.fields, Headertag) == Text(a.fields, Headertag) && Text(j.fields, Macaddress) == Text(a.fields, Macaddress)
  }

  ghost predicate MeantAfter(addr: string, jobs: seq<Job>, gosusi: bool, a: Answer, y: Job) {
    exists j :: j in jobs && if Meant(addr, gosusi, a, j) then RowAfter(j, y, a.fields, true) else y == j
  }

  /** Row y gives way to a meant job that the peer launches. */
  ghost predicate DisplacedByPeer(addr: string, jobs: seq<Job>, gosusi: bool, a: Answer, y: Job) {
    Text(a.fields, Status) == "launch" && exists l :: l in jobs && Meant(addr, gosusi, a, l) && Yields(addr, y, l)
  }

  lemma OneAnswer(addr: string, legal: string -> bool, gosusi: bool, m: Fju, a: Answer)
    requires legal(m.source) && legal(Owner(m.source, a)) && !m.syncAll && m.answers == [a]
    ensures MessageRequests(addr, legal, gosusi, m) == UpdateRequests(addr, gosusi, m.source, Addressed(m.source, a))
    ensures Text(Addressed(m.source, a).fields, Siserver) == Owner(m.source, a)
  {
    var b := Addressed(m.source, a);
    assert m.answers[1..] == [];
    assert LegalAnswer(legal, m.source, m.answers[0]);
    var rs := AllRequests(addr, legal, gosusi, m.source, m.answers);
    var rest := AllRequests(addr, legal, gosusi, m.source, m.answers[1..]);
    assert rest == [];
    assert m.answers[0] == a;
    assert rs == UpdateRequests(addr, gosusi, m.source, b) + rest;
    assert [] + rs == rs;
  }

  lemma MeantIs(addr: string, gosusi: bool, source: string, a: Answer, j: Job)
    ensures OwnJob(addr, gosusi, Addressed(source, a))(j) == Meant(addr, gosusi, a, j)
  {
  }

  lemma OwnRequests(addr: string, legal: string -> bool, gosusi: bool, m: Fju, a: Answer)
    requires legal(m.source) && legal(addr) && Owner(m.source, a) == addr && !m.syncAll && m.answers == [a]
    ensures var b := Addressed(m.source, a);
      MessageRequests(addr, legal, gosusi, m)
      == if Text(a.fields, Status) == "done" then [RemoveLocal(OwnJob(addr, gosusi, b), true)]
         else [ModifyLocal(OwnJob(addr, gosusi, b), b.fields)]
  {
    OneAnswer(addr, legal, gosusi, m, a);
  }

  lemma AddressedAfter(source: string, a: Answer, j: Job, y: Job, launched: bool)
    ensures RowAfter(j, y, Addressed(source, a).fields, launched) <==> RowAfter(j, y, a.fields, launched)
  {
    forall tag
      ensures TagAfter(j.fields, y.fields, Addressed(source, a).fields, launched, tag)
          <==> TagAfter(j.fields, y.fields, a.fields, launched, tag)
    {
    }
  }

  lemma MeantRows(addr: string, jobs: seq<Job>, gosusi: bool, source: string, a: Answer, y: Job)
    ensures var b := Addressed(source, a);
      && (EditedFrom(jobs, OwnJob(addr, gosusi, b), b.fields, true, y) <==> MeantAfter(addr, jobs, gosusi, a, y))
      && (DisplacedBy(addr, jobs, OwnJob(addr, gosusi, b), b.fields, y) <==> DisplacedByPeer(addr, jobs, gosusi, a, y))
  {
    var filter := OwnJob(addr, gosusi, Addressed(source, a));
    forall j
      ensures filter(j) == Meant(addr, gosusi, a, j)
      ensures RowAfter(j, y, Addressed(source, a).fields, true) <==> RowAfter(j, y, a.fields, true)
    {
      MeantIs(addr, gosusi, source, a, j);
      AddressedAfter(source, a, j, y, true);
    }
  }

  /** A peer's change of a job of this server: exactly the meant rows take the answer's editable fields. */
  lemma OwnJobChanges(s: Server, legal: string -> bool, gosusi: bool, m: Fju, a: Answer, n: nat, u: Server, y: Job)
    requires legal(m.source) && legal(s.addr) && Owner(m.source, a) == s.addr && !m.syncAll && m.answers == [a]
    requires s.requests == MessageRequests(s.addr, legal, gosusi, m) && Settles(s, n, u)
    requires Text(a.fields, Status) != "done"
    ensures y in u.jobs <==>
      MeantAfter(s.addr, s.jobs, gosusi, a, y) && !DisplacedByPeer(s.addr, s.jobs, gosusi, a, y)
  {
    var b := Addressed(m.source, a);
    OwnRequests(s.addr, legal, gosusi, m, a);
    EditSettles(s, OwnJob(s.addr, gosusi, b), b.fields, n, u, y);
    MeantRows(s.addr, s.jobs, gosusi, m.source, a, y);
  }

  /** A peer that says a job of this server is done cancels exactly the meant rows, and their repetition too. */
  lemma OwnJobCancelled(s: Server, legal: string -> bool, gosusi: bool, m: Fju, a: Answer, n: nat, u: Server, y: Job)
    requires legal(m.source) && legal(s.addr) && Owner(m.source, a) == s.addr && !m.syncAll && m.answers == [a]
    requires s.requests == MessageRequests(s.addr, legal, gosusi, m) && Settles(s, n, u)
    requires Text(a.fields, Status) == "done"
    ensures
      && (y in u.jobs <==> y in s.jobs && !Meant(s.addr, gosusi, a, y))
      && s.actions <= u.actions
      && (y in u.actions[|s.actions|..] <==> exists j :: j in s.jobs && Meant(s.addr, gosusi, a, j) && GoneAs(j, y, true))
  {
    var filter := OwnJob(s.addr, gosusi, Addressed(m.source, a));
    OwnRequests(s.addr, legal, gosusi, m, a);
    RemoveMeans(s, filter, true);
    LastStep(s, n, u);
    forall j
      ensures filter(j) == Meant(s.addr, gosusi, a, j)
    {
      MeantIs(s.addr, gosusi, m.source, a, j);
    }
    assert Removed(s.jobs, filter, true)(y) <==> RemovedFrom(s.jobs, filter, true, y);
  }

  // ----- a peer's message about a job of its own

  /** The peer has started an install or update job. */
  predicate Starts(a: Answer) {
    Text(a.fields, Status) == "processing" && InstallsOrUpdates(a.fields)
  }

  /** A running job of this server that gives way to the peer's. */
  predicate Outrun(addr: string, a: Answer, j: Job) {
    Starts(a) && Busy(addr, j) && Text(j.fields, Macaddress) == Text(a.fields, Macaddress)
  }

  /** An outrun job as it is acted on: forwarded, done and no longer periodic. */
  predicate CancelledAs(j: Job, y: Job) {
    SameJob(j, y) && y.fields == j.fields + map[Progress := "forward", Status := "done", Periodic := "none"]
  }

  lemma ForwardedAs(j: Job, y: Job)
    ensures GoneAs(Edited(FORWARD)(j), y, true) <==> CancelledAs(j, y)
  {
    var z := Edited(FORWARD)(j).fields;
    forall tag
      ensures TagAfter(j.fields, z, FORWARD, true, tag)
    {
      MergeMeans(j.fields, FORWARD, tag);
    }
    assert z == j.fields + FORWARD by {
      forall tag
        ensures (tag in z <==> tag in j.fields + FORWARD) && (tag in z ==> z[tag] == (j.fields + FORWARD)[tag])
      {
        assert TagAfter(j.fields, z, FORWARD, true, tag);
      }
    }
    assert z + map[Status := "done", Periodic := "none"]
        == j.fields + map[Progress := "forward", Status := "done", Periodic := "none"];
  }

  lemma OurRows(addr: string, a: Answer, j: Job)
    requires Starts(a)
    ensures var ours := LocalProcessing(addr, Text(a.fields, Macaddress));
      ours(j) == Outrun(addr, a, j) && ours(Edited(FORWARD)(j)) == ours(j)
  {
    StaysSelected(addr, FORWARD, j);
  }

  ghost predicate CancelledFrom(addr: string, jobs: seq<Job>, a: Answer, y: Job) {
    exists j :: j in jobs && Outrun(addr, a, j) && CancelledAs(j, y)
  }

  ghost function CancelledRows(addr: string, jobs: seq<Job>, a: Answer): Job -> bool {
    y => CancelledFrom(addr, jobs, a, y)
  }

  /** The rows removed after having been marked. */
  lemma MarkedGone(addr: string, jobs: seq<Job>, a: Answer, y: Job)
    requires Starts(a)
    ensures var ours := LocalProcessing(addr, Text(a.fields, Macaddress));
      y in Map(Select(Rewritten(jobs, ours, Edited(FORWARD)), ours), Done(true)) <==> CancelledFrom(addr, jobs, a, y)
  {
    var ours := LocalProcessing(addr, Text(a.fields, Macaddress));
    var marked := Rewritten(jobs, ours, Edited(FORWARD));
    GoneRows(marked, ours, true, y);
    if RemovedFrom(marked, ours, true, y) {
      var x :| x in marked && ours(x) && GoneAs(x, y, true);
      RewrittenMember(jobs, ours, Edited(FORWARD), x);
      var j :| j in jobs && if ours(j) then x == Edited(FORWARD)(j) else x == j;
      OurRows(addr, a, j);
      ForwardedAs(j, y);
    }
    if CancelledFrom(addr, jobs, a, y) {
      var j :| j in jobs && Outrun(addr, a, j) && CancelledAs(j, y);
      OurRows(addr, a, j);
      ForwardedAs(j, y);
      RewrittenMember(jobs, ours, Edited(FORWARD), Edited(FORWARD)(j));
      assert ours(Edited(FORWARD)(j));
    }
  }

  /** The requests that cancel the outrun jobs have been executed. */
  ghost predicate Cancelled(s: Server, t: Server, a: Answer) {
    && t.addr == s.addr && t.nextId == s.nextId
    && (forall y :: y in t.jobs <==> y in s.jobs && !Outrun(s.addr, a, y))
    && Acts(s, t, CancelledRows(s.addr, s.jobs, a))
  }

  lemma OurRowsAll(addr: string, a: Answer)
    requires Starts(a)
    ensures var ours := LocalProcessing(addr, Text(a.fields, Macaddress));
      forall j :: ours(j) == Outrun(addr, a, j) && ours(Edited(FORWARD)(j)) == ours(j)
  {
    forall j {
      OurRows(addr, a, j);
    }
  }

  lemma OurJobsGone(s: Server, a: Answer, rest: seq<Request>, y: Job)
    requires Starts(a)
    requires var ours := LocalProcessing(s.addr, Text(a.fields, Macaddress));
      s.requests == [ModifyLocal(ours, FORWARD), RemoveLocal(ours, true)] + rest
    ensures ExecuteNext(s).requests != []
    ensures y in ExecuteNext(ExecuteNext(s)).jobs <==> y in s.jobs && !Outrun(s.addr, a, y)
  {
    OurRowsAll(s.addr, a);
    MarkedAndRemoved(s, LocalProcessing(s.addr, Text(a.fields, Macaddress)), FORWARD, true, rest, y);
  }

  lemma AppendedActs(s: Server, t: Server, rows: seq<Job>, acted: Job -> bool)
    requires t.actions == s.actions + rows && forall y :: y in rows <==> acted(y)
    ensures Acts(s, t, acted)
  {
    assert t.actions[|s.actions|..] == rows;
  }

  lemma OurJobsActedOn(s: Server, a: Answer, rest: seq<Request>)
    requires Starts(a)
    requires var ours := LocalProcessing(s.addr, Text(a.fields, Macaddress));
      s.requests == [ModifyLocal(ours, FORWARD), RemoveLocal(ours, true)] + rest
    ensures Acts(s, ExecuteNext(ExecuteNext(s)), CancelledRows(s.addr, s.jobs, a))
  {
    var ours := LocalProcessing(s.addr, Text(a.fields, Macaddress));
    var rows := Map(Select(Rewritten(s.jobs, ours, Edited(FORWARD)), ours), Done(true));
    MarkingSteps(s, ours, FORWARD, true, rest);
    forall y
      ensures y in rows <==> CancelledRows(s.addr, s.jobs, a)(y)
    {
      MarkedGone(s.addr, s.jobs, a, y);
    }
    AppendedActs(s, ExecuteNext(ExecuteNext(s)), rows, CancelledRows(s.addr, s.jobs, a));
  }

  lemma OursCancelled(s: Server, a: Answer, rest: seq<Request>)
    requires Starts(a)
    requires var ours := LocalProcessing(s.addr, Text(a.fields, Macaddress));
      s.requests == [ModifyLocal(ours, FORWARD), RemoveLocal(ours, true)] + rest
    ensures var t := ExecuteNext(ExecuteNext(s));
      ExecuteNext(s).requests != [] && t.requests == rest && Cancelled(s, t, a)
  {
    var t := ExecuteNext(ExecuteNext(s));
    MarkingSteps(s, LocalProcessing(s.addr, Text(a.fields, Macaddress)), FORWARD, true, rest);
    OurJobsActedOn(s, a, rest);
    forall y
      ensures y in t.jobs <==> y in s.jobs && !Outrun(s.addr, a, y)
    {
      OurJobsGone(s, a, rest, y);
    }
  }

  lemma NothingCancelled(s: Server, a: Answer)
    requires !Starts(a)
    ensures Cancelled(s, s, a)
  {
    assert s.actions[|s.actions|..] == [];
  }

  lemma OursExecuted(s: Server, a: Answer, rest: seq<Request>, n: nat, u: Server) returns (t: Server, m: nat)
    requires Starts(a) && Settles(s, n, u)
    requires var ours := LocalProcessing(s.addr, Text(a.fields, Macaddress));
      s.requests == [ModifyLocal(ours, FORWARD), RemoveLocal(ours, true)] + rest
    ensures Cancelled(s, t, a) && Settles(t, m, u) && t.requests == rest
  {
    OursCancelled(s, a, rest);
    TwoOf(s, n, u);
    t, m := ExecuteNext(ExecuteNext(s)), n - 2;
  }

  /** The last request that a peer's message about its own job queues. */
  function LastRequest(source: string, a: Answer): Request {
    if Text(a.fields, Status) == "done" then RemoveForeign(Origin(source, Some(a.id)))
    else AddOrModifyForeign(Origin(source, Some(a.id)), Addressed(source, a))
  }

  lemma SenderRequests(addr: string, legal: string -> bool, gosusi: bool, m: Fju, a: Answer)
    requires legal(m.source) && Owner(m.source, a) == m.source != addr && !m.syncAll && m.answers == [a]
    ensures var ours := LocalProcessing(addr, Text(a.fields, Macaddress));
      MessageRequests(addr, legal, gosusi, m)
      == if Starts(a) then [ModifyLocal(ours, FORWARD), RemoveLocal(ours, true)] + [LastRequest(m.source, a)]
         else [LastRequest(m.source, a)]
  {
    OneAnswer(addr, legal, gosusi, m, a);
  }

  /** The first requests of the message, if any, cancel what is outrun; one request remains. */
  lemma SenderFirst(s: Server, legal: string -> bool, gosusi: bool, m: Fju, a: Answer, n: nat, u: Server)
      returns (t: Server, k: nat)
    requires legal(m.source) && Owner(m.source, a) == m.source != s.addr && !m.syncAll && m.answers == [a]
    requires s.requests == MessageRequests(s.addr, legal, gosusi, m) && Settles(s, n, u)
    ensures Cancelled(s, t, a) && Settles(t, k, u) && t.requests == [LastRequest(m.source, a)]
  {
    SenderRequests(s.addr, legal, gosusi, m, a);
    if Starts(a) {
      t, k := OursExecuted(s, a, [LastRequest(m.source, a)], n, u);
    } else {
      NothingCancelled(s, a);
      t, k := s, n;
    }
  }

  lemma LastStep(t: Server, n: nat, u: Server)
    requires |t.requests| == 1 && !t.requests[0].ModifyLocal? && Settles(t, n, u)
    ensures u == ExecuteNext(t)
  {
    assert t.requests[1..] == [];
    assert Settles(ExecuteNext(t), n - 1, u);
  }

  /** A peer's job that is done leaves the table, and nothing else does. */
  lemma SenderJobDone(s: Server, legal: string -> bool, gosusi: bool, m: Fju, a: Answer, n: nat, u: Server, y: Job)
    requires legal(m.source) && Owner(m.source, a) == m.source != s.addr && !m.syncAll && m.answers == [a]
    requires s.requests == MessageRequests(s.addr, legal, gosusi, m) && Settles(s, n, u)
    requires Text(a.fields, Status) == "done"
    ensures
      && (y in u.jobs <==> y in s.jobs && !(Text(y.fields, Siserver) == m.source && y.original == a.id))
      && u.actions == s.actions && u.outbox == s.outbox
  {
    SenderRequests(s.addr, legal, gosusi, m, a);
    LastStep(s, n, u);
    RemoveForeignMeans(s, Origin(m.source, Some(a.id)));
  }

  ghost predicate Known(jobs: seq<Job>, source: string, id: nat) {
    exists j :: j in jobs && Text(j.fields, Siserver) == source && j.original == id
  }

  ghost predicate KnownAfter(jobs: seq<Job>, source: string, a: Answer, y: Job) {
    exists j :: j in jobs && if Text(j.fields, Siserver) == source && j.original == a.id
                             then RowAfter(j, y, a.fields, false) else y == j
  }

  /** The row added for a job that was not known. */
  predicate NewRow(nextId: nat, source: string, a: Answer, y: Job) {
    && y.id == nextId && y.original == a.id
    && y.plainname == (if a.plainname == "" then "none" else a.plainname)
    && y.fields == if Text(a.fields, Siserver) == "localhost" then a.fields[Siserver := source] else a.fields
  }

  lemma StillKnown(s: Server, t: Server, source: string, a: Answer)
    requires Cancelled(s, t, a) && source != s.addr
    ensures Known(t.jobs, source, a.id) <==> Known(s.jobs, source, a.id)
  {
    if j :| j in s.jobs && Text(j.fields, Siserver) == source && j.original == a.id {
      assert j in t.jobs;
    }
    if j :| j in t.jobs && Text(j.fields, Siserver) == source && j.original == a.id {
      assert j in s.jobs;
    }
  }

  lemma StillKnownAfter(s: Server, t: Server, source: string, a: Answer, y: Job)
    requires Cancelled(s, t, a) && source != s.addr
    ensures KnownAfter(t.jobs, source, a, y) <==> KnownAfter(s.jobs, source, a, y) && !Outrun(s.addr, a, y)
  {
    forall j: Job | Text(j.fields, Siserver) == source && RowAfter(j, y, a.fields, false)
      ensures !Outrun(s.addr, a, y) && !Outrun(s.addr, a, j)
    {
      assert TagAfter(j.fields, y.fields, a.fields, false, Siserver);
    }
    if KnownAfter(t.jobs, source, a, y) {
      var j :| j in t.jobs && if Text(j.fields, Siserver) == source && j.original == a.id
                              then RowAfter(j, y, a.fields, false) else y == j;
      assert j in s.jobs;
    }
    if KnownAfter(s.jobs, source, a, y) && !Outrun(s.addr, a, y) {
      var j :| j in s.jobs && if Text(j.fields, Siserver) == source && j.original == a.id
                              then RowAfter(j, y, a.fields, false) else y == j;
      assert j in t.jobs;
    }
  }

  lemma OriginIs(jobs: seq<Job>, source: string, a: Answer, y: Job)
    ensures var origin := Origin(source, Some(a.id));
      && (HasOrigin(jobs, origin) <==> Known(jobs, source, a.id))
      && (OriginAfter(jobs, origin, Addressed(source, a).fields, y) <==> KnownAfter(jobs, source, a, y))
  {
    forall j
      ensures Theirs(Origin(source, Some(a.id)), j) <==> Text(j.fields, Siserver) == source && j.original == a.id
      ensures RowAfter(j, y, Addressed(source, a).fields, false) <==> RowAfter(j, y, a.fields, false)
    {
      AddressedAfter(source, a, j, y, false);
    }
  }

  /** The request that takes over the answer, in terms of the answer as it was sent. */
  lemma TakenOver(t: Server, source: string, a: Answer, y: Job)
    requires Owner(source, a) == source
    requires t.requests == [AddOrModifyForeign(Origin(source, Some(a.id)), Addressed(source, a))]
    ensures var u := ExecuteNext(t);
      && u.actions == t.actions
      && (y in u.jobs <==> if Known(t.jobs, source, a.id) then KnownAfter(t.jobs, source, a, y)
                           else y in t.jobs || NewRow(t.nextId, source, a, y))
  {
    var origin, b := Origin(source, Some(a.id)), Addressed(source, a);
    AddOrModifyMeans(t, origin, b);
    OriginIs(t.jobs, source, a, y);
  }

  lemma AddedOrChanged(s: Server, t: Server, source: string, a: Answer, y: Job)
    requires Cancelled(s, t, a) && Owner(source, a) == source != s.addr
    requires t.requests == [AddOrModifyForeign(Origin(source, Some(a.id)), Addressed(source, a))]
    ensures var u := ExecuteNext(t);
      && u.actions == t.actions
      && (y in u.jobs <==> !Outrun(s.addr, a, y)
                           && if Known(s.jobs, source, a.id) then KnownAfter(s.jobs, source, a, y)
                              else y in s.jobs || NewRow(s.nextId, source, a, y))
  {
    TakenOver(t, source, a, y);
    StillKnown(s, t, source, a);
    StillKnownAfter(s, t, source, a, y);
  }

  /**
   * A peer's message about its own job changes the rows of that origin, or adds one; jobs of this server stay,
   * except that the start of an install or update job cancels the ones running on the same machine.
   */
  lemma SenderJobChanges(s: Server, legal: string -> bool, gosusi: bool, m: Fju, a: Answer, n: nat, u: Server, y: Job)
    requires legal(m.source) && Owner(m.source, a) == m.source != s.addr && !m.syncAll && m.answers == [a]
    requires s.requests == MessageRequests(s.addr, legal, gosusi, m) && Settles(s, n, u)
    requires Text(a.fields, Status) != "done"
    ensures
      && (y in u.jobs <==> !Outrun(s.addr, a, y)
                           && if Known(s.jobs, m.source, a.id) then KnownAfter(s.jobs, m.source, a, y)
                              else y in s.jobs || NewRow(s.nextId, m.source, a, y))
      && Acts(s, u, CancelledRows(s.addr, s.jobs, a))
  {
    var t, k := SenderFirst(s, legal, gosusi, m, a, n, u);
    LastStep(t, k, u);
    AddedOrChanged(s, t, m.source, a, y);
  }

  // ----- whole messages

  /** A sync=all message clears its sender's rows before anything else. */
  lemma SenderCleared(s: Server, legal: string -> bool, gosusi: bool, m: Fju, y: Job)
    requires legal(m.source) && m.syncAll && s.requests == MessageRequests(s.addr, legal, gosusi, m)
    ensures var t := ExecuteNext(s);
      && (y in t.jobs <==> y in s.jobs && Text(y.fields, Siserver) != m.source)
      && t.requests == MessageRequests(s.addr, legal, gosusi, m.(syncAll := false))
  {
    var all := AllRequests(s.addr, legal, gosusi, m.source, m.answers);
    assert s.requests == [RemoveForeign(Origin(m.source, None))] + all;
    RemoveForeignMeans(s, Origin(m.source, None));
    assert s.requests[1..] == all == [] + all;
  }

  lemma {:induction false} StopsThere(addr: string, legal: string -> bool, gosusi: bool, source: string,
                                      before: seq<Answer>, bad: Answer, rest: seq<Answer>)
    requires !legal(Owner(source, bad))
    ensures var answers := before + [bad] + rest;
      && AllRequests(addr, legal, gosusi, source, answers) == AllRequests(addr, legal, gosusi, source, before)
      && AllSyncs(addr, legal, gosusi, source, answers) == None
    decreases |before|
  {
    var answers := before + [bad] + rest;
    if before != [] {
      assert answers[0] == before[0] && answers[1..] == before[1..] + [bad] + rest;
      StopsThere(addr, legal, gosusi, source, before[1..], bad, rest);
    }
  }

  /** An answer with an address that is not legal ends the work on a message, and then nobody is asked. */
  lemma IllegalAddressStops(addr: string, legal: string -> bool, gosusi: bool, m: Fju,
                            before: seq<Answer>, bad: Answer, rest: seq<Answer>)
    requires m.answers == before + [bad] + rest && !legal(Owner(m.source, bad))
    ensures MessageRequests(addr, legal, gosusi, m) == MessageRequests(addr, legal, gosusi, m.(answers := before))
    ensures MessageSyncs(addr, legal, gosusi, m) == {}
  {
    StopsThere(addr, legal, gosusi, m.source, before, bad, rest);
  }

  /** Asked for their jobs are a gosa-si that changes a job of this server, and third parties. */
  lemma PeersAsked(addr: string, legal: string -> bool, gosusi: bool, m: Fju, a: Answer)
    requires legal(m.source) && legal(Owner(m.source, a)) && m.answers == [a]
    ensures var owner, asked := Owner(m.source, a), MessageSyncs(addr, legal, gosusi, m);
      && (owner == addr ==> asked == if gosusi then {} else {m.source})
      && (owner == m.source != addr ==> asked == {})
      && (owner != addr && owner != m.source ==> asked == {owner})
  {
    assert m.answers[1..] == [];
    assert LegalAnswer(legal, m.source, m.answers[0]);
    var asked := UpdateSyncs(addr, gosusi, m.source, Addressed(m.source, a));
    assert asked + {} == asked;
    assert AllSyncs(addr, legal, gosusi, m.source, m.answers[1..]) == Some({});
  }
}
