/** When the clauses of generate_clauses select exactly the described rows. */
module QueryExactness {
  import opened QueryClauses

  // ----- the condition

  ghost predicate NamedAlone(jobs: seq<Descriptor>, mac: string) {
    exists d :: d in jobs && d.MachineOnly() && d.mac == mac
  }

  ghost predicate TypeAlone(jobs: seq<Descriptor>, job: string) {
    exists d :: d in jobs && d.JobOnly() && d.job == job
  }

  /** A machine+job descriptor whose machine is not also selected with all its jobs. */
  ghost predicate Free(jobs: seq<Descriptor>, d: Descriptor) {
    d.Pair() && !NamedAlone(jobs, d.mac)
  }

  /** A pair's machine is listed on its own if and only if its job type is. */
  ghost predicate Aligned(jobs: seq<Descriptor>) {
    forall d :: d in jobs && d.Pair() ==> (NamedAlone(jobs, d.mac) <==> TypeAlone(jobs, d.job))
  }

  ghost predicate SharesJob(jobs: seq<Descriptor>, i: nat, j: nat)
    requires i < |jobs| && j < |jobs|
  {
    i != j && Free(jobs, jobs[i]) && jobs[i].job == jobs[j].job
  }

  ghost predicate SharesMac(jobs: seq<Descriptor>, k: nat, j: nat)
    requires k < |jobs| && j < |jobs|
  {
    k != j && Free(jobs, jobs[k]) && jobs[k].mac == jobs[j].mac
  }

  /** A free pair is the only one for its job type or the only one for its machine. */
  ghost predicate Stars(jobs: seq<Descriptor>) {
    forall i, j, k :: 0 <= i < |jobs| && 0 <= j < |jobs| && 0 <= k < |jobs| && Free(jobs, jobs[j]) ==>
      !(SharesJob(jobs, i, j) && SharesMac(jobs, k, j))
  }

  ghost predicate Translatable(jobs: seq<Descriptor>) {
    || (exists d :: d in jobs && d.Everything())
    || (jobs != [] && Aligned(jobs) && Stars(jobs))
  }

  // ----- the condition suffices: a branch of the recursion rejects each row that is not described

  ghost predicate Rejected(jobs: seq<Descriptor>, machines: set<string>, jobtypes: set<string>, row: Row) {
    exists c :: c in Clauses(jobs, machines, jobtypes) && !Satisfied(c.machines, c.jobtypes, row)
  }

  /** A free pair, other than the j-th, that needs the machine branch to be taken for the j-th. */
  ghost predicate NeedsMachine(jobs: seq<Descriptor>, j: nat, row: Row)
    requires j < |jobs|
  {
    exists i :: 0 <= i < |jobs| && SharesJob(jobs, i, j) && jobs[i].mac == row.mac
  }

  ghost predicate NeedsJob(jobs: seq<Descriptor>, j: nat, row: Row)
    requires j < |jobs|
  {
    exists k :: 0 <= k < |jobs| && SharesMac(jobs, k, j) && Header(jobs[k].job) == row.header
  }

  /** Taking the job branch is still possible for the j-th descriptor. */
  ghost predicate JobOpen(jobs: seq<Descriptor>, j: nat, jobtypes: set<string>, row: Row)
    requires j < |jobs|
  {
    Free(jobs, jobs[j]) && (jobs[j].mac == row.mac || NeedsJob(jobs, j, row)) ==> jobs[j].job !in jobtypes
  }

  ghost predicate MachineOpen(jobs: seq<Descriptor>, j: nat, machines: set<string>, row: Row)
    requires j < |jobs|
  {
    Free(jobs, jobs[j]) && (Header(jobs[j].job) == row.header || NeedsMachine(jobs, j, row)) ==> jobs[j].mac !in machines
  }

  ghost predicate Open(jobs: seq<Descriptor>, n: nat, machines: set<string>, jobtypes: set<string>, row: Row) {
    && !Satisfied(machines, jobtypes, row)
    && (forall j :: n <= j < |jobs| ==> JobOpen(jobs, j, jobtypes, row) && MachineOpen(jobs, j, machines, row))
  }

  ghost predicate Suitable(jobs: seq<Descriptor>, row: Row) {
    Aligned(jobs) && Stars(jobs) && !Described(jobs, row)
  }

  lemma StarsAt(jobs: seq<Descriptor>, i: nat, j: nat, k: nat)
    requires i < |jobs| && j < |jobs| && k < |jobs| && Stars(jobs)
    ensures Free(jobs, jobs[j]) ==> !(SharesJob(jobs, i, j) && SharesMac(jobs, k, j))
  {
  }

  lemma JobBranch(jobs: seq<Descriptor>, n: nat, machines: set<string>, jobtypes: set<string>, row: Row)
    requires n < |jobs| && Suitable(jobs, row) && Open(jobs, n, machines, jobtypes, row)
    requires jobs[n].HasJob() && Header(jobs[n].job) != row.header
    requires Free(jobs, jobs[n]) ==> jobs[n].mac == row.mac || !NeedsMachine(jobs, n, row)
    requires Free(jobs, jobs[n]) || TypeAlone(jobs, jobs[n].job)
    ensures Open(jobs, n + 1, machines, jobtypes + {jobs[n].job}, row)
  {
    forall j | n + 1 <= j < |jobs|
      ensures JobOpen(jobs, j, jobtypes + {jobs[n].job}, row) && MachineOpen(jobs, j, machines, row)
    {
      assert JobOpen(jobs, j, jobtypes, row) && MachineOpen(jobs, j, machines, row);
      StarsAt(jobs, j, n, j);
      if Free(jobs, jobs[j]) && (jobs[j].mac == row.mac || NeedsJob(jobs, j, row)) && jobs[j].job == jobs[n].job {
        assert jobs[j] in jobs;
        assert SharesJob(jobs, j, n);
        if NeedsJob(jobs, j, row) {
          var k :| 0 <= k < |jobs| && SharesMac(jobs, k, j) && Header(jobs[k].job) == row.header;
          assert SharesJob(jobs, n, j);
        }
      }
    }
  }

  lemma MachineBranch(jobs: seq<Descriptor>, n: nat, machines: set<string>, jobtypes: set<string>, row: Row)
    requires n < |jobs| && Suitable(jobs, row) && Open(jobs, n, machines, jobtypes, row)
    requires !jobs[n].AnyMachine() && jobs[n].mac != row.mac
    requires Free(jobs, jobs[n]) ==> Header(jobs[n].job) == row.header || !NeedsJob(jobs, n, row)
    requires Free(jobs, jobs[n]) || NamedAlone(jobs, jobs[n].mac)
    ensures Open(jobs, n + 1, machines + {jobs[n].mac}, jobtypes, row)
  {
    forall j | n + 1 <= j < |jobs|
      ensures JobOpen(jobs, j, jobtypes, row) && MachineOpen(jobs, j, machines + {jobs[n].mac}, row)
    {
      assert JobOpen(jobs, j, jobtypes, row) && MachineOpen(jobs, j, machines, row);
      if Free(jobs, jobs[j]) && (Header(jobs[j].job) == row.header || NeedsMachine(jobs, j, row)) && jobs[j].mac == jobs[n].mac {
        assert SharesMac(jobs, j, n);
        if NeedsMachine(jobs, j, row) {
          var i :| 0 <= i < |jobs| && SharesJob(jobs, i, j) && jobs[i].mac == row.mac;
          assert SharesMac(jobs, n, j);
        } else {
          assert NeedsJob(jobs, n, row);
          HeaderInjective(jobs[j].job, jobs[n].job);
          assert SharesJob(jobs, j, n);
        }
      }
    }
  }

  ghost predicate Started(n: nat, machines: set<string>, jobtypes: set<string>) {
    n > 0 ==> machines != {} || jobtypes != {}
  }

  /** Which branch of a pair leads on to a rejecting clause. */
  ghost predicate TakeMachine(jobs: seq<Descriptor>, n: nat, jobtypes: set<string>, row: Row)
    requires n < |jobs|
  {
    var d := jobs[n];
    if Free(jobs, d) then
      d.mac != row.mac
      && (Header(d.job) == row.header || NeedsMachine(jobs, n, row) || (!NeedsJob(jobs, n, row) && d.job in jobtypes))
    else d.job in jobtypes
  }

  lemma PairFacts(jobs: seq<Descriptor>, n: nat, row: Row)
    requires n < |jobs| && Suitable(jobs, row) && jobs[n].Pair()
    ensures !Free(jobs, jobs[n]) ==> NamedAlone(jobs, jobs[n].mac) && TypeAlone(jobs, jobs[n].job)
    ensures !Free(jobs, jobs[n]) ==> jobs[n].mac != row.mac && Header(jobs[n].job) != row.header
    ensures !(jobs[n].mac == row.mac && Header(jobs[n].job) == row.header)
    ensures Free(jobs, jobs[n]) ==> !(NeedsJob(jobs, n, row) && NeedsMachine(jobs, n, row))
    ensures Free(jobs, jobs[n]) && jobs[n].mac == row.mac ==> !NeedsMachine(jobs, n, row) || !NeedsJob(jobs, n, row)
  {
    var d := jobs[n];
    assert d in jobs && !Selects(d, row);
    if !Free(jobs, d) {
      var e :| e in jobs && e.MachineOnly() && e.mac == d.mac;
      assert !Selects(e, row);
      var f :| f in jobs && f.JobOnly() && f.job == d.job;
      assert !Selects(f, row);
    }
  }

  lemma {:induction false} RejectPair(jobs: seq<Descriptor>, n: nat, machines: set<string>, jobtypes: set<string>, row: Row)
    requires n < |jobs| && jobs[n].Pair() && Suitable(jobs, row) && Open(jobs, n, machines, jobtypes, row)
    ensures Rejected(jobs[n..], machines, jobtypes, row)
    decreases |jobs| - n, 0
  {
    var d := jobs[n];
    PairFacts(jobs, n, row);
    assert JobOpen(jobs, n, jobtypes, row) && MachineOpen(jobs, n, machines, row);
    assert jobs[n..][1..] == jobs[n + 1..];
    if TakeMachine(jobs, n, jobtypes, row) {
      MachineBranch(jobs, n, machines, jobtypes, row);
      RejectFrom(jobs, n + 1, machines + {d.mac}, jobtypes, row);
    } else {
      JobBranch(jobs, n, machines, jobtypes, row);
      RejectFrom(jobs, n + 1, machines, jobtypes + {d.job}, row);
    }
  }

  lemma {:induction false} RejectFrom(jobs: seq<Descriptor>, n: nat, machines: set<string>, jobtypes: set<string>, row: Row)
    requires n <= |jobs| && jobs != [] && Suitable(jobs, row) && Open(jobs, n, machines, jobtypes, row)
    requires Started(n, machines, jobtypes)
    ensures Rejected(jobs[n..], machines, jobtypes, row)
    decreases |jobs| - n, 1
  {
    if n == |jobs| {
      assert jobs[n..] == [];
      RejectEnd(machines, jobtypes, row);
    } else if jobs[n].Pair() {
      RejectPair(jobs, n, machines, jobtypes, row);
    } else {
      RejectOther(jobs, n, machines, jobtypes, row);
    }
  }

  lemma RejectEnd(machines: set<string>, jobtypes: set<string>, row: Row)
    requires !Satisfied(machines, jobtypes, row) && (machines != {} || jobtypes != {})
    ensures Rejected([], machines, jobtypes, row)
  {
    var c := Clause(machines, jobtypes);
    assert c in Clauses([], machines, jobtypes);
  }

  lemma {:induction false} RejectOther(jobs: seq<Descriptor>, n: nat, machines: set<string>, jobtypes: set<string>, row: Row)
    requires n < |jobs| && !jobs[n].Pair() && Suitable(jobs, row) && Open(jobs, n, machines, jobtypes, row)
    ensures Rejected(jobs[n..], machines, jobtypes, row)
    decreases |jobs| - n, 0
  {
    var d := jobs[n];
    assert d in jobs && !Selects(d, row);
    assert jobs[n..][1..] == jobs[n + 1..];
    if d.HasJob() {
      assert TypeAlone(jobs, d.job);
      JobBranch(jobs, n, machines, jobtypes, row);
      RejectFrom(jobs, n + 1, machines, jobtypes + {d.job}, row);
    } else {
      assert NamedAlone(jobs, d.mac);
      MachineBranch(jobs, n, machines, jobtypes, row);
      RejectFrom(jobs, n + 1, machines + {d.mac}, jobtypes, row);
    }
  }

  lemma {:induction false} EverythingAcceptsAll(jobs: seq<Descriptor>, machines: set<string>, jobtypes: set<string>, d: Descriptor)
    requires d in jobs && d.Everything()
    ensures Clauses(jobs, machines, jobtypes) == []
    decreases jobs
  {
    if jobs[0] != d {
      var first, rest := jobs[0], jobs[1..];
      assert d in rest;
      if !first.Everything() {
        EverythingAcceptsAll(rest, machines, jobtypes + {first.job}, d);
        EverythingAcceptsAll(rest, machines + {first.mac}, jobtypes, d);
      }
    }
  }

  /** Translatable lists are translated exactly. */
  lemma TranslatableIsExact(jobs: seq<Descriptor>)
    requires Translatable(jobs)
    ensures Exact(jobs)
  {
    forall row
      ensures Accepted(Clauses(jobs, {}, {}), row) <==> Described(jobs, row)
    {
      if Described(jobs, row) {
        DescribedAccepted(jobs, {}, {}, row);
      } else if d :| d in jobs && d.Everything() {
        assert Selects(d, row);
      } else {
        RejectFrom(jobs, 0, {}, {}, row);
        assert jobs[0..] == jobs;
      }
    }
  }

  // ----- what a translated query selects, spelled out

  /** The descriptor asks for the row's machine, or any, and for its job type, or any. */
  predicate Picks(d: Descriptor, row: Row) {
    && (d.name == "*" || d.mac == row.mac)
    && (d.job == "" || row.header == if d.job == "send_user_msg" then "send_user_msg" else "trigger_action_" + d.job)
  }

  /** The row is among the machines of the clause or its header stands for one of the job types. */
  ghost predicate Passes(c: Clause, row: Row) {
    || row.mac in c.machines
    || exists job :: job in c.jobtypes
         && row.header == if job == "send_user_msg" then "send_user_msg" else "trigger_action_" + job
  }

  lemma PassesMeans(c: Clause, row: Row)
    ensures Satisfied(c.machines, c.jobtypes, row) <==> Passes(c, row)
  {
    assert HasType(c.jobtypes, row) <==> exists job :: job in c.jobtypes && Header(job) == row.header;
  }

  lemma DescribedMeans(jobs: seq<Descriptor>, row: Row)
    ensures Described(jobs, row) <==> exists d :: d in jobs && Picks(d, row)
  {
    forall d: Descriptor
      ensures Selects(d, row) <==> Picks(d, row)
    {
    }
  }

  /** A row passes all clauses of a translatable list exactly if some descriptor asks for it. */
  lemma TranslatableSelects(jobs: seq<Descriptor>, row: Row)
    requires Translatable(jobs)
    ensures (forall c :: c in Clauses(jobs, {}, {}) ==> Passes(c, row)) <==> exists d :: d in jobs && Picks(d, row)
  {
    TranslatableIsExact(jobs);
    DescribedMeans(jobs, row);
    forall c: Clause
      ensures Satisfied(c.machines, c.jobtypes, row) <==> Passes(c, row)
    {
      PassesMeans(c, row);
    }
    assert Accepted(Clauses(jobs, {}, {}), row) <==> Described(jobs, row);
  }
}
