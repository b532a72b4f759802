/**
 * generate_clauses: job descriptors select a row if one of them does (a disjunction of conjunctions), but the
 * query language wants a conjunction of clauses. The recursion prunes branches, which is not always exact.
 */
module QueryClauses {
  /** Name "*" stands for any machine; an empty job for any job. */
  datatype Descriptor = Descriptor(name: string, mac: string, job: string) {
    predicate AnyMachine() { name == "*" }
    predicate HasJob() { job != "" }
    predicate Everything() { AnyMachine() && !HasJob() }
    predicate Pair() { !AnyMachine() && HasJob() }
    predicate MachineOnly() { !AnyMachine() && !HasJob() }
    predicate JobOnly() { AnyMachine() && HasJob() }
  }

  datatype Row = Row(mac: string, header: string)

  datatype Clause = Clause(machines: set<string>, jobtypes: set<string>)

  function Header(job: string): string {
    if job == "send_user_msg" then job else "trigger_action_" + job
  }

  lemma HeaderInjective(a: string, b: string)
    requires Header(a) == Header(b)
    ensures a == b
  {
    var p := "trigger_action_";
    if a == "send_user_msg" || b == "send_user_msg" {
      assert "send_user_msg"[0] == 's' && Header(a)[0] == Header(b)[0];
    } else {
      assert a == (p + a)[|p|..] && b == (p + b)[|p|..];
    }
  }

  ghost predicate HasType(jobtypes: set<string>, row: Row) {
    exists j :: j in jobtypes && Header(j) == row.header
  }

  ghost predicate Satisfied(machines: set<string>, jobtypes: set<string>, row: Row) {
    row.mac in machines || HasType(jobtypes, row)
  }

  ghost predicate Selects(d: Descriptor, row: Row) {
    (d.AnyMachine() || d.mac == row.mac) && (!d.HasJob() || Header(d.job) == row.header)
  }

  ghost predicate Described(jobs: seq<Descriptor>, row: Row) {
    exists d :: d in jobs && Selects(d, row)
  }

  ghost predicate Accepted(clauses: seq<Clause>, row: Row) {
    forall c :: c in clauses ==> Satisfied(c.machines, c.jobtypes, row)
  }

  ghost predicate Exact(jobs: seq<Descriptor>) {
    forall row :: Accepted(Clauses(jobs, {}, {}), row) <==> Described(jobs, row)
  }

  /** The clauses that the recursion appends for the remaining descriptors. */
  function Clauses(jobs: seq<Descriptor>, machines: set<string>, jobtypes: set<string>): seq<Clause> {
    if jobs == [] then
      if |machines| > 0 || |jobtypes| > 0 then [Clause(machines, jobtypes)] else []
    else
      var d, rest := jobs[0], jobs[1..];
      if d.Everything() then []
      else if d.Pair() then
        (if d.job !in jobtypes then Clauses(rest, machines, jobtypes + {d.job}) else [])
        + (if d.mac !in machines || d.job in jobtypes then Clauses(rest, machines + {d.mac}, jobtypes) else [])
      else if d.HasJob() then Clauses(rest, machines, jobtypes + {d.job})
      else Clauses(rest, machines + {d.mac}, jobtypes)
  }

  class Generator {
    var machines: set<string>
    var jobtypes: set<string>
    var clauses: seq<Clause>

    constructor ()
      ensures machines == {} && jobtypes == {} && clauses == []
    {
      machines, jobtypes, clauses := {}, {}, [];
    }

    /** Appends the clauses and leaves both backtracking sets as they were. */
    method Generate(jobs: seq<Descriptor>, idx: nat)
      requires idx <= |jobs|
      modifies this
      ensures clauses == old(clauses) + Clauses(jobs[idx..], old(machines), old(jobtypes))
      ensures machines == old(machines) && jobtypes == old(jobtypes)
      decreases |jobs| - idx
    {
      if idx == |jobs| {
        if |machines| > 0 || |jobtypes| > 0 {
          clauses := clauses + [Clause(machines, jobtypes)];
        }
      } else {
        var job := jobs[idx];
        assert jobs[idx..][1..] == jobs[idx + 1..];
        if job.AnyMachine() && !job.HasJob() {
        } else if !job.AnyMachine() && job.HasJob() {
          GeneratePair(jobs, idx);
        } else if job.HasJob() {
          var haveType := job.job in jobtypes;
          jobtypes := jobtypes + {job.job};
          Generate(jobs, idx + 1);
          if !haveType {
            jobtypes := jobtypes - {job.job};
          }
        } else {
          var haveMachine := job.mac in machines;
          machines := machines + {job.mac};
          Generate(jobs, idx + 1);
          if !haveMachine {
            machines := machines - {job.mac};
          }
        }
      }
    }

    method GeneratePair(jobs: seq<Descriptor>, idx: nat)
      requires idx < |jobs| && jobs[idx].Pair()
      modifies this
      ensures clauses == old(clauses) + Clauses(jobs[idx..], old(machines), old(jobtypes))
      ensures machines == old(machines) && jobtypes == old(jobtypes)
      decreases |jobs| - idx, 0
    {
      var job := jobs[idx];
      assert jobs[idx..][1..] == jobs[idx + 1..];
      var oneBranchDone := false;
      if job.job !in jobtypes {
        jobtypes := jobtypes + {job.job};
        Generate(jobs, idx + 1);
        jobtypes := jobtypes - {job.job};
        oneBranchDone := true;
      }
      var haveMachine := job.mac in machines;
      if !haveMachine || !oneBranchDone {
        machines := machines + {job.mac};
        Generate(jobs, idx + 1);
        if !haveMachine {
          machines := machines - {job.mac};
        }
      }
    }
  }

  // ----- no selected row is lost

  lemma SatisfiedStays(machines: set<string>, jobtypes: set<string>, machines': set<string>, jobtypes': set<string>, row: Row)
    requires Satisfied(machines, jobtypes, row) && machines <= machines' && jobtypes <= jobtypes'
    ensures Satisfied(machines', jobtypes', row)
  {
  }

  lemma {:induction false} SatisfiedAccepted(jobs: seq<Descriptor>, machines: set<string>, jobtypes: set<string>, row: Row)
    requires Satisfied(machines, jobtypes, row)
    ensures Accepted(Clauses(jobs, machines, jobtypes), row)
    decreases jobs
  {
    if jobs != [] {
      var d, rest := jobs[0], jobs[1..];
      SatisfiedStays(machines, jobtypes, machines, jobtypes + {d.job}, row);
      SatisfiedStays(machines, jobtypes, machines + {d.mac}, jobtypes, row);
      SatisfiedAccepted(rest, machines, jobtypes + {d.job}, row);
      SatisfiedAccepted(rest, machines + {d.mac}, jobtypes, row);
    }
  }

  /** Every row that some descriptor selects passes every clause. */
  lemma {:induction false} DescribedAccepted(jobs: seq<Descriptor>, machines: set<string>, jobtypes: set<string>, row: Row)
    requires Described(jobs, row)
    ensures Accepted(Clauses(jobs, machines, jobtypes), row)
    decreases jobs
  {
    var d, rest := jobs[0], jobs[1..];
    if Selects(d, row) {
      if !d.Everything() {
        SelectedAccepted(jobs, machines, jobtypes, row);
      }
    } else {
      var e :| e in jobs && Selects(e, row);
      assert e in rest;
      DescribedAccepted(rest, machines, jobtypes + {d.job}, row);
      DescribedAccepted(rest, machines + {d.mac}, jobtypes, row);
    }
  }

  lemma SelectedAccepted(jobs: seq<Descriptor>, machines: set<string>, jobtypes: set<string>, row: Row)
    requires jobs != [] && Selects(jobs[0], row) && !jobs[0].Everything()
    ensures Accepted(Clauses(jobs, machines, jobtypes), row)
  {
    var d, rest := jobs[0], jobs[1..];
    if d.HasJob() {
      assert d.job in jobtypes + {d.job} && Header(d.job) == row.header;
      SatisfiedAccepted(rest, machines, jobtypes + {d.job}, row);
    }
    if !d.AnyMachine() {
      SatisfiedAccepted(rest, machines + {d.mac}, jobtypes, row);
    }
  }
}
