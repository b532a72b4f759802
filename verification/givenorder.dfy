/** Which lists are translated exactly in the order they are given: one pass from the end decides for each row. */
module QueryGivenOrder {
  import opened QueryClauses
  import opened QueryExactness

  /**
   * What a clause must avoid for a row to fail it, from some descriptor on. A pair puts its machine or its job type into
   * the clause, and both of them if one is there already, so that what forces something forbidden is forbidden, too.
   */
  datatype Needs = Clash | Avoid(machines: set<string>, jobtypes: set<string>) {
    predicate Machine(mac: string) { Avoid? && mac in machines }
    predicate Type(job: string, row: Row) { Avoid? && (job in jobtypes || Header(job) == row.header) }
  }

  function NeedsOf(jobs: seq<Descriptor>, row: Row): Needs {
    if jobs == [] then Avoid({row.mac}, {})
    else
      var d, n := jobs[0], NeedsOf(jobs[1..], row);
      if n.Clash? || d.Everything() then Clash
      else Before(d, n, row)
  }

  function Before(d: Descriptor, n: Needs, row: Row): Needs
    requires n.Avoid?
  {
    if d.Pair() then
      if n.Machine(d.mac) && n.Type(d.job, row) then Clash
      else if n.Machine(d.mac) then Avoid(n.machines, n.jobtypes + {d.job})
      else if n.Type(d.job, row) then Avoid(n.machines + {d.mac}, n.jobtypes)
      else n
    else if d.HasJob() then
      if n.Type(d.job, row) then Clash else n
    else
      if n.Machine(d.mac) then Clash else n
  }

  /** The sets hold nothing that must be avoided. */
  predicate Clean(n: Needs, machines: set<string>, jobtypes: set<string>, row: Row) {
    && n.Avoid?
    && (forall m :: m in machines ==> !n.Machine(m))
    && (forall j :: j in jobtypes ==> !n.Type(j, row))
  }

  predicate Emits(jobs: seq<Descriptor>, machines: set<string>, jobtypes: set<string>) {
    jobs != [] || machines != {} || jobtypes != {}
  }

  lemma RejectedAtEnd(machines: set<string>, jobtypes: set<string>, row: Row)
    ensures Rejected([], machines, jobtypes, row) <==>
      Emits([], machines, jobtypes) && Clean(NeedsOf([], row), machines, jobtypes, row)
  {
    var cs := Clauses([], machines, jobtypes);
    if machines != {} || jobtypes != {} {
      assert |machines| > 0 || |jobtypes| > 0 by {
        if |machines| == 0 { assert machines == {}; }
        if |jobtypes| == 0 { assert jobtypes == {}; }
      }
      assert cs == [Clause(machines, jobtypes)];
      assert cs[0] in cs;
    } else {
      assert cs == [];
    }
  }

  lemma RejectedPair(jobs: seq<Descriptor>, machines: set<string>, jobtypes: set<string>, row: Row)
    requires jobs != [] && jobs[0].Pair()
    ensures var d, rest := jobs[0], jobs[1..];
      Rejected(jobs, machines, jobtypes, row) <==>
      || (d.job !in jobtypes && Rejected(rest, machines, jobtypes + {d.job}, row))
      || ((d.mac !in machines || d.job in jobtypes) && Rejected(rest, machines + {d.mac}, jobtypes, row))
  {
    var d, rest := jobs[0], jobs[1..];
    var x := if d.job !in jobtypes then Clauses(rest, machines, jobtypes + {d.job}) else [];
    var y := if d.mac !in machines || d.job in jobtypes then Clauses(rest, machines + {d.mac}, jobtypes) else [];
    assert Clauses(jobs, machines, jobtypes) == x + y;
    assert forall c :: c in x + y <==> c in x || c in y;
  }

  lemma CleanAdded(n: Needs, machines: set<string>, jobtypes: set<string>, row: Row, mac: string, job: string)
    ensures Clean(n, machines + {mac}, jobtypes, row) <==> Clean(n, machines, jobtypes, row) && !n.Machine(mac)
    ensures Clean(n, machines, jobtypes + {job}, row) <==> Clean(n, machines, jobtypes, row) && !n.Type(job, row)
  {
  }

  lemma CleanBeforePair(d: Descriptor, n: Needs, machines: set<string>, jobtypes: set<string>, row: Row)
    requires n.Avoid? && d.Pair()
    ensures Clean(Before(d, n, row), machines, jobtypes, row) <==>
      && Clean(n, machines, jobtypes, row)
      && (|| (d.job !in jobtypes && !n.Type(d.job, row))
          || ((d.mac !in machines || d.job in jobtypes) && !n.Machine(d.mac)))
  {
  }

  /** The pass decides whether some clause of the recursion rejects a row. */
  lemma {:induction false} RejectedIffClean(jobs: seq<Descriptor>, machines: set<string>, jobtypes: set<string>, row: Row)
    ensures Rejected(jobs, machines, jobtypes, row) <==>
      Emits(jobs, machines, jobtypes) && Clean(NeedsOf(jobs, row), machines, jobtypes, row)
    decreases |jobs|
  {
    if jobs == [] {
      RejectedAtEnd(machines, jobtypes, row);
    } else {
      var d, rest, n := jobs[0], jobs[1..], NeedsOf(jobs[1..], row);
      RejectedIffClean(rest, machines, jobtypes + {d.job}, row);
      RejectedIffClean(rest, machines + {d.mac}, jobtypes, row);
      CleanAdded(n, machines, jobtypes, row, d.mac, d.job);
      if d.Pair() {
        RejectedPair(jobs, machines, jobtypes, row);
        if n.Avoid? {
          CleanBeforePair(d, n, machines, jobtypes, row);
        }
      }
    }
  }

  lemma AcceptedIffNotRejected(jobs: seq<Descriptor>, row: Row)
    ensures Accepted(Clauses(jobs, {}, {}), row) <==> !Rejected(jobs, {}, {}, row)
  {
  }

  /** The described rows are among those for which the pass ends in a clash; a list is exact if they are all of them. */
  lemma ExactIffClashes(jobs: seq<Descriptor>)
    ensures Exact(jobs) <==> jobs != [] && forall row :: NeedsOf(jobs, row).Clash? ==> Described(jobs, row)
  {
    forall row
      ensures Accepted(Clauses(jobs, {}, {}), row) <==> jobs == [] || NeedsOf(jobs, row).Clash?
      ensures Described(jobs, row) ==> NeedsOf(jobs, row).Clash?
    {
      RejectedIffClean(jobs, {}, {}, row);
      AcceptedIffNotRejected(jobs, row);
      if Described(jobs, row) {
        DescribedAccepted(jobs, {}, {}, row);
      }
    }
    if jobs == [] {
      assert !Described(jobs, Row("", ""));
    }
  }

  // ----- finitely many rows decide

  /** No descriptor of the list tells the two rows apart. */
  predicate Alike(jobs: seq<Descriptor>, r: Row, q: Row) {
    forall d :: d in jobs ==> (d.mac == r.mac <==> d.mac == q.mac) && (Header(d.job) == r.header <==> Header(d.job) == q.header)
  }

  /** The pass from some descriptor of the list on ends alike for both rows. */
  predicate SameNeeds(jobs: seq<Descriptor>, n: Needs, k: Needs) {
    && (n.Clash? <==> k.Clash?)
    && (n.Avoid? && k.Avoid? ==>
          n.jobtypes == k.jobtypes && forall d :: d in jobs ==> (d.mac in n.machines <==> d.mac in k.machines))
  }

  lemma {:induction false} AlikeNeeds(all: seq<Descriptor>, jobs: seq<Descriptor>, r: Row, q: Row)
    requires Alike(all, r, q) && forall d :: d in jobs ==> d in all
    ensures SameNeeds(all, NeedsOf(jobs, r), NeedsOf(jobs, q))
  {
    if jobs != [] {
      var d, n, k := jobs[0], NeedsOf(jobs[1..], r), NeedsOf(jobs[1..], q);
      AlikeNeeds(all, jobs[1..], r, q);
      if n.Avoid? && !d.Everything() {
        AlikeBefore(all, d, n, k, r, q);
      }
    }
  }

  lemma AlikeBefore(all: seq<Descriptor>, d: Descriptor, n: Needs, k: Needs, r: Row, q: Row)
    requires Alike(all, r, q) && d in all && n.Avoid? && k.Avoid? && SameNeeds(all, n, k)
    ensures SameNeeds(all, Before(d, n, r), Before(d, k, q))
  {
    assert n.Machine(d.mac) <==> k.Machine(d.mac);
    assert n.Type(d.job, r) <==> k.Type(d.job, q);
  }

  lemma AlikeDescribed(jobs: seq<Descriptor>, r: Row, q: Row)
    requires Alike(jobs, r, q)
    ensures Described(jobs, r) <==> Described(jobs, q)
  {
    assert forall d :: d in jobs ==> (Selects(d, r) <==> Selects(d, q));
  }

  /** The rows with a machine and a job type of the list, or with the given ones. */
  function RowsOf(jobs: seq<Descriptor>, mac: string, header: string): set<Row> {
    var macs := (set d | d in jobs :: d.mac) + {mac};
    var headers := (set d | d in jobs :: Header(d.job)) + {header};
    set m, h | m in macs && h in headers :: Row(m, h)
  }

  /** A list is exact if and only if it is on the rows made of its machines, its job types and one new one of each. */
  lemma ExactIffRowsOf(jobs: seq<Descriptor>, mac: string, header: string)
    requires forall d :: d in jobs ==> d.mac != mac && Header(d.job) != header
    ensures Exact(jobs) <==>
      jobs != [] && forall row :: row in RowsOf(jobs, mac, header) && NeedsOf(jobs, row).Clash? ==> Described(jobs, row)
  {
    ExactIffClashes(jobs);
    if jobs != [] && forall row :: row in RowsOf(jobs, mac, header) && NeedsOf(jobs, row).Clash? ==> Described(jobs, row) {
      forall row | NeedsOf(jobs, row).Clash?
        ensures Described(jobs, row)
      {
        var q := Stand(jobs, row, mac, header);
        AlikeNeeds(jobs, jobs, row, q);
        AlikeDescribed(jobs, row, q);
      }
    }
  }

  /** A row of the finite set that stands for the given one. */
  lemma Stand(jobs: seq<Descriptor>, row: Row, mac: string, header: string) returns (q: Row)
    requires forall d :: d in jobs ==> d.mac != mac && Header(d.job) != header
    ensures q in RowsOf(jobs, mac, header) && Alike(jobs, row, q)
  {
    var m := if exists d :: d in jobs && d.mac == row.mac then row.mac else mac;
    var h := if exists d :: d in jobs && Header(d.job) == row.header then row.header else header;
    q := Row(m, h);
  }

  /** A pair in front of its machine is translated exactly, although the other order is not. */
  lemma PairThenMachineIsExact(a: string, t: string)
    requires t != ""
    ensures Exact([Descriptor("n", a, t), Descriptor("n", a, "")])
    ensures !Exact([Descriptor("n", a, ""), Descriptor("n", a, t)])
  {
    var p, m := Descriptor("n", a, t), Descriptor("n", a, "");
    forall row | NeedsOf([p, m], row).Clash?
      ensures Described([p, m], row)
    {
      assert [p, m][1..] == [m] && [m][1..] == [];
      assert NeedsOf([m], row) == if row.mac == a then Clash else Avoid({row.mac}, {});
      assert row.mac == a && Selects(m, row) && m in [p, m];
    }
    ExactIffClashes([p, m]);
    assert [m, p][1..] == [p] && [p][1..] == [];
    var row := Row(a + "x", Header(t));
    assert NeedsOf([p], row) == Avoid({row.mac, a}, {});
    assert !Described([m, p], row);
    ExactIffClashes([m, p]);
  }
}
