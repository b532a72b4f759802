/** What a broadcast does to the receiver's view of the sender's jobs. */
module Broadcasts {
  import opened Common
  import opened Jobs
  import opened JobServers
  import opened ForeignUpdates
  import opened Views
  import opened Soundness

  /** The view of owner's jobs after one more request of the receiver has been executed. */
  ghost function ViewRequest(v: View, r: Request, owner: string): View {
    match r
    case RemoveForeign(origin) =>
      if origin.server != owner then v
      else if origin.original.Some? then v - {origin.original.value} else map[]
    case AddOrModifyForeign(origin, answer) =>
      if origin.server != owner then v
      else if answer.id in v then v[answer.id := Merge(v[answer.id], answer.fields)] else v[answer.id := answer.fields]
    case _ => v
  }

  ghost function ViewRequests(v: View, rs: seq<Request>, owner: string): View
    decreases rs
  {
    if rs == [] then v else ViewRequests(ViewRequest(v, rs[0], owner), rs[1..], owner)
  }

  ghost function ViewItems(v: View, addr: string, items: seq<Item>, owner: string): View
    decreases items
  {
    if items == [] then v
    else ViewItems(ViewRequests(v, ItemRequests(addr, items[0]), owner), addr, items[1..], owner)
  }

  lemma {:induction false} ViewRequestsConcat(v: View, a: seq<Request>, b: seq<Request>, owner: string)
    ensures ViewRequests(v, a + b, owner) == ViewRequests(ViewRequests(v, a, owner), b, owner)
    decreases a
  {
    if a == [] {
      assert a + b == b;
    } else {
      assert (a + b)[1..] == a[1..] + b;
      ViewRequestsConcat(ViewRequest(v, a[0], owner), a[1..], b, owner);
    }
  }

  lemma {:induction false} ViewItemsConcat(v: View, addr: string, a: seq<Item>, b: seq<Item>, owner: string)
    ensures ViewItems(v, addr, a + b, owner) == ViewItems(ViewItems(v, addr, a, owner), addr, b, owner)
    decreases a
  {
    if a == [] {
      assert a + b == b;
    } else {
      assert (a + b)[1..] == a[1..] + b;
      ViewItemsConcat(ViewRequests(v, ItemRequests(addr, a[0]), owner), addr, a[1..], b, owner);
    }
  }

  ghost predicate Neutral(r: Request, owner: string) {
    match r
    case RemoveForeign(origin) => origin.server != owner
    case AddOrModifyForeign(origin, _) => origin.server != owner
    case _ => true
  }

  lemma {:induction false} ViewNeutral(v: View, rs: seq<Request>, owner: string)
    requires forall r :: r in rs ==> Neutral(r, owner)
    ensures ViewRequests(v, rs, owner) == v
  {
    if rs != [] {
      assert rs[0] in rs;
      ViewNeutral(v, rs[1..], owner);
    }
  }

  /** Executing a request on the receiver's table changes its view of owner exactly as ViewRequest says. */
  lemma ExecuteView(s: Server, r: Request, owner: string)
    requires Sound(s) && owner != s.addr && RequestOk(s.addr, s.nextId, ForeignIds(s.addr, s.jobs), r)
    ensures ViewOf(Execute(s, r).jobs, owner) == ViewRequest(ViewOf(s.jobs, owner), r, owner)
  {
    match r
    case AddLocal(job) =>
      assert Execute(s, r).jobs[..|s.jobs|] == s.jobs;
    case RemoveLocal(filter, _) =>
      OwnOnlySelects(s, filter);
      ViewUntouched(s.jobs, owner, Not(filter));
    case ModifyLocal(filter, update) =>
      OwnOnlySelects(s, filter);
      EditKeepsOrigin(update);
      ViewRewrittenOthers(s.jobs, owner, filter, Edited(update));
    case RemoveForeign(origin) =>
      if origin.server == owner {
        ViewRemoveOrigin(s.jobs, origin);
      } else {
        ViewUntouched(s.jobs, owner, Not(OfOrigin(origin)));
      }
    case AddOrModifyForeign(origin, answer) => ExecuteViewAnswer(s, origin, answer, owner);
    case SyncAll(_) =>
  }

  lemma ExecuteViewAnswer(s: Server, origin: Origin, answer: Answer, owner: string)
    requires Sound(s)
    requires RequestOk(s.addr, s.nextId, ForeignIds(s.addr, s.jobs), AddOrModifyForeign(origin, answer))
    ensures ViewOf(ExecuteAddOrModify(s, origin, answer).jobs, owner)
            == ViewRequest(ViewOf(s.jobs, owner), AddOrModifyForeign(origin, answer), owner)
  {
    var f, g := OfOrigin(origin), Overwritten(answer.fields);
    var found := Select(s.jobs, f);
    SelectMember(s.jobs, f);
    EditKeepsOrigin(answer.fields);
    if found == [] {
      var jobs' := ExecuteAddOrModify(s, origin, answer).jobs;
      assert jobs'[..|s.jobs|] == s.jobs;
      ViewKeys(s.jobs, owner);
      assert forall j :: j in s.jobs && j.From(origin.server) && j.original == answer.id ==> j in found;
    } else if origin.server == owner {
      OverwriteOne(s.jobs, origin, answer.id, answer.fields);
    } else {
      ViewRewrittenOthers(s.jobs, owner, f, g);
    }
  }

  lemma OverwriteOne(jobs: seq<Job>, origin: Origin, id: nat, update: Fields)
    requires DistinctBy(jobs, OriginOf()) && origin.original == Some(id) && Select(jobs, OfOrigin(origin)) != []
    ensures var v := ViewOf(jobs, origin.server);
            id in v && ViewOf(Rewritten(jobs, OfOrigin(origin), Overwritten(update)), origin.server)
                       == v[id := Merge(v[id], update)]
  {
    var f, g := OfOrigin(origin), Overwritten(update);
    var row := OneFound(jobs, origin);
    EditKeepsOrigin(update);
    SelectMember(jobs, f);
    ViewRewritten(jobs, origin.server, f, g);
    ViewRow(jobs, origin.server, row);
    assert OriginOf()(g(row)) == OriginOf()(row);
    ViewOfOne(row, g, origin.server);
    OverridesOne(ViewOf(jobs, origin.server), g(row).original, g(row).fields);
  }

  lemma OverridesOne(v: View, n: nat, fields: Fields)
    ensures v + map[n := fields] == v[n := fields]
  {
  }

  lemma ViewOfOne(row: Job, g: Job -> Job, server: string)
    requires g(row).From(server)
    ensures ViewOf(Map([row], g), server) == map[g(row).original := g(row).fields]
  {
    assert [row][..0] == [] && [g(row)][..0] == [];
    assert Map([row], g) == [g(row)];
    assert ViewOf([g(row)], server) == ViewOf([], server)[g(row).original := g(row).fields];
  }

  /** At most one row has a given origin. */
  lemma OneFound(jobs: seq<Job>, origin: Origin) returns (row: Job)
    requires DistinctBy(jobs, OriginOf()) && origin.original.Some? && Select(jobs, OfOrigin(origin)) != []
    ensures Select(jobs, OfOrigin(origin)) == [row] && row in jobs && origin.Selects(row)
  {
    var found := Select(jobs, OfOrigin(origin));
    SelectMember(jobs, OfOrigin(origin));
    DistinctSelect(jobs, OriginOf(), OfOrigin(origin));
    row := found[0];
    assert |found| > 1 ==> OriginOf()(found[0]) != OriginOf()(found[1]);
    forall i | 0 <= i < |found|
      ensures OriginOf()(found[i]) == (origin.server, origin.original.value)
    {
      assert found[i] in found;
    }
  }

  // ----- agreement between the owner's jobs and a replica

  predicate Hidden(progress: string) {
    progress == "forward" || progress == "groom"
  }

  /** Equal in every field, except that a replica need not show that a job is being forwarded or groomed. */
  ghost predicate AgreeFields(ours: Fields, theirs: Fields) {
    && ours - {Progress} == theirs - {Progress}
    && (Hidden(Text(ours, Progress)) || ours == theirs)
  }

  ghost predicate Agree(ours: View, theirs: View) {
    && ours.Keys == theirs.Keys
    && forall n :: n in ours ==> AgreeFields(ours[n], theirs[n])
  }

  /** Edits that a replica can follow: if they are suppressed, they only touch the progress. */
  ghost predicate Replicable(update: Fields) {
    Suppressed(update) ==> Writes(update, UPDATABLE_FIELDS).Keys == {Progress}
  }

  lemma MergeAbsorbs(theirs: Fields, after: Fields)
    requires theirs.Keys <= after.Keys
    requires forall tag :: tag in after && !IsUpdatable(tag) ==> tag in theirs && theirs[tag] == after[tag]
    ensures Merge(theirs, after) == after
  {
    WritesAll(after);
  }

  lemma AgreeTags(ours: Fields, theirs: Fields)
    requires AgreeFields(ours, theirs)
    ensures forall tag :: tag in theirs ==> tag in ours
    ensures forall tag :: tag in ours && tag != Progress ==> tag in theirs && theirs[tag] == ours[tag]
  {
    assert forall tag :: tag in ours && tag != Progress ==> tag in ours - {Progress};
    assert forall tag :: tag in theirs && tag != Progress ==> tag in theirs - {Progress};
    forall tag | tag in ours && tag != Progress
      ensures tag in theirs && theirs[tag] == ours[tag]
    {
      assert (theirs - {Progress})[tag] == (ours - {Progress})[tag];
    }
  }

  lemma EditedTags(update: Fields, j: Job)
    ensures j.fields.Keys <= Edited(update)(j).fields.Keys
    ensures forall tag :: tag in Edited(update)(j).fields && !IsUpdatable(tag) ==>
              tag in j.fields && j.fields[tag] == Edited(update)(j).fields[tag]
  {
    WritesAll(update);
  }

  /** A replica that agrees with a job catches up with any edit whose result it is sent. */
  lemma MergeCatchesUp(job: Job, theirs: Fields, update: Fields)
    requires AgreeFields(job.fields, theirs)
    ensures Merge(theirs, Edited(update)(job).fields) == Edited(update)(job).fields
  {
    AgreeTags(job.fields, theirs);
    EditedTags(update, job);
    MergeAbsorbs(theirs, Edited(update)(job).fields);
  }
}
