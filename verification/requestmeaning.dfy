/** What each request does to a server, row by row and field by field. */
module RequestMeaning {
  import opened Common
  import opened Jobs
  import opened JobServers
  import opened Views

  const EDITABLE: set<Tag> := {Progress, Status, Periodic, Timestamp, Tminus, Result}

  /** Editable fields take the values of the update, and if launched says so "launch" turns into "processing". */
  predicate TagAfter(before: Fields, after: Fields, update: Fields, launched: bool, tag: Tag) {
    if tag in EDITABLE && tag in update then
      tag in after && after[tag] == if launched && tag == Status && update[tag] == "launch" then "processing" else update[tag]
    else
      (tag in after <==> tag in before) && (tag in before ==> after[tag] == before[tag])
  }

  predicate SameJob(j: Job, y: Job) {
    y.id == j.id && y.original == j.original && y.plainname == j.plainname
  }

  /** Row y is row j after a local edit or, if launched is false, after a foreign one. */
  ghost predicate RowAfter(j: Job, y: Job, update: Fields, launched: bool) {
    SameJob(j, y) && forall tag :: TagAfter(j.fields, y.fields, update, launched, tag)
  }

  /** What leaves the table is done, and no longer periodic if that is to stop. */
  predicate GoneAs(j: Job, y: Job, stopPeriodic: bool) {
    && SameJob(j, y)
    && y.fields == j.fields + if stopPeriodic then map[Status := "done", Periodic := "none"] else map[Status := "done"]
  }

  /** The answer shows the row. */
  predicate Shows(a: Answer, y: Job) {
    a.id == y.id && a.plainname == y.plainname && a.fields == y.fields
  }

  /** Row y of the new table is an unselected old row or a selected one after the edit. */
  ghost predicate EditedFrom(jobs: seq<Job>, filter: Filter, update: Fields, launched: bool, y: Job) {
    exists j :: j in jobs && if filter(j) then RowAfter(j, y, update, launched) else y == j
  }

  ghost predicate SelectedAfter(jobs: seq<Job>, filter: Filter, update: Fields, y: Job) {
    exists j :: j in jobs && filter(j) && RowAfter(j, y, update, true)
  }

  ghost predicate RemovedFrom(jobs: seq<Job>, filter: Filter, stopPeriodic: bool, y: Job) {
    exists j :: j in jobs && filter(j) && GoneAs(j, y, stopPeriodic)
  }

  lemma MergeMeans(fields: Fields, update: Fields, tag: Tag)
    ensures TagAfter(fields, Merge(fields, update), update, false, tag)
  {
    WritesAll(update);
    assert IsUpdatable(tag) <==> tag in EDITABLE;
  }

  lemma SameFields(before: Fields, y: Fields, z: Fields, update: Fields, launched: bool)
    requires forall tag :: TagAfter(before, y, update, launched, tag)
    requires forall tag :: TagAfter(before, z, update, launched, tag)
    ensures y == z
  {
    forall tag
      ensures (tag in y <==> tag in z) && (tag in y ==> y[tag] == z[tag])
    {
      assert TagAfter(before, y, update, launched, tag) && TagAfter(before, z, update, launched, tag);
    }
  }

  lemma EditMeans(j: Job, y: Job, update: Fields)
    ensures RowAfter(j, y, update, true) <==> y == Edited(update)(j)
  {
    var z := Edited(update)(j);
    forall tag
      ensures TagAfter(j.fields, z.fields, update, true, tag)
    {
      MergeMeans(j.fields, update, tag);
    }
    if RowAfter(j, y, update, true) {
      SameFields(j.fields, y.fields, z.fields, update, true);
    }
  }

  lemma OverwriteMeans(j: Job, y: Job, update: Fields)
    ensures RowAfter(j, y, update, false) <==> y == Overwritten(update)(j)
  {
    var z := Overwritten(update)(j);
    forall tag
      ensures TagAfter(j.fields, z.fields, update, false, tag)
    {
      MergeMeans(j.fields, update, tag);
    }
    if RowAfter(j, y, update, false) {
      SameFields(j.fields, y.fields, z.fields, update, false);
    }
  }

  lemma RewrittenMember(jobs: seq<Job>, f: Filter, g: Job -> Job, y: Job)
    ensures y in Rewritten(jobs, f, g) <==> exists j :: j in jobs && if f(j) then y == g(j) else y == j
  {
    SelectMember(jobs, f);
    SelectMember(jobs, Not(f));
    MapMember(Select(jobs, f), g);
  }

  lemma FoundMember(jobs: seq<Job>, f: Filter, g: Job -> Job, y: Job)
    ensures y in Map(Select(jobs, f), g) <==> exists j :: j in jobs && f(j) && y == g(j)
  {
    SelectMember(jobs, f);
    MapMember(Select(jobs, f), g);
  }

  lemma EditedRows(jobs: seq<Job>, filter: Filter, update: Fields, y: Job)
    ensures y in Rewritten(jobs, filter, Edited(update)) <==> EditedFrom(jobs, filter, update, true, y)
  {
    RewrittenMember(jobs, filter, Edited(update), y);
    forall j
      ensures RowAfter(j, y, update, true) <==> y == Edited(update)(j)
    {
      EditMeans(j, y, update);
    }
  }

  lemma OverwrittenRows(jobs: seq<Job>, filter: Filter, update: Fields, y: Job)
    ensures y in Rewritten(jobs, filter, Overwritten(update)) <==> EditedFrom(jobs, filter, update, false, y)
  {
    RewrittenMember(jobs, filter, Overwritten(update), y);
    forall j
      ensures RowAfter(j, y, update, false) <==> y == Overwritten(update)(j)
    {
      OverwriteMeans(j, y, update);
    }
  }

  lemma SelectedRows(jobs: seq<Job>, filter: Filter, update: Fields, y: Job)
    ensures y in Map(Select(jobs, filter), Edited(update)) <==> SelectedAfter(jobs, filter, update, y)
  {
    FoundMember(jobs, filter, Edited(update), y);
    forall j
      ensures RowAfter(j, y, update, true) <==> y == Edited(update)(j)
    {
      EditMeans(j, y, update);
    }
  }

  /** Messages announce exactly the rows that announced holds for, to all peers, and there is none without a row. */
  ghost predicate Announces(s: Server, t: Server, announced: Job -> bool) {
    || (t.outbox == s.outbox && forall y :: !announced(y))
    || (exists answers ::
          && t.outbox == s.outbox + [Fju(s.addr, AllPeers, false, answers)]
          && answers != []
          && (forall a :: a in answers ==> exists y :: announced(y) && Shows(a, y))
          && (forall y :: announced(y) ==> exists a :: a in answers && Shows(a, y)))
  }

  lemma BroadcastMeans(s: Server, t: Server, rows: seq<Job>, announced: Job -> bool)
    requires t.outbox == s.outbox + Broadcast(s.addr, Map(rows, AsAnswer()))
    requires forall y :: y in rows <==> announced(y)
    ensures Announces(s, t, announced)
  {
    MapAt(rows, AsAnswer());
    var answers := Map(rows, AsAnswer());
    if rows != [] {
      assert announced(rows[0]);
      forall a | a in answers
        ensures exists y :: announced(y) && Shows(a, y)
      {
        var i :| 0 <= i < |answers| && answers[i] == a;
        assert announced(rows[i]) && Shows(a, rows[i]);
      }
      forall y | announced(y)
        ensures exists a :: a in answers && Shows(a, y)
      {
        var i :| 0 <= i < |rows| && rows[i] == y;
        assert answers[i] in answers && Shows(answers[i], y);
      }
    }
  }

  /** The rows among the pending actions are the old ones followed by exactly the rows that acted holds for. */
  ghost predicate Acts(s: Server, t: Server, acted: Job -> bool) {
    && s.actions <= t.actions
    && forall y :: y in t.actions[|s.actions|..] <==> acted(y)
  }

  /** The rows that an edit puts among the pending actions. */
  ghost function Acted(jobs: seq<Job>, filter: Filter, update: Fields): Job -> bool {
    y => (Text(update, Status) == "launch" || Text(update, Status) == "wakeup") && SelectedAfter(jobs, filter, update, y)
  }

  /** The rows that an edit announces. */
  ghost function Announced(jobs: seq<Job>, filter: Filter, update: Fields): Job -> bool {
    y => Text(update, Progress) != "forward" && Text(update, Progress) != "groom" && SelectedAfter(jobs, filter, update, y)
  }

  /** The rows that a removal acts on and announces. */
  ghost function Removed(jobs: seq<Job>, filter: Filter, stopPeriodic: bool): Job -> bool {
    y => RemovedFrom(jobs, filter, stopPeriodic, y)
  }

  /** An edit changes the selected rows, acts on them if it launches or wakes them, and announces them. */
  lemma ModifyMeans(s: Server, filter: Filter, update: Fields)
    requires s.requests != [] && s.requests[0] == ModifyLocal(filter, update)
    ensures var t := ExecuteNext(s);
      && (forall y :: y in t.jobs <==> EditedFrom(s.jobs, filter, update, true, y))
      && Acts(s, t, Acted(s.jobs, filter, update)) && Announces(s, t, Announced(s.jobs, filter, update))
  {
    var t := ExecuteNext(s);
    var rows := Map(Select(s.jobs, filter), Edited(update));
    forall y
      ensures y in t.jobs <==> EditedFrom(s.jobs, filter, update, true, y)
      ensures y in rows <==> SelectedAfter(s.jobs, filter, update, y)
    {
      EditedRows(s.jobs, filter, update, y);
      SelectedRows(s.jobs, filter, update, y);
    }
    BroadcastMeans(s, t, if Suppressed(update) then [] else rows, Announced(s.jobs, filter, update));
  }

  lemma DoneMeans(j: Job, y: Job, stopPeriodic: bool)
    ensures GoneAs(j, y, stopPeriodic) <==> y == Done(stopPeriodic)(j)
  {
    if stopPeriodic {
      assert j.fields[Status := "done"][Periodic := "none"] == j.fields + map[Status := "done", Periodic := "none"];
    } else {
      assert j.fields[Status := "done"] == j.fields + map[Status := "done"];
    }
  }

  lemma GoneRows(jobs: seq<Job>, filter: Filter, stopPeriodic: bool, y: Job)
    ensures y in Map(Select(jobs, filter), Done(stopPeriodic)) <==> RemovedFrom(jobs, filter, stopPeriodic, y)
  {
    FoundMember(jobs, filter, Done(stopPeriodic), y);
    forall j
      ensures GoneAs(j, y, stopPeriodic) <==> y == Done(stopPeriodic)(j)
    {
      DoneMeans(j, y, stopPeriodic);
    }
  }

  /** A removal takes exactly the selected rows out of the table; as done they are acted on and announced. */
  lemma RemoveMeans(s: Server, filter: Filter, stopPeriodic: bool)
    requires s.requests != [] && s.requests[0] == RemoveLocal(filter, stopPeriodic)
    ensures var t := ExecuteNext(s);
      && (forall y :: y in t.jobs <==> y in s.jobs && !filter(y))
      && Acts(s, t, Removed(s.jobs, filter, stopPeriodic)) && Announces(s, t, Removed(s.jobs, filter, stopPeriodic))
  {
    SelectMember(s.jobs, Not(filter));
    forall y
      ensures y in Map(Select(s.jobs, filter), Done(stopPeriodic)) <==> Removed(s.jobs, filter, stopPeriodic)(y)
    {
      GoneRows(s.jobs, filter, stopPeriodic, y);
    }
    BroadcastMeans(s, ExecuteNext(s), Map(Select(s.jobs, filter), Done(stopPeriodic)), Removed(s.jobs, filter, stopPeriodic));
  }

  /** A call of JobsModifyLocal that sets the status to "done" removes, and the periodic value given decides about more. */
  lemma DoneRemoves(filter: Filter, update: Fields)
    ensures Text(update, Status) != "done" ==> CallModifyLocal(filter, update) == [ModifyLocal(filter, update)]
    ensures Text(update, Status) == "done" && Periodic in update && update[Periodic] in {"", "none"} ==>
      CallModifyLocal(filter, update) == [RemoveLocal(filter, true)]
    ensures Text(update, Status) == "done" && (Periodic !in update || update[Periodic] !in {"", "none"}) ==>
      CallModifyLocal(filter, update) == [RemoveLocal(filter, false)]
  {
  }

  predicate Theirs(origin: Origin, j: Job) {
    Text(j.fields, Siserver) == origin.server && (origin.original.None? || j.original == origin.original.value)
  }

  ghost predicate HasOrigin(jobs: seq<Job>, origin: Origin) {
    exists j :: j in jobs && Theirs(origin, j)
  }

  ghost predicate OriginAfter(jobs: seq<Job>, origin: Origin, update: Fields, y: Job) {
    exists j :: j in jobs && if Theirs(origin, j) then RowAfter(j, y, update, false) else y == j
  }

  predicate AddedRow(nextId: nat, a: Answer, y: Job) {
    && y.id == nextId && y.original == a.id && y.fields == a.fields
    && y.plainname == if a.plainname == "" then "none" else a.plainname
  }

  /** A peer's jobs leave without being acted on or announced. */
  lemma RemoveForeignMeans(s: Server, origin: Origin)
    requires s.requests != [] && s.requests[0] == RemoveForeign(origin)
    ensures var t := ExecuteNext(s);
      && (forall y :: y in t.jobs <==> y in s.jobs && !Theirs(origin, y))
      && t.actions == s.actions && t.outbox == s.outbox
  {
    SelectMember(s.jobs, Not(OfOrigin(origin)));
  }

  lemma OriginRows(jobs: seq<Job>, origin: Origin, update: Fields, y: Job)
    ensures OriginAfter(jobs, origin, update, y) <==> EditedFrom(jobs, OfOrigin(origin), update, false, y)
  {
    forall j: Job
      ensures OfOrigin(origin)(j) == Theirs(origin, j)
    {
    }
  }

  lemma NoneSelected(jobs: seq<Job>, f: Filter)
    requires forall j :: j in jobs ==> !f(j)
    ensures Select(jobs, f) == []
  {
    SelectMember(jobs, f);
    var found := Select(jobs, f);
    assert forall i :: 0 <= i < |found| ==> found[i] in jobs;
  }

  /** What a peer says about its job changes the rows of that origin, or adds one row if there is none. */
  lemma AddOrModifyMeans(s: Server, origin: Origin, a: Answer)
    requires s.requests != [] && s.requests[0] == AddOrModifyForeign(origin, a)
    ensures var t := ExecuteNext(s);
      && t.actions == s.actions && t.outbox == s.outbox
      && forall y :: y in t.jobs <==>
           if HasOrigin(s.jobs, origin) then OriginAfter(s.jobs, origin, a.fields, y)
           else y in s.jobs || AddedRow(s.nextId, a, y)
  {
    SelectMember(s.jobs, OfOrigin(origin));
    forall j: Job
      ensures OfOrigin(origin)(j) == Theirs(origin, j)
    {
    }
    if HasOrigin(s.jobs, origin) {
      var j :| j in s.jobs && Theirs(origin, j);
      assert j in Select(s.jobs, OfOrigin(origin));
      forall y
        ensures y in ExecuteNext(s).jobs <==> OriginAfter(s.jobs, origin, a.fields, y)
      {
        OverwrittenRows(s.jobs, OfOrigin(origin), a.fields, y);
        OriginRows(s.jobs, origin, a.fields, y);
      }
    } else {
      NoneSelected(s.jobs, OfOrigin(origin));
    }
  }

  /** A new job joins the table with its name filled in and is announced to all peers. */
  lemma AddMeans(s: Server, job: Job)
    requires s.requests != [] && s.requests[0] == AddLocal(job)
    ensures var t := ExecuteNext(s);
      exists y ::
        && t.jobs == s.jobs + [y] && t.actions == s.actions
        && y.id == job.id && y.original == job.original && y.fields == job.fields
        && y.plainname == (if job.plainname == "" then "none" else job.plainname)
        && t.outbox == s.outbox + [Fju(s.addr, AllPeers, false, [Answer(y.id, y.plainname, y.fields)])]
  {
    var t := ExecuteNext(s);
    var y := t.jobs[|t.jobs| - 1];
    assert t.jobs == s.jobs + [y];
  }

  /** A full sync shows the target every local job and no other. */
  lemma SyncMeans(s: Server, target: string)
    requires s.requests != [] && s.requests[0] == SyncAll(target)
    ensures var t := ExecuteNext(s);
      exists answers ::
        && t.jobs == s.jobs && t.actions == s.actions
        && t.outbox == s.outbox + [Fju(s.addr, OnePeer(target), true, answers)]
        && (forall a :: a in answers ==> exists y :: y in s.jobs && Text(y.fields, Siserver) == s.addr && Shows(a, y))
        && (forall y :: y in s.jobs && Text(y.fields, Siserver) == s.addr ==> exists a :: a in answers && Shows(a, y))
  {
    var rows := Select(s.jobs, FromServer(s.addr));
    var answers := Map(rows, AsAnswer());
    MapAt(rows, AsAnswer());
    SelectMember(s.jobs, FromServer(s.addr));
    forall a | a in answers
      ensures exists y :: y in s.jobs && Text(y.fields, Siserver) == s.addr && Shows(a, y)
    {
      var i :| 0 <= i < |answers| && answers[i] == a;
      assert rows[i] in rows && Shows(a, rows[i]);
    }
    forall y | y in s.jobs && Text(y.fields, Siserver) == s.addr
      ensures exists a :: a in answers && Shows(a, y)
    {
      assert FromServer(s.addr)(y);
      var i :| 0 <= i < |rows| && rows[i] == y;
      assert answers[i] in answers && Shows(answers[i], y);
    }
    assert ExecuteNext(s).outbox == s.outbox + [Fju(s.addr, OnePeer(target), true, answers)];
  }
}
