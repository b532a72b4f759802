/** A replica that agrees with the owner's table still agrees once it has received what the owner sent. */
module Followers {
  import opened Common
  import opened Jobs
  import opened JobServers
  import opened ForeignUpdates
  import opened Views
  import opened Soundness
  import opened Broadcasts

  ghost function ViewAnswer(v: View, answer: Answer): View {
    if Text(answer.fields, Status) == "done" then v - {answer.id}
    else if answer.id in v then v[answer.id := Merge(v[answer.id], answer.fields)]
    else v[answer.id := answer.fields]
  }

  ghost function ViewAnswers(v: View, answers: seq<Answer>): View {
    if answers == [] then v
    else ViewAnswer(ViewAnswers(v, answers[..|answers| - 1]), answers[|answers| - 1])
  }

  /** Items that report an owner's own jobs act on the view of that owner as plain updates. */
  lemma UpdateView(v: View, addr: string, owner: string, answer: Answer)
    requires owner != addr && Text(answer.fields, Siserver) == owner
    ensures ViewRequests(v, ItemRequests(addr, Update(owner, answer)), owner) == ViewAnswer(v, answer)
  {
    var ours := LocalProcessing(addr, Text(answer.fields, Macaddress));
    var cancel := if InstallStarted(answer.fields) then [ModifyLocal(ours, FORWARD), RemoveLocal(ours, true)] else [];
    var call := CallAddOrModifyForeign(Origin(owner, Some(answer.id)), answer);
    assert Addressed(owner, answer).fields == answer.fields;
    ViewRequestsConcat(v, cancel, call, owner);
    ViewNeutral(v, cancel, owner);
    assert call[1..] == [];
  }

  lemma {:induction false} UpdatesView(v: View, addr: string, owner: string, answers: seq<Answer>)
    requires owner != addr && forall a :: a in answers ==> Text(a.fields, Siserver) == owner
    ensures ViewItems(v, addr, Updates(owner, answers), owner) == ViewAnswers(v, answers)
  {
    if answers != [] {
      var init, last := answers[..|answers| - 1], answers[|answers| - 1];
      UpdatesView(v, addr, owner, init);
      ViewItemsConcat(v, addr, Updates(owner, init), [Update(owner, last)], owner);
      UpdateView(ViewAnswers(v, init), addr, owner, last);
      assert [Update(owner, last)][1..] == [];
    }
  }

  /** The rows a server broadcasts: its own, each once, none of them done. */
  ghost predicate OwnRows(addr: string, rows: seq<Job>) {
    && DistinctBy(rows, OriginOf())
    && forall j :: j in rows ==> j.From(addr) && j.original == j.id && !j.HasStatus("done")
  }

  lemma OwnRowsInit(addr: string, rows: seq<Job>)
    requires OwnRows(addr, rows) && rows != []
    ensures var init, last := rows[..|rows| - 1], rows[|rows| - 1];
            OwnRows(addr, init) && last.original !in Originals(init) && last.From(addr)
  {
    var init, last := rows[..|rows| - 1], rows[|rows| - 1];
    forall j | j in init
      ensures j.original != last.original
    {
      assert OriginOf()(j) != OriginOf()(last);
    }
  }

  lemma AnswerRows(rows: seq<Job>, g: Job -> Job)
    requires rows != []
    ensures var init, last := rows[..|rows| - 1], rows[|rows| - 1];
            Map(Map(rows, g), AsAnswer()) == Map(Map(init, g), AsAnswer()) + [AsAnswer()(g(last))]
  {
    AnswerSnoc(Map(rows[..|rows| - 1], g), g(rows[|rows| - 1]));
  }

  // ----- one lemma for each kind of request

  lemma {:induction false} FollowEdits(addr: string, ours: View, theirs: View, rows: seq<Job>, update: Fields)
    requires OwnRows(addr, rows) && Agree(ours, theirs) && Text(update, Status) != "done"
    requires forall j :: j in rows ==> j.original in ours && ours[j.original] == j.fields
    ensures Agree(ours + ViewOf(Map(rows, Edited(update)), addr),
                  ViewAnswers(theirs, Map(Map(rows, Edited(update)), AsAnswer())))
  {
    if rows == [] {
      assert ours + map[] == ours;
    } else {
      var g := Edited(update);
      var init, last := rows[..|rows| - 1], rows[|rows| - 1];
      OwnRowsInit(addr, rows);
      FollowEdits(addr, ours, theirs, init, update);
      AnswerRows(rows, g);
      EditKeepsOrigin(update);
      ViewLast(ours, addr, rows, g);
      FollowEdit(ours + ViewOf(Map(init, g), addr), ViewAnswers(theirs, Map(Map(init, g), AsAnswer())), last, update);
    }
  }

  /** The last row's entry overrides the view of the earlier ones, and was not among them. */
  lemma ViewLast(ours: View, addr: string, rows: seq<Job>, g: Job -> Job)
    requires OwnRows(addr, rows) && rows != [] && KeepsOrigin(g) && rows[|rows| - 1].original in ours
    ensures var init, last := rows[..|rows| - 1], rows[|rows| - 1];
            var before := ours + ViewOf(Map(init, g), addr);
            && before[last.original] == ours[last.original]
            && ours + ViewOf(Map(rows, g), addr) == before[last.original := g(last).fields]
  {
    var init, last := rows[..|rows| - 1], rows[|rows| - 1];
    OwnRowsInit(addr, rows);
    ViewMapKeys(init, addr, g);
    var edited := Map(init, g) + [g(last)];
    assert edited[..|edited| - 1] == Map(init, g);
    assert OriginOf()(g(last)) == OriginOf()(last);
    OverrideOne(ours, ViewOf(Map(init, g), addr), last.original, g(last).fields);
  }

  lemma FollowEdit(ours: View, theirs: View, job: Job, update: Fields)
    requires Agree(ours, theirs) && Text(update, Status) != "done" && !job.HasStatus("done")
    requires job.original == job.id && job.id in ours && ours[job.id] == job.fields
    ensures Agree(ours[job.original := Edited(update)(job).fields], ViewAnswer(theirs, AsAnswer()(Edited(update)(job))))
  {
    assert AgreeFields(ours[job.id], theirs[job.id]);
    MergeCatchesUp(job, theirs[job.id], update);
    EditedStatus(update, job);
  }

  lemma {:induction false} FollowHiddenEdit(addr: string, ours: View, theirs: View, rows: seq<Job>, update: Fields)
    requires OwnRows(addr, rows) && Agree(ours, theirs) && Suppressed(update) && Replicable(update)
    requires forall j :: j in rows ==> j.original in ours && ours[j.original] == j.fields
    ensures Agree(ours + ViewOf(Map(rows, Edited(update)), addr), theirs)
  {
    if rows == [] {
      assert ours + map[] == ours;
    } else {
      var g := Edited(update);
      var init, last := rows[..|rows| - 1], rows[|rows| - 1];
      OwnRowsInit(addr, rows);
      FollowHiddenEdit(addr, ours, theirs, init, update);
      EditKeepsOrigin(update);
      ViewLast(ours, addr, rows, g);
      FollowHidden(ours + ViewOf(Map(init, g), addr), theirs, last, update);
    }
  }

  lemma FollowHidden(ours: View, theirs: View, job: Job, update: Fields)
    requires Agree(ours, theirs) && Suppressed(update) && Replicable(update)
    requires job.original in ours && ours[job.original] == job.fields
    ensures Agree(ours[job.original := Edited(update)(job).fields], theirs)
  {
    HiddenEdit(job, theirs[job.original], update);
  }

  lemma HiddenEdit(job: Job, theirs: Fields, update: Fields)
    requires AgreeFields(job.fields, theirs) && Suppressed(update) && Replicable(update)
    ensures AgreeFields(Edited(update)(job).fields, theirs)
  {
    WritesAll(update);
    assert Status !in Writes(update, UPDATABLE_FIELDS);
    assert Edited(update)(job).fields - {Progress} == job.fields - {Progress};
  }

  lemma WithoutTwice(v: View, keys: set<nat>, key: nat)
    ensures v - keys - {key} == v - (keys + {key})
  {
  }

  lemma ViewAnswersSnoc(v: View, answers: seq<Answer>, answer: Answer)
    ensures ViewAnswers(v, answers + [answer]) == ViewAnswer(ViewAnswers(v, answers), answer)
  {
    assert (answers + [answer])[..|answers|] == answers;
  }

  lemma OriginalsSnoc(rows: seq<Job>)
    requires rows != []
    ensures Originals(rows) == Originals(rows[..|rows| - 1]) + {rows[|rows| - 1].original}
  {
    assert rows == rows[..|rows| - 1] + [rows[|rows| - 1]];
  }

  lemma DoneAnswers(v: View, job: Job, stopPeriodic: bool)
    requires job.original == job.id
    ensures ViewAnswer(v, AsAnswer()(Done(stopPeriodic)(job))) == v - {job.original}
  {
  }

  lemma {:induction false} FollowRemovals(theirs: View, rows: seq<Job>, stopPeriodic: bool)
    requires forall j :: j in rows ==> j.original == j.id
    ensures ViewAnswers(theirs, Map(Map(rows, Done(stopPeriodic)), AsAnswer())) == theirs - Originals(rows)
  {
    if rows != [] {
      var g := Done(stopPeriodic);
      var init, last := rows[..|rows| - 1], rows[|rows| - 1];
      FollowRemovals(theirs, init, stopPeriodic);
      AnswerRows(rows, g);
      ViewAnswersSnoc(theirs, Map(Map(init, g), AsAnswer()), AsAnswer()(g(last)));
      DoneAnswers(theirs - Originals(init), last, stopPeriodic);
      OriginalsSnoc(rows);
      WithoutTwice(theirs, Originals(init), last.original);
    }
  }

  /** Starting from nothing, the answers of a full sync rebuild the sender's view of itself. */
  lemma {:induction false} FollowSync(addr: string, rows: seq<Job>)
    requires OwnRows(addr, rows)
    ensures ViewAnswers(map[], Map(rows, AsAnswer())) == ViewOf(rows, addr)
  {
    if rows != [] {
      var init, last := rows[..|rows| - 1], rows[|rows| - 1];
      OwnRowsInit(addr, rows);
      FollowSync(addr, init);
      ViewKeys(init, addr);
      AnswerSnoc(init, last);
      assert rows == init + [last];
      assert forall j :: j in init ==> j.original in Originals(init);
    }
  }

  lemma AgreeSelf(v: View)
    ensures Agree(v, v)
  {
  }

  lemma AgreeMinus(ours: View, theirs: View, gone: set<nat>)
    requires Agree(ours, theirs)
    ensures Agree(ours - gone, theirs - gone)
  {
  }
}
