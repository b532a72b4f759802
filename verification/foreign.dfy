/** The receiver of foreign_job_updates messages. */
module ForeignUpdates {
  import opened Common
  import opened Jobs
  import opened JobServers

  /** What the receiver works through: a sync=all message first clears its sender's jobs. */
  datatype Item = Clear(source: string) | Update(source: string, answer: Answer)

  const FORWARD: Fields := map[Progress := "forward"]

  /** An answer may name its sender as "localhost". */
  function Addressed(source: string, answer: Answer): Answer {
    if Text(answer.fields, Siserver) == "localhost" then answer.(fields := answer.fields[Siserver := source])
    else answer
  }

  function LocalWithId(addr: string, id: nat): Filter {
    (j: Job) => j.id == id && j.From(addr)
  }

  /** The ids of a gosa-si mean nothing here, so the kind of job and the machine have to do. */
  function LocalLike(addr: string, headertag: string, macaddress: string): Filter {
    (j: Job) => j.From(addr) && Text(j.fields, Headertag) == headertag && Text(j.fields, Macaddress) == macaddress
  }

  function OwnJob(addr: string, gosusi: bool, answer: Answer): Filter {
    if gosusi then LocalWithId(addr, answer.id)
    else LocalLike(addr, Text(answer.fields, Headertag), Text(answer.fields, Macaddress))
  }

  /** All install or update jobs of the machine that this server is processing. */
  function LocalProcessing(addr: string, macaddress: string): Filter {
    (j: Job) => j.From(addr) && Text(j.fields, Macaddress) == macaddress && j.HasStatus("processing")
                && j.InstallOrUpdate()
  }

  /** A peer that reports a local job as done wants it cancelled, periodic or not. */
  function Cancelling(update: Fields): Fields {
    if Text(update, Status) == "done" then update[Periodic := "none"] else update
  }

  function InstallStarted(fields: Fields): bool {
    Text(fields, Status) == "processing"
    && (Text(fields, Headertag) == "trigger_action_reinstall" || Text(fields, Headertag) == "trigger_action_update")
  }

  function UpdateRequests(addr: string, gosusi: bool, source: string, answer: Answer): seq<Request> {
    var siserver := Text(answer.fields, Siserver);
    if siserver == addr then
      CallModifyLocal(OwnJob(addr, gosusi, answer), Cancelling(answer.fields))
    else if siserver == source then
      (if InstallStarted(answer.fields) then
         var ours := LocalProcessing(addr, Text(answer.fields, Macaddress));
         [ModifyLocal(ours, FORWARD), RemoveLocal(ours, true)]
       else [])
      + CallAddOrModifyForeign(Origin(source, Some(answer.id)), answer)
    else []
  }

  /** The peers that are to be asked for their jobs: a gosa-si that changed ours, and third parties. */
  function UpdateSyncs(addr: string, gosusi: bool, source: string, answer: Answer): set<string> {
    var siserver := Text(answer.fields, Siserver);
    if siserver == addr then if gosusi then {} else {source}
    else if siserver == source then {}
    else {siserver}
  }

  /** What go-susi does with an item of another go-susi's message. */
  function ItemRequests(addr: string, item: Item): seq<Request> {
    match item
    case Clear(source) => [RemoveForeign(Origin(source, None))]
    case Update(source, answer) => UpdateRequests(addr, true, source, Addressed(source, answer))
  }

  function Updates(source: string, answers: seq<Answer>): seq<Item> {
    if answers == [] then [] else Updates(source, answers[..|answers| - 1]) + [Update(source, answers[|answers| - 1])]
  }

  function Items(m: Fju): seq<Item> {
    (if m.syncAll then [Clear(m.source)] else []) + Updates(m.source, m.answers)
  }

  predicate LegalAnswer(legal: string -> bool, source: string, answer: Answer) {
    legal(Text(Addressed(source, answer).fields, Siserver))
  }

  /** The requests for the items up to the first one whose server address is not legal. */
  function AllRequests(addr: string, legal: string -> bool, gosusi: bool, source: string, answers: seq<Answer>): seq<Request> {
    if answers == [] || !LegalAnswer(legal, source, answers[0]) then []
    else
      UpdateRequests(addr, gosusi, source, Addressed(source, answers[0]))
      + AllRequests(addr, legal, gosusi, source, answers[1..])
  }

  /** Nobody is asked if an address is not legal. */
  function AllSyncs(addr: string, legal: string -> bool, gosusi: bool, source: string, answers: seq<Answer>): Option<set<string>> {
    if answers == [] then Some({})
    else if !LegalAnswer(legal, source, answers[0]) then None
    else
      match AllSyncs(addr, legal, gosusi, source, answers[1..])
      case None => None
      case Some(peers) => Some(UpdateSyncs(addr, gosusi, source, Addressed(source, answers[0])) + peers)
  }

  function MessageRequests(addr: string, legal: string -> bool, gosusi: bool, m: Fju): seq<Request> {
    if !legal(m.source) then []
    else (if m.syncAll then [RemoveForeign(Origin(m.source, None))] else [])
         + AllRequests(addr, legal, gosusi, m.source, m.answers)
  }

  function MessageSyncs(addr: string, legal: string -> bool, gosusi: bool, m: Fju): set<string> {
    if !legal(m.source) then {}
    else
      match AllSyncs(addr, legal, gosusi, m.source, m.answers)
      case None => {}
      case Some(peers) => peers
  }

  method ApplyAnswer(db: JobServer, gosusi: bool, source: string, answer: Answer) returns (syncs: set<string>)
    modifies db`requests
    ensures db.requests == old(db.requests) + UpdateRequests(db.addr, gosusi, source, answer)
    ensures syncs == UpdateSyncs(db.addr, gosusi, source, answer)
  {
    syncs := {};
    var siserver := Text(answer.fields, Siserver);
    if siserver == db.addr {
      var filter;
      if gosusi {
        filter := LocalWithId(db.addr, answer.id);
      } else {
        filter := LocalLike(db.addr, Text(answer.fields, Headertag), Text(answer.fields, Macaddress));
        syncs := {source};
      }
      var update := answer.fields;
      if Text(update, Status) == "done" {
        update := update[Periodic := "none"];
      }
      db.JobsModifyLocal(filter, update);
    } else if siserver == source {
      if InstallStarted(answer.fields) {
        var ours := LocalProcessing(db.addr, Text(answer.fields, Macaddress));
        db.JobsModifyLocal(ours, FORWARD);
        db.JobsRemoveLocal(ours, true);
      }
      db.JobsAddOrModifyForeign(Origin(source, Some(answer.id)), answer);
    } else {
      syncs := {siserver};
    }
  }

  lemma AllRequestsAt(addr: string, legal: string -> bool, gosusi: bool, source: string, answers: seq<Answer>, i: nat,
                      before: seq<Request>)
    requires i < |answers|
    ensures before + AllRequests(addr, legal, gosusi, source, answers[i..])
            == if !LegalAnswer(legal, source, answers[i]) then before
               else before + UpdateRequests(addr, gosusi, source, Addressed(source, answers[i]))
                    + AllRequests(addr, legal, gosusi, source, answers[i + 1..])
  {
    assert answers[i..][1..] == answers[i + 1..];
  }

  /** The peers found so far together with those that the answers from position i on give. */
  ghost predicate SyncsSoFar(addr: string, legal: string -> bool, gosusi: bool, source: string, answers: seq<Answer>, i: nat,
                             found: set<string>)
    requires i <= |answers|
  {
    AllSyncs(addr, legal, gosusi, source, answers) ==
    match AllSyncs(addr, legal, gosusi, source, answers[i..])
    case None => None
    case Some(peers) => Some(found + peers)
  }

  lemma SyncsBegin(addr: string, legal: string -> bool, gosusi: bool, source: string, answers: seq<Answer>)
    ensures SyncsSoFar(addr, legal, gosusi, source, answers, 0, {})
  {
    assert answers[0..] == answers;
    match AllSyncs(addr, legal, gosusi, source, answers)
    case None =>
    case Some(peers) => assert {} + peers == peers;
  }

  lemma SyncsGoOn(addr: string, legal: string -> bool, gosusi: bool, source: string, answers: seq<Answer>, i: nat,
                  found: set<string>)
    requires i < |answers| && SyncsSoFar(addr, legal, gosusi, source, answers, i, found)
    requires LegalAnswer(legal, source, answers[i])
    ensures SyncsSoFar(addr, legal, gosusi, source, answers, i + 1,
                       found + UpdateSyncs(addr, gosusi, source, Addressed(source, answers[i])))
  {
    assert answers[i..][1..] == answers[i + 1..];
    var more := UpdateSyncs(addr, gosusi, source, Addressed(source, answers[i]));
    match AllSyncs(addr, legal, gosusi, source, answers[i + 1..])
    case None =>
    case Some(peers) => assert found + (more + peers) == (found + more) + peers;
  }

  method ApplyAnswers(db: JobServer, legal: string -> bool, gosusi: bool, source: string, answers: seq<Answer>)
      returns (syncs: Option<set<string>>)
    modifies db`requests
    ensures db.requests == old(db.requests) + AllRequests(db.addr, legal, gosusi, source, answers)
    ensures syncs == AllSyncs(db.addr, legal, gosusi, source, answers)
  {
    var found: set<string> := {};
    var i := 0;
    SyncsBegin(db.addr, legal, gosusi, source, answers);
    while i < |answers|
      invariant 0 <= i <= |answers|
      invariant db.requests + AllRequests(db.addr, legal, gosusi, source, answers[i..])
             == old(db.requests) + AllRequests(db.addr, legal, gosusi, source, answers)
      invariant SyncsSoFar(db.addr, legal, gosusi, source, answers, i, found)
    {
      AllRequestsAt(db.addr, legal, gosusi, source, answers, i, db.requests);
      var answer := Addressed(source, answers[i]);
      if !legal(Text(answer.fields, Siserver)) {
        return None;
      }
      SyncsGoOn(db.addr, legal, gosusi, source, answers, i, found);
      var more := ApplyAnswer(db, gosusi, source, answer);
      found := found + more;
      i := i + 1;
    }
    assert found + {} == found;
    syncs := Some(found);
  }

  /** Handles a message; the result are the peers that are asked for all their jobs if they are no go-susi. */
  method ForeignJobUpdates(db: JobServer, legal: string -> bool, gosusi: bool, m: Fju) returns (syncs: set<string>)
    modifies db`requests
    ensures db.requests == old(db.requests) + MessageRequests(db.addr, legal, gosusi, m)
    ensures syncs == MessageSyncs(db.addr, legal, gosusi, m)
  {
    if !legal(m.source) {
      return {};
    }
    ghost var before, all := db.requests, AllRequests(db.addr, legal, gosusi, m.source, m.answers);
    if m.syncAll {
      db.JobsRemoveForeign(Origin(m.source, None));
    }
    AppendTwice(before, if m.syncAll then [RemoveForeign(Origin(m.source, None))] else [], all);
    var peers := ApplyAnswers(db, legal, gosusi, m.source, m.answers);
    syncs := if peers.Some? then peers.value else {};
  }

  lemma AppendTwice(a: seq<Request>, b: seq<Request>, c: seq<Request>)
    ensures a + b + c == a + (b + c) && a + [] == a
  {
  }

  /** What is said about third parties changes nothing; they are asked instead. */
  lemma {:induction false} ThirdPartiesAreAsked(addr: string, legal: string -> bool, gosusi: bool, source: string,
                                                answers: seq<Answer>, peer: string)
    requires peer != addr && peer != source && AllSyncs(addr, legal, gosusi, source, answers).Some?
    ensures peer in AllSyncs(addr, legal, gosusi, source, answers).value <==>
      exists a :: a in answers && Text(Addressed(source, a).fields, Siserver) == peer
    ensures forall a :: a in answers && Text(Addressed(source, a).fields, Siserver) == peer ==>
      UpdateRequests(addr, gosusi, source, Addressed(source, a)) == []
  {
    if answers != [] {
      ThirdPartiesAreAsked(addr, legal, gosusi, source, answers[1..], peer);
      assert forall a :: a in answers <==> a == answers[0] || a in answers[1..];
    }
  }

  /** With legal addresses throughout, handling a message is handling its items one after the other. */
  lemma {:induction false} MessageIsItems(addr: string, legal: string -> bool, source: string, answers: seq<Answer>)
    requires forall a :: a in answers ==> LegalAnswer(legal, source, a)
    ensures AllRequests(addr, legal, true, source, answers) == FlatRequests(addr, Updates(source, answers))
  {
    if answers != [] {
      MessageIsItems(addr, legal, source, answers[1..]);
      UpdatesCons(source, answers);
      var items := Updates(source, answers);
      assert items[1..] == Updates(source, answers[1..]);
    }
  }

  function FlatRequests(addr: string, items: seq<Item>): seq<Request> {
    if items == [] then [] else ItemRequests(addr, items[0]) + FlatRequests(addr, items[1..])
  }

  lemma {:induction false} UpdatesCons(source: string, answers: seq<Answer>)
    requires answers != []
    ensures Updates(source, answers) == [Update(source, answers[0])] + Updates(source, answers[1..])
  {
    if |answers| > 1 {
      assert answers[..|answers| - 1][1..] == answers[1..][..|answers| - 2];
      UpdatesCons(source, answers[..|answers| - 1]);
    }
  }
}
