/** Every interleaving of an owner, a peer, and a connection that may lose messages. */
module ReplicatedSystem {
  import opened Common
  import opened Jobs
  import opened JobServers
  import opened ForeignUpdates
  import opened Views
  import opened Soundness
  import opened Broadcasts
  import opened Followers
  import opened Replication
  import Sequences

  /**
   * a: the owner; wire: messages told to the peer; hand: what is left of the message that the peer's
   * connection goroutine is working through; b: the peer.
   */
  datatype Sys = Sys(a: Server, wire: seq<Fju>, hand: seq<Item>, b: Server)

  datatype Event =
    | OwnerAdd(plainname: string, fields: Fields)
    | OwnerCall(request: Request)
    | OwnerForward(message: Fju)
    | OwnerExecute
    | Tell
    | Lose(index: nat)
    | Receive
    | Handle
    | PeerAdd(plainname: string, fields: Fields)
    | PeerCall(request: Request)
    | PeerGivesUp
    | PeerExecute

  ghost predicate CallOk(s: Server, r: Request) {
    RequestOk(s.addr, s.nextId, ForeignIds(s.addr, s.jobs), r) && !r.AddLocal?
  }

  predicate NewJobOk(s: Server, fields: Fields) {
    Text(fields, Siserver) == s.addr && Text(fields, Status) != "done"
  }

  /** A change request for jobs of other servers, as JobsForwardModifyRequest sends it. */
  ghost predicate ForwardOk(s: Server, m: Fju) {
    && m.source == s.addr && !m.syncAll
    && forall a :: a in m.answers ==>
         Text(a.fields, Siserver) != s.addr && Text(a.fields, Siserver) != "localhost"
  }

  ghost predicate Enabled(s: Sys, e: Event) {
    match e
    case OwnerAdd(_, fields) => NewJobOk(s.a, fields)
    case OwnerCall(r) => CallOk(s.a, r) && Follows(r)
    case OwnerForward(m) => ForwardOk(s.a, m)
    case OwnerExecute => s.a.requests != []
    case Tell => s.a.outbox != []
    case Lose(i) => i < |s.wire|
    case Receive => s.wire != []
    case Handle => s.hand != []
    case PeerAdd(_, fields) => NewJobOk(s.b, fields)
    case PeerCall(r) => CallOk(s.b, r) && Neutral(r, s.a.addr)
    case PeerGivesUp => true
    case PeerExecute => s.b.requests != []
  }

  function Enqueue(s: Server, rs: seq<Request>): Server {
    s.(requests := s.requests + rs)
  }

  ghost function Next(s: Sys, e: Event): Sys
    requires Enabled(s, e)
  {
    match e
    case OwnerAdd(plainname, fields) => s.(a := CallAddLocal(s.a, plainname, fields))
    case OwnerCall(r) => s.(a := Enqueue(s.a, [r]))
    case OwnerForward(m) => s.(a := s.a.(outbox := s.a.outbox + [m]))
    case OwnerExecute => s.(a := ExecuteNext(s.a))
    case Tell =>
      var m := s.a.outbox[0];
      s.(a := s.a.(outbox := s.a.outbox[1..]), wire := s.wire + if IsFor(s.b.addr)(m) then [m] else [])
    case Lose(i) => s.(wire := s.wire[..i] + s.wire[i + 1..])
    case Receive => s.(wire := s.wire[1..], hand := s.hand + Items(s.wire[0]))
    case Handle => s.(hand := s.hand[1..], b := Enqueue(s.b, ItemRequests(s.b.addr, s.hand[0])))
    case PeerAdd(plainname, fields) => s.(b := CallAddLocal(s.b, plainname, fields))
    case PeerCall(r) => s.(b := Enqueue(s.b, [r]))
    case PeerGivesUp => s.(b := Enqueue(s.b, [RemoveForeign(Origin(s.a.addr, None))]))
    case PeerExecute => s.(b := ExecuteNext(s.b))
  }

  // ----- the invariant of every run

  ghost predicate Inv(s: Sys) {
    && Sound(s.a) && Sound(s.b) && s.a.addr != s.b.addr
    && (forall r :: r in s.a.requests ==> Follows(r))
    && (forall m :: m in s.a.outbox ==> m.source == s.a.addr)
    && (forall m :: m in s.wire ==> m.source == s.a.addr)
    && (forall i :: i in s.hand ==> i.source == s.a.addr)
  }

  lemma ItemsSource(m: Fju)
    ensures forall i :: i in Items(m) ==> i.source == m.source
  {
    UpdatesSource(m.source, m.answers);
  }

  lemma {:induction false} UpdatesSource(source: string, answers: seq<Answer>)
    ensures forall i :: i in Updates(source, answers) ==> i.source == source
  {
    if answers != [] {
      UpdatesSource(source, answers[..|answers| - 1]);
    }
  }

  lemma HandleOk(s: Server, item: Item)
    requires item.source != s.addr
    ensures forall r :: r in ItemRequests(s.addr, item) ==> CallOk(s, r)
  {
  }

  lemma {:induction false} EvictionsFollow(s: Server, update: Fields, found: seq<Job>)
    ensures forall r :: r in AllEvictions(s.addr, update, found) ==> Follows(r) && Neutral(r, s.addr)
  {
    if found != [] {
      EvictionsFollow(s, update, found[..|found| - 1]);
      GroomFollows();
    }
  }

  lemma GroomFollows()
    ensures Replicable(GROOM) && Replicable(FORWARD)
  {
    WritesAll(GROOM);
    WritesAll(FORWARD);
  }

  lemma ExecuteFollows(s: Server)
    requires s.requests != [] && forall r :: r in s.requests ==> Follows(r)
    ensures forall r :: r in ExecuteNext(s).requests ==> Follows(r)
  {
    var r := s.requests[0];
    if r.ModifyLocal? {
      EvictionsFollow(s, r.update, Select(s.jobs, r.filter));
    }
  }

  lemma EmittedSource(s: Server, r: Request)
    ensures forall m :: m in Emitted(s, r) ==> m.source == s.addr
  {
  }

  lemma OwnerExecuteInv(s: Sys)
    requires Inv(s) && s.a.requests != []
    ensures Inv(Next(s, OwnerExecute))
  {
    SoundExecuteNext(s.a);
    ExecuteFollows(s.a);
    EmittedIsNew(s.a.(requests := s.a.requests[1..]), s.a.requests[0]);
    EmittedSource(s.a.(requests := s.a.requests[1..]), s.a.requests[0]);
  }

  lemma StepInv(s: Sys, e: Event)
    requires Inv(s) && Enabled(s, e)
    ensures Inv(Next(s, e))
  {
    match e
    case OwnerAdd(plainname, fields) => SoundCallAddLocal(s.a, plainname, fields);
    case OwnerCall(r) => SoundEnqueue(s.a, [r]);
    case OwnerForward(m) =>
    case OwnerExecute => OwnerExecuteInv(s);
    case Tell =>
    case Lose(i) =>
    case Receive => ItemsSource(s.wire[0]);
    case Handle =>
      HandleOk(s.b, s.hand[0]);
      SoundEnqueue(s.b, ItemRequests(s.b.addr, s.hand[0]));
    case PeerAdd(plainname, fields) => SoundCallAddLocal(s.b, plainname, fields);
    case PeerCall(r) => SoundEnqueue(s.b, [r]);
    case PeerGivesUp => SoundEnqueue(s.b, [RemoveForeign(Origin(s.a.addr, None))]);
    case PeerExecute => SoundExecuteNext(s.b);
  }

  // ----- what the peer will know once everything in between has been delivered

  ghost function InFlight(s: Sys): seq<Fju> {
    s.wire + Select(s.a.outbox, IsFor(s.b.addr))
  }

  ghost function Known(s: Sys): View {
    ViewRequests(ViewOf(s.b.jobs, s.a.addr), s.b.requests, s.a.addr)
  }

  ghost function Pending(s: Sys): View {
    ViewItems(Known(s), s.b.addr, s.hand + FlatItems(InFlight(s)), s.a.addr)
  }

  ghost function Ours(s: Sys): View {
    ViewOf(s.a.jobs, s.a.addr)
  }

  ghost predicate Consistent(s: Sys) {
    Agree(Ours(s), Pending(s))
  }

  lemma SelectFor(ms: seq<Fju>, peer: string)
    requires ms != []
    ensures Select(ms, IsFor(peer)) == (if IsFor(peer)(ms[0]) then [ms[0]] else []) + Select(ms[1..], IsFor(peer))
  {
    assert ms == [ms[0]] + ms[1..];
    SelectConcat([ms[0]], ms[1..], IsFor(peer));
    assert [ms[0]][..0] == [];
  }

  /** Appending messages to the outgoing queue appends their effect. */
  lemma PendingEmit(s: Sys, more: seq<Fju>)
    ensures Pending(s.(a := s.a.(outbox := s.a.outbox + more)))
            == Replay(Pending(s), s.b.addr, more, s.a.addr)
  {
    var t := s.(a := s.a.(outbox := s.a.outbox + more));
    var news := Select(more, IsFor(s.b.addr));
    SelectConcat(s.a.outbox, more, IsFor(s.b.addr));
    Sequences.Regroup(s.wire, Select(s.a.outbox, IsFor(s.b.addr)), news);
    FlatItemsConcat(InFlight(s), news);
    Sequences.Regroup(s.hand, FlatItems(InFlight(s)), FlatItems(news));
    var now := s.hand + FlatItems(InFlight(s));
    ViewItemsConcat(Known(s), s.b.addr, now, FlatItems(news), s.a.addr);
  }

  lemma {:induction false} ForwardsAreNeutral(v: View, peer: string, owner: string, answers: seq<Answer>)
    requires forall a :: a in answers ==> Text(a.fields, Siserver) != owner && Text(a.fields, Siserver) != "localhost"
    ensures ViewItems(v, peer, Updates(owner, answers), owner) == v
  {
    if answers != [] {
      var init, last := answers[..|answers| - 1], answers[|answers| - 1];
      ForwardsAreNeutral(v, peer, owner, init);
      ViewItemsConcat(v, peer, Updates(owner, init), [Update(owner, last)], owner);
      assert last in answers;
      ViewNeutral(v, ItemRequests(peer, Update(owner, last)), owner);
      assert [Update(owner, last)][1..] == [];
    }
  }

  lemma PendingForward(s: Sys, m: Fju)
    requires ForwardOk(s.a, m)
    ensures Pending(Next(s, OwnerForward(m))) == Pending(s)
  {
    PendingEmit(s, [m]);
    SelectFor([m], s.b.addr);
    assert [m][1..] == [];
    if IsFor(s.b.addr)(m) {
      assert Select([m], IsFor(s.b.addr)) == [m];
      assert FlatItems([m]) == Items(m) + FlatItems([]) == Updates(m.source, m.answers);
      ForwardsAreNeutral(Pending(s), s.b.addr, s.a.addr, m.answers);
    }
  }

  lemma PendingTell(s: Sys)
    requires s.a.outbox != []
    ensures Pending(Next(s, Tell)) == Pending(s)
  {
    SelectFor(s.a.outbox, s.b.addr);
    assert InFlight(Next(s, Tell)) == InFlight(s);
  }

  lemma PendingReceive(s: Sys)
    requires s.wire != []
    ensures Pending(Next(s, Receive)) == Pending(s)
  {
    var t := Next(s, Receive);
    assert InFlight(s)[1..] == InFlight(t);
    assert t.hand + FlatItems(InFlight(t)) == s.hand + FlatItems(InFlight(s));
  }

  lemma PendingHandle(s: Sys)
    requires s.hand != []
    ensures Pending(Next(s, Handle)) == Pending(s)
  {
    var t := Next(s, Handle);
    var all := s.hand + FlatItems(InFlight(s));
    assert all[0] == s.hand[0] && all[1..] == t.hand + FlatItems(InFlight(t));
    ViewRequestsConcat(ViewOf(s.b.jobs, s.a.addr), s.b.requests, ItemRequests(s.b.addr, s.hand[0]), s.a.addr);
  }

  lemma KnownNeutral(s: Sys, rs: seq<Request>)
    requires forall r :: r in rs ==> Neutral(r, s.a.addr)
    ensures Known(s.(b := Enqueue(s.b, rs))) == Known(s)
  {
    ViewRequestsConcat(ViewOf(s.b.jobs, s.a.addr), s.b.requests, rs, s.a.addr);
    ViewNeutral(Known(s), rs, s.a.addr);
  }

  lemma KnownExecute(s: Sys)
    requires Inv(s) && s.b.requests != []
    ensures Known(Next(s, PeerExecute)) == Known(s)
  {
    var r, popped := s.b.requests[0], s.b.(requests := s.b.requests[1..]);
    SoundPop(s.b);
    ExecuteView(popped, r, s.a.addr);
    var done := s.(b := Execute(popped, r).(requests := popped.requests));
    var more := if r.ModifyLocal? then AllEvictions(s.b.addr, r.update, Select(s.b.jobs, r.filter)) else [];
    if r.ModifyLocal? {
      EvictionsNeutral(s.b, r.update, Select(s.b.jobs, r.filter), s.a.addr);
    }
    KnownNeutral(done, more);
    assert Next(s, PeerExecute).b.requests == popped.requests + more;
  }

  lemma {:induction false} EvictionsNeutral(s: Server, update: Fields, found: seq<Job>, owner: string)
    ensures forall r :: r in AllEvictions(s.addr, update, found) ==> Neutral(r, owner)
  {
    if found != [] {
      EvictionsNeutral(s, update, found[..|found| - 1], owner);
    }
  }

  // ----- full syncs cover what happened before them

  predicate Covers(ms: seq<Fju>, owner: string) {
    exists k :: 0 <= k < |ms| && ms[k].syncAll && ms[k].source == owner
  }

  /** Behind a full sync, what came earlier does not matter. */
  lemma SyncForgets(v: View, w: View, peer: string, before: seq<Item>, before': seq<Item>, ms: seq<Fju>, owner: string)
    requires Covers(ms, owner)
    ensures ViewItems(v, peer, before + FlatItems(ms), owner) == ViewItems(w, peer, before' + FlatItems(ms), owner)
  {
    var k :| 0 <= k < |ms| && ms[k].syncAll && ms[k].source == owner;
    assert ms == ms[..k] + ms[k..];
    FlatItemsConcat(ms[..k], ms[k..]);
    var rest := FlatItems(ms[k..]);
    assert rest[0] == Clear(owner);
    assert before + FlatItems(ms) == (before + FlatItems(ms[..k])) + rest;
    assert before' + FlatItems(ms) == (before' + FlatItems(ms[..k])) + rest;
    ViewItemsConcat(v, peer, before + FlatItems(ms[..k]), rest, owner);
    ViewItemsConcat(w, peer, before' + FlatItems(ms[..k]), rest, owner);
    ClearForgets(ViewItems(v, peer, before + FlatItems(ms[..k]), owner), peer, rest, owner);
    ClearForgets(ViewItems(w, peer, before' + FlatItems(ms[..k]), owner), peer, rest, owner);
  }

  lemma ClearForgets(v: View, peer: string, items: seq<Item>, owner: string)
    requires items != [] && items[0] == Clear(owner)
    ensures ViewItems(v, peer, items, owner) == ViewItems(map[], peer, items[1..], owner)
  {
    var clear := ItemRequests(peer, items[0]);
    assert clear[1..] == [];
    assert ViewRequests(v, clear, owner) == ViewRequests(map[], [], owner) == map[];
  }

  /** Events after which the peer will still end up with the owner's jobs. */
  ghost predicate Harmless(s: Sys, e: Event)
    requires Enabled(s, e)
  {
    match e
    case Lose(i) => Covers(s.wire[i + 1..] + Select(s.a.outbox, IsFor(s.b.addr)), s.a.addr)
    case PeerGivesUp => Covers(InFlight(s), s.a.addr)
    case _ => true
  }

  lemma PendingLose(s: Sys, i: nat)
    requires Enabled(s, Lose(i)) && Harmless(s, Lose(i))
    ensures Pending(Next(s, Lose(i))) == Pending(s)
  {
    var t := Next(s, Lose(i));
    var later := s.wire[i + 1..] + Select(s.a.outbox, IsFor(s.b.addr));
    assert InFlight(s) == s.wire[..i + 1] + later;
    assert InFlight(t) == s.wire[..i] + later;
    FlatItemsConcat(s.wire[..i + 1], later);
    FlatItemsConcat(s.wire[..i], later);
    var x, y := s.hand + FlatItems(s.wire[..i + 1]), s.hand + FlatItems(s.wire[..i]);
    assert s.hand + FlatItems(InFlight(s)) == x + FlatItems(later);
    assert t.hand + FlatItems(InFlight(t)) == y + FlatItems(later);
    SyncForgets(Known(s), Known(s), s.b.addr, x, y, later, s.a.addr);
  }

  lemma KnownAdd(s: Sys, plainname: string, fields: Fields)
    requires Enabled(s, PeerAdd(plainname, fields))
    ensures Known(Next(s, PeerAdd(plainname, fields))) == Known(s)
  {
    KnownNeutral(s, [AddLocal(Job(s.b.nextId, s.b.nextId, plainname, fields))]);
  }

  lemma PendingGivesUp(s: Sys)
    requires Enabled(s, PeerGivesUp) && Harmless(s, PeerGivesUp)
    ensures Pending(Next(s, PeerGivesUp)) == Pending(s)
  {
    SyncForgets(Known(s), Known(Next(s, PeerGivesUp)), s.b.addr, s.hand, s.hand, InFlight(s), s.a.addr);
  }

  // ----- main results

  lemma OwnerExecuteAgrees(s: Sys)
    requires Inv(s) && s.a.requests != [] && (Consistent(s) || s.a.requests[0] == SyncAll(s.b.addr))
    ensures Consistent(Next(s, OwnerExecute))
  {
    var r, popped := s.a.requests[0], s.a.(requests := s.a.requests[1..]);
    SoundPop(s.a);
    EmittedIsNew(popped, r);
    PendingEmit(s, Emitted(popped, r));
    assert Pending(Next(s, OwnerExecute)) == Pending(s.(a := s.a.(outbox := s.a.outbox + Emitted(popped, r))));
    if r == SyncAll(s.b.addr) {
      OwnerSyncs(popped, Pending(s), s.b.addr);
      AgreeSelf(Ours(s));
    } else {
      assert r in s.a.requests;
      OwnerStep(popped, r, Pending(s), s.b.addr);
    }
  }

  /** Each harmless step keeps the peer on the way to the owner's current jobs. */
  lemma StepAgrees(s: Sys, e: Event)
    requires Inv(s) && Consistent(s) && Enabled(s, e) && Harmless(s, e)
    ensures Consistent(Next(s, e))
  {
    if OfOwner(e) {
      OwnerEventAgrees(s, e);
    } else if OfNetwork(e) {
      NetworkEventAgrees(s, e);
    } else {
      PeerEventAgrees(s, e);
    }
  }

  predicate OfOwner(e: Event) {
    e.OwnerAdd? || e.OwnerCall? || e.OwnerForward? || e.OwnerExecute?
  }

  predicate OfNetwork(e: Event) {
    e.Tell? || e.Lose? || e.Receive? || e.Handle?
  }

  lemma OwnerEventAgrees(s: Sys, e: Event)
    requires Inv(s) && Consistent(s) && Enabled(s, e) && OfOwner(e)
    ensures Consistent(Next(s, e))
  {
    match e
    case OwnerAdd(_, _) =>
    case OwnerCall(_) =>
    case OwnerForward(m) => PendingForward(s, m);
    case OwnerExecute => OwnerExecuteAgrees(s);
  }

  lemma NetworkEventAgrees(s: Sys, e: Event)
    requires Consistent(s) && Enabled(s, e) && OfNetwork(e) && Harmless(s, e)
    ensures Consistent(Next(s, e))
  {
    match e
    case Tell => PendingTell(s);
    case Lose(i) => PendingLose(s, i);
    case Receive => PendingReceive(s);
    case Handle => PendingHandle(s);
  }

  lemma PeerEventAgrees(s: Sys, e: Event)
    requires Inv(s) && Consistent(s) && Enabled(s, e) && !OfOwner(e) && !OfNetwork(e) && Harmless(s, e)
    ensures Consistent(Next(s, e))
  {
    match e
    case PeerAdd(plainname, fields) =>
      KnownAdd(s, plainname, fields);
      KnownDecides(s, Next(s, e));
    case PeerCall(r) =>
      KnownNeutral(s, [r]);
      KnownDecides(s, Next(s, e));
    case PeerGivesUp =>
      PendingGivesUp(s);
    case PeerExecute =>
      KnownExecute(s);
      KeepsAddr(s.b);
      KnownDecides(s, Next(s, e));
  }

  lemma KeepsAddr(s: Server)
    requires s.requests != []
    ensures ExecuteNext(s).addr == s.addr
  {
  }

  /** What the peer does matters only for what it knows of the owner. */
  lemma KnownDecides(s: Sys, t: Sys)
    requires t.a == s.a && t.wire == s.wire && t.hand == s.hand && t.b.addr == s.b.addr && Known(t) == Known(s)
    ensures Consistent(s) <==> Consistent(t)
  {
  }

  ghost predicate Run(states: seq<Sys>, events: seq<Event>) {
    && |states| == |events| + 1
    && forall i :: 0 <= i < |events| ==> Enabled(states[i], events[i]) && states[i + 1] == Next(states[i], events[i])
  }

  /** In every run, on both servers, ids stay pairwise distinct and below the counter. */
  lemma {:induction false} RunIsSound(states: seq<Sys>, events: seq<Event>, n: nat)
    requires Run(states, events) && Inv(states[0]) && n < |states|
    ensures Inv(states[n])
  {
    if n > 0 {
      RunIsSound(states, events, n - 1);
      StepInv(states[n - 1], events[n - 1]);
    }
  }

  ghost predicate HarmlessFrom(states: seq<Sys>, events: seq<Event>, start: nat)
    requires Run(states, events)
  {
    forall i :: start <= i < |events| ==> Harmless(states[i], events[i])
  }

  /** From agreement on, a run of harmless events stays on the way to the owner's jobs. */
  lemma RunAgrees(states: seq<Sys>, events: seq<Event>, start: nat, n: nat)
    requires Run(states, events) && Inv(states[0]) && HarmlessFrom(states, events, start)
    requires start <= n < |states| && Consistent(states[start])
    ensures Consistent(states[n])
  {
    ghost var agrees := (i: nat) => i < |states| && Consistent(states[i]);
    forall i: nat | start <= i < n && agrees(i)
      ensures agrees(i + 1)
    {
      RunIsSound(states, events, i);
      StepAgreesAt(states, events, start, i);
    }
    Steps(agrees, start, n);
  }

  lemma {:induction false} Steps(p: nat -> bool, start: nat, n: nat)
    requires start <= n && p(start) && forall i: nat :: start <= i < n && p(i) ==> p(i + 1)
    ensures p(n)
    decreases n
  {
    if n > start {
      Steps(p, start, n - 1);
    }
  }

  lemma StepAgreesAt(states: seq<Sys>, events: seq<Event>, start: nat, n: nat)
    requires Run(states, events) && HarmlessFrom(states, events, start) && start <= n < |events|
    requires Inv(states[n]) && Consistent(states[n])
    ensures Consistent(states[n + 1])
  {
    StepAgrees(states[n], events[n]);
  }

  /**
   * Executing a full sync for the peer puts the replica on the way to the owner's jobs, whatever the peer held
   * and whatever was lost before; losing messages that the sync covers does no harm afterwards either.
   */
  lemma RunAgreesAfterSync(states: seq<Sys>, events: seq<Event>, sync: nat, n: nat)
    requires Run(states, events) && Inv(states[0]) && sync < n < |states|
    requires events[sync] == OwnerExecute && states[sync].a.requests[0] == SyncAll(states[sync].b.addr)
    requires HarmlessFrom(states, events, sync + 1)
    ensures Consistent(states[n])
  {
    RunIsSound(states, events, sync);
    OwnerExecuteAgrees(states[sync]);
    RunAgrees(states, events, sync + 1, n);
  }

  ghost predicate Drained(s: Sys) {
    InFlight(s) == [] && s.hand == [] && s.b.requests == []
  }

  ghost predicate Mirrors(ours: Job, row: Job, owner: string) {
    row.From(owner) && row.original == ours.id && AgreeFields(ours.fields, row.fields)
  }

  lemma JobMirrored(ours: seq<Job>, theirs: seq<Job>, owner: string, j: Job) returns (row: Job)
    requires DistinctBy(ours, OriginOf()) && DistinctBy(theirs, OriginOf())
    requires j in ours && j.From(owner) && j.original == j.id && Agree(ViewOf(ours, owner), ViewOf(theirs, owner))
    ensures row in theirs && Mirrors(j, row, owner)
  {
    ViewRow(ours, owner, j);
    ViewKeys(theirs, owner);
    row :| row in theirs && row.From(owner) && row.original == j.original;
    ViewRow(theirs, owner, row);
  }

  lemma RowMirrors(ours: seq<Job>, theirs: seq<Job>, owner: string, row: Job) returns (j: Job)
    requires DistinctBy(ours, OriginOf()) && DistinctBy(theirs, OriginOf())
    requires forall j :: j in ours && j.From(owner) ==> j.original == j.id
    requires row in theirs && row.From(owner) && Agree(ViewOf(ours, owner), ViewOf(theirs, owner))
    ensures j in ours && j.From(owner) && Mirrors(j, row, owner)
  {
    ViewRow(theirs, owner, row);
    ViewKeys(ours, owner);
    j :| j in ours && j.From(owner) && j.original == row.original;
    ViewRow(ours, owner, j);
  }

  lemma JobsMirrored(ours: seq<Job>, theirs: seq<Job>, owner: string)
    requires DistinctBy(ours, OriginOf()) && DistinctBy(theirs, OriginOf())
    requires forall j :: j in ours && j.From(owner) ==> j.original == j.id
    requires Agree(ViewOf(ours, owner), ViewOf(theirs, owner))
    ensures forall j :: j in ours && j.From(owner) ==> exists row :: row in theirs && Mirrors(j, row, owner)
  {
    forall j | j in ours && j.From(owner)
      ensures exists row :: row in theirs && Mirrors(j, row, owner)
    {
      var row := JobMirrored(ours, theirs, owner, j);
    }
  }

  lemma RowsMirror(ours: seq<Job>, theirs: seq<Job>, owner: string)
    requires DistinctBy(ours, OriginOf()) && DistinctBy(theirs, OriginOf())
    requires forall j :: j in ours && j.From(owner) ==> j.original == j.id
    requires Agree(ViewOf(ours, owner), ViewOf(theirs, owner))
    ensures forall row :: row in theirs && row.From(owner) ==>
              exists j :: j in ours && j.From(owner) && Mirrors(j, row, owner)
  {
    forall row | row in theirs && row.From(owner)
      ensures exists j :: j in ours && j.From(owner) && Mirrors(j, row, owner)
    {
      var j := RowMirrors(ours, theirs, owner, row);
    }
  }

  lemma RowsDiffer(theirs: seq<Job>, owner: string)
    requires DistinctBy(theirs, OriginOf())
    ensures forall x, y ::
              (x in theirs && y in theirs && x.From(owner) && y.From(owner) && x.original == y.original) ==> x == y
  {
    forall x, y | x in theirs && y in theirs && x.From(owner) && y.From(owner) && x.original == y.original
      ensures x == y
    {
      SameKeySameRow(theirs, OriginOf(), x, y);
    }
  }

  /** Once everything is delivered and executed, the peer's rows for the owner are exactly the owner's jobs. */
  lemma DrainedMirrors(s: Sys)
    requires Inv(s) && Consistent(s) && Drained(s)
    ensures forall j :: j in s.a.jobs && j.From(s.a.addr) ==> exists row :: row in s.b.jobs && Mirrors(j, row, s.a.addr)
    ensures forall row :: row in s.b.jobs && row.From(s.a.addr) ==>
              exists j :: j in s.a.jobs && j.From(s.a.addr) && Mirrors(j, row, s.a.addr)
    ensures forall x, y ::
              (x in s.b.jobs && y in s.b.jobs && x.From(s.a.addr) && y.From(s.a.addr) && x.original == y.original)
              ==> x == y
  {
    assert Pending(s) == ViewOf(s.b.jobs, s.a.addr);
    JobsMirrored(s.a.jobs, s.b.jobs, s.a.addr);
    RowsMirror(s.a.jobs, s.b.jobs, s.a.addr);
    RowsDiffer(s.b.jobs, s.a.addr);
  }

  lemma FreshServersAgree(a: string, b: string)
    requires a != b
    ensures var s := Sys(Server(a, [], 1, [], [], []), [], [], Server(b, [], 1, [], [], []));
            Inv(s) && Consistent(s)
  {
  }

  // ----- the condition on edits is exact

  /** A single edit keeps every agreeing replica in agreement exactly if the update is replicable. */
  lemma EditFollowedIffReplicable(addr: string, peer: string, update: Fields)
    requires addr != peer && Text(update, Status) != "done"
    ensures Replicable(update) <==> EditAlwaysFollowed(addr, peer, update)
  {
    if Replicable(update) {
      forall s: Server, filter: Filter, theirs: View | EditPossible(s, addr, filter, theirs)
        ensures EditFollowed(s, peer, filter, update, theirs)
      {
        OwnerModifies(s, filter, update, theirs, peer);
      }
    } else {
      EditLost(addr, peer, update);
    }
  }

  ghost predicate EditPossible(s: Server, addr: string, filter: Filter, theirs: View) {
    && s.addr == addr && Sound(s) && Agree(ViewOf(s.jobs, addr), theirs)
    && OwnOnly(addr, s.nextId, ForeignIds(addr, s.jobs), filter)
  }

  ghost predicate EditFollowed(s: Server, peer: string, filter: Filter, update: Fields, theirs: View) {
    Agree(ViewOf(ExecuteModify(s, filter, update).jobs, s.addr),
          Replay(theirs, peer, Emitted(s, ModifyLocal(filter, update)), s.addr))
  }

  ghost predicate EditAlwaysFollowed(addr: string, peer: string, update: Fields) {
    forall s: Server, filter: Filter, theirs: View ::
      EditPossible(s, addr, filter, theirs) ==> EditFollowed(s, peer, filter, update, theirs)
  }

  /** Marking a job as groomed while changing another field leaves every peer with the old value. */
  lemma EditLost(addr: string, peer: string, update: Fields)
    requires addr != peer && Text(update, Status) != "done" && !Replicable(update)
    ensures !EditAlwaysFollowed(addr, peer, update)
  {
    var job := Job(0, 0, "none", map[Siserver := addr]);
    var s, theirs := OneJobPossible(addr, job);
    OneJobLost(s, job, peer, update, theirs);
    var filter := FromServer(addr);
    assert EditPossible(s, addr, filter, theirs) && !EditFollowed(s, peer, filter, update, theirs);
  }

  lemma OneJobPossible(addr: string, job: Job) returns (s: Server, theirs: View)
    requires job.id == job.original == 0 && job.fields == map[Siserver := addr]
    ensures s == Server(addr, [job], 1, [], [], []) && theirs == map[0 := job.fields]
    ensures EditPossible(s, addr, FromServer(addr), theirs)
  {
    s, theirs := Server(addr, [job], 1, [], [], []), map[0 := job.fields];
    OneJobView(job, addr);
    AgreeSelf(theirs);
  }

  lemma OneJobLost(s: Server, job: Job, peer: string, update: Fields, theirs: View)
    requires s.addr != peer && s.jobs == [job] && job.original == 0 && job.fields == map[Siserver := s.addr]
    requires theirs == map[0 := job.fields] && !Replicable(update)
    ensures !EditFollowed(s, peer, FromServer(s.addr), update, theirs)
  {
    var filter := FromServer(s.addr);
    OneJobEdited(job, s.addr, update);
    assert Suppressed(update);
    assert Emitted(s, ModifyLocal(filter, update)) == Broadcast(s.addr, []);
    ReplayOrdered(theirs, peer, s.addr, []);
    NotFollowed(job, update);
    var after := ViewOf(ExecuteModify(s, filter, update).jobs, s.addr);
    assert after == map[0 := Edited(update)(job).fields];
    assert 0 in after && !AgreeFields(after[0], theirs[0]);
  }

  lemma OneJobView(job: Job, addr: string)
    requires job.From(addr)
    ensures ViewOf([job], addr) == map[job.original := job.fields]
  {
    assert [job][..0] == [];
    assert ViewOf([job], addr) == ViewOf([], addr)[job.original := job.fields];
  }

  lemma OneJobEdited(job: Job, addr: string, update: Fields)
    requires job.From(addr)
    ensures ViewOf(Rewritten([job], FromServer(addr), Edited(update)), addr)
            == map[job.original := Edited(update)(job).fields]
  {
    var g := Edited(update);
    SelectOne(job, FromServer(addr));
    SelectOne(job, Not(FromServer(addr)));
    EditKeepsOrigin(update);
    assert OriginOf()(g(job)) == OriginOf()(job);
    ViewOfOne(job, g, addr);
    assert [] + Map([job], g) == Map([job], g);
  }

  lemma NotFollowed(job: Job, update: Fields)
    requires !Replicable(update) && job.fields.Keys == {Siserver}
    ensures !AgreeFields(Edited(update)(job).fields, job.fields)
  {
    WritesAll(update);
    assert Progress in Writes(update, UPDATABLE_FIELDS);
    var tag :| tag in Writes(update, UPDATABLE_FIELDS) && tag != Progress;
    assert tag in Edited(update)(job).fields - {Progress} && tag !in job.fields - {Progress};
  }
}
