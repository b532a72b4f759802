/** Registering at a server and staying registered: one loop over a queue of commands and messages, and its timers. */
module Registration {
  import opened Common

  /** Queue items: commands, messages of servers, and inquiries about the current server. */
  datatype Item = Command(word: string) | Registered(source: string) | Deregistered(source: string) | Inquiry

  const REGISTER := "register"
  const TIMEOUT := "timeout"
  const CONFIRM := "confirm"
  const CONFIRM_TIMEOUT := "confirm_timeout"

  const WORDS := {REGISTER, TIMEOUT, CONFIRM, CONFIRM_TIMEOUT}

  /**
   * phase 0: not registered, 1: verifying, 2: registered. A timer pushes its command when it runs out.
   */
  datatype State = State(phase: nat, current: string, index: int, servers: seq<string>, queue: seq<Item>, timers: multiset<string>)

  /** The first position from the given one on with a server that is not empty. */
  function Skip(servers: seq<string>, i: nat): (r: nat)
    ensures i <= r && (r < |servers| ==> servers[r] != "")
    decreases |servers| - i
  {
    if i < |servers| && servers[i] == "" then Skip(servers, i + 1) else i
  }

  /** The word that an item stands for; items that are dealt with at once have none. */
  function WordOf(s: State, item: Item): Option<string> {
    match item
    case Command(w) => Some(w)
    case Registered(source) => Some(source)
    case Deregistered(source) => if source == s.current then Some(CONFIRM) else None
    case Inquiry => None
  }

  function OnRegister(s: State, servers: seq<string>): State {
    if s.phase != 0 then s
    else s.(servers := servers, current := "", index := -1, queue := s.queue + [Command(TIMEOUT)])
  }

  function OnConfirmTimeout(s: State): State {
    if s.phase != 1 then s else s.(phase := 0, queue := s.queue + [Command(REGISTER)])
  }

  function OnTimeout(s: State, resolve: string -> string): State
    requires s.index >= -1
  {
    if s.phase != 0 then s
    else
      var i := Skip(s.servers, s.index + 1);
      if i < |s.servers| then
        s.(index := i, current := resolve(s.servers[i]), timers := s.timers + multiset{TIMEOUT})
      else s.(index := i, queue := [Command(REGISTER)] + s.queue)
  }

  function OnConfirm(s: State): State {
    if s.phase != 2 then s else s.(phase := 1, timers := s.timers + multiset{CONFIRM_TIMEOUT})
  }

  /** What the loop does with a word; the cases are tried in this order. */
  function OnWord(s: State, w: string, servers: seq<string>, resolve: string -> string): State
    requires s.index >= -1
  {
    if w == REGISTER then OnRegister(s, servers)
    else if w == CONFIRM_TIMEOUT then OnConfirmTimeout(s)
    else if w == TIMEOUT then OnTimeout(s, resolve)
    else if w == s.current then s.(phase := 2)
    else if w == CONFIRM then OnConfirm(s)
    else s.(queue := s.queue + [Command(CONFIRM)])
  }

  function Handled(s: State, servers: seq<string>, resolve: string -> string): State
    requires s.queue != [] && s.index >= -1
  {
    var rest := s.(queue := s.queue[1..]);
    match WordOf(s, s.queue[0])
    case None => rest
    case Some(w) => OnWord(rest, w, servers, resolve)
  }

  /**
   * The loop handles the first item, a timer runs out, or something is pushed from outside. The servers and
   * addresses are those that the configuration and the name service offer in that round.
   */
  datatype Event = Handle(servers: seq<string>, resolve: string -> string) | Fire(word: string) | Push(item: Item)

  predicate Enabled(s: State, e: Event) {
    match e
    case Handle(_, _) => s.queue != [] && s.index >= -1
    case Fire(w) => w in s.timers
    case Push(item) => match item
      case Command(w) => w == CONFIRM
      case Registered(source) => source != ""
      case Deregistered(source) => source != ""
      case Inquiry => true
  }

  function Next(s: State, e: Event): State
    requires Enabled(s, e)
  {
    match e
    case Handle(servers, resolve) => Handled(s, servers, resolve)
    case Fire(w) => s.(timers := s.timers - multiset{w}, queue := s.queue + [Command(w)])
    case Push(item) => s.(queue := s.queue + [item])
  }

  const INITIAL := State(0, "", 0, [], [Command(REGISTER)], multiset{})

  predicate Run(s: State, events: seq<Event>)
    decreases |events|, 0
  {
    events == [] ||
    (Run(s, events[..|events| - 1]) && Enabled(After(s, events[..|events| - 1]), events[|events| - 1]))
  }

  function After(s: State, events: seq<Event>): State
    requires Run(s, events)
    decreases |events|, 1
  {
    if events == [] then s else Next(After(s, events[..|events| - 1]), events[|events| - 1])
  }

  predicate Pending(s: State, w: string) {
    Command(w) in s.queue || w in s.timers
  }

  predicate Live(s: State) {
    && s.phase <= 2 && s.index >= -1
    && (s.phase == 0 ==> Pending(s, REGISTER) || Pending(s, TIMEOUT))
    && (s.phase == 1 ==> Pending(s, CONFIRM_TIMEOUT))
    && (forall item :: item in s.queue && item.Registered? ==> item.source != "")
    && (forall item :: item in s.queue && item.Command? ==> item.word in WORDS)
    && (forall w :: w in s.timers ==> w in WORDS)
  }

  lemma QueueRest(s: State)
    requires s.queue != []
    ensures forall item :: item in s.queue[1..] ==> item in s.queue
    ensures forall item :: item in s.queue ==> item == s.queue[0] || item in s.queue[1..]
  {
  }

  lemma PendingStays(s: State, n: State, w: string)
    requires Pending(s, w) && s.queue != [] && s.queue[0] != Command(w)
    requires forall item :: item in s.queue[1..] ==> item in n.queue
    requires forall v :: v in s.timers ==> v in n.timers
    ensures Pending(n, w)
  {
    QueueRest(s);
  }

  /** Neither waiting for a server nor for a confirmation can the loop be left without something to come. */
  lemma HandledLive(s: State, servers: seq<string>, resolve: string -> string)
    requires Live(s) && s.queue != []
    ensures Live(Handled(s, servers, resolve))
  {
    var n := Handled(s, servers, resolve);
    QueueRest(s);
    if n.phase == 0 && s.phase == 0 {
      if Pending(s, REGISTER) && s.queue[0] != Command(REGISTER) {
        PendingStays(s, n, REGISTER);
      } else if Pending(s, TIMEOUT) && s.queue[0] != Command(TIMEOUT) {
        PendingStays(s, n, TIMEOUT);
      }
    }
    if n.phase == 1 && s.phase == 1 {
      PendingStays(s, n, CONFIRM_TIMEOUT);
    }
  }

  lemma FiredLive(s: State, w: string)
    requires Live(s) && w in s.timers
    ensures Live(Next(s, Fire(w)))
  {
    var n := Next(s, Fire(w));
    assert Pending(n, w);
    assert forall v :: v != w && v in s.timers ==> v in n.timers;
    assert forall item :: item in s.queue ==> item in n.queue;
    assert forall v :: Pending(s, v) ==> Pending(n, v);
  }

  lemma NextLive(s: State, e: Event)
    requires Live(s) && Enabled(s, e)
    ensures Live(Next(s, e))
  {
    match e
    case Handle(servers, resolve) => HandledLive(s, servers, resolve);
    case Fire(w) => FiredLive(s, w);
    case Push(item) => assert forall v :: Pending(s, v) ==> Pending(Next(s, e), v);
  }

  lemma {:induction false} RunIsLive(s: State, events: seq<Event>)
    requires Live(s) && Run(s, events)
    ensures Live(After(s, events))
  {
    if events != [] {
      RunIsLive(s, events[..|events| - 1]);
      NextLive(After(s, events[..|events| - 1]), events[|events| - 1]);
    }
  }

  /** In every run from the start, the loop always has what it needs to go on. */
  lemma NeverStuck(events: seq<Event>)
    requires Run(INITIAL, events)
    ensures var s := After(INITIAL, events);
      && (s.phase == 0 ==> Pending(s, REGISTER) || Pending(s, TIMEOUT))
      && (s.phase == 1 ==> Pending(s, CONFIRM_TIMEOUT))
      && s.phase <= 2
  {
    RunIsLive(INITIAL, events);
  }

  /** The name service answers with addresses, and no address reads like one of the commands. */
  ghost predicate GivesAddresses(e: Event) {
    e.Handle? ==> forall server: string :: e.resolve(server) !in WORDS
  }

  lemma NextIsServer(s: State, e: Event)
    requires Enabled(s, e) && GivesAddresses(e) && s.current !in WORDS
    ensures Next(s, e).current !in WORDS
  {
  }

  /** In every run, the current server is one that was tried, never a command. */
  lemma {:induction false} CurrentIsServer(events: seq<Event>)
    requires Run(INITIAL, events) && forall e :: e in events ==> GivesAddresses(e)
    ensures After(INITIAL, events).current !in WORDS
  {
    if events != [] {
      CurrentIsServer(events[..|events| - 1]);
      NextIsServer(After(INITIAL, events[..|events| - 1]), events[|events| - 1]);
    }
  }

  /** What one step may change. */
  predicate StepOk(s: State, e: Event, n: State) {
    && (n.current != s.current ==> s.phase == 0 && n.phase == 0)
    && (n.phase == 2 && s.phase != 2 ==>
          e.Handle? && s.queue != [] && s.queue[0] == Registered(s.current) && n.current == s.current)
    && (n.phase == 1 && s.phase != 1 ==> s.phase == 2)
    && (n.phase == 0 && s.phase != 0 ==> s.phase == 1)
  }

  lemma NextIsOk(s: State, e: Event)
    requires Live(s) && Enabled(s, e) && s.current !in WORDS
    ensures StepOk(s, e, Next(s, e))
  {
  }

  /**
   * Every step of every run: the current server changes only while not registered, only its own message registers,
   * only a registration is verified, and only one that could not be verified is given up.
   */
  lemma OnlyOwnServerRegisters(events: seq<Event>, e: Event)
    requires Run(INITIAL, events + [e]) && forall d :: d in events ==> GivesAddresses(d)
    ensures Run(INITIAL, events) && StepOk(After(INITIAL, events), e, After(INITIAL, events + [e]))
  {
    assert (events + [e])[..|events|] == events;
    RunIsLive(INITIAL, events);
    CurrentIsServer(events);
    NextIsOk(After(INITIAL, events), e);
  }

  function NonEmpty(servers: seq<string>): seq<string> {
    if servers == [] then []
    else if servers[0] == "" then NonEmpty(servers[1..])
    else [servers[0]] + NonEmpty(servers[1..])
  }

  /** The servers of the list that are still to be tried. */
  function Candidates(s: State): seq<string>
    requires s.index >= -1
  {
    if s.index + 1 <= |s.servers| then NonEmpty(s.servers[s.index + 1..]) else []
  }

  lemma {:induction false} SkipFinds(servers: seq<string>, i: nat)
    requires i <= |servers|
    ensures Skip(servers, i) <= |servers|
    ensures NonEmpty(servers[i..]) == if Skip(servers, i) < |servers|
      then [servers[Skip(servers, i)]] + NonEmpty(servers[Skip(servers, i) + 1..]) else []
    decreases |servers| - i
  {
    if i < |servers| {
      assert servers[i..][1..] == servers[i + 1..];
      if servers[i] == "" {
        SkipFinds(servers, i + 1);
      }
    }
  }

  /** Every timeout tries the next server of the list; when all have been tried, registering starts again. */
  lemma TimeoutTriesNext(s: State, resolve: string -> string)
    requires s.phase == 0 && s.index >= -1
    ensures var n, c := OnTimeout(s, resolve), Candidates(s);
      if c == [] then n.current == s.current && n.queue == [Command(REGISTER)] + s.queue && n.timers == s.timers
      else n.current == resolve(c[0]) && Candidates(n) == c[1..] && n.queue == s.queue && TIMEOUT in n.timers
  {
    var i := Skip(s.servers, s.index + 1);
    if s.index + 1 <= |s.servers| {
      CandidatesAre(s.servers, s.index + 1);
    }
    if i < |s.servers| {
      TimeoutGoesOn(s, resolve, i);
    }
  }

  lemma TimeoutGoesOn(s: State, resolve: string -> string, i: nat)
    requires s.phase == 0 && s.index >= -1 && i == Skip(s.servers, s.index + 1) && i < |s.servers|
    ensures var n := OnTimeout(s, resolve);
      && n.current == resolve(s.servers[i]) && n.queue == s.queue && TIMEOUT in n.timers
      && Candidates(n) == NonEmpty(s.servers[i + 1..])
  {
  }

  lemma CandidatesAre(servers: seq<string>, i: nat)
    requires i <= |servers|
    ensures var k := Skip(servers, i);
      && (NonEmpty(servers[i..]) == [] <==> k >= |servers|)
      && (k < |servers| ==> NonEmpty(servers[i..])[0] == servers[k])
      && (k < |servers| ==> NonEmpty(servers[i..])[1..] == NonEmpty(servers[k + 1..]))
  {
    SkipFinds(servers, i);
    var k := Skip(servers, i);
    if k < |servers| {
      ServerLeft(servers[k], NonEmpty(servers[k + 1..]));
    }
  }

  lemma ServerLeft(server: string, others: seq<string>)
    ensures ([server] + others)[0] == server && ([server] + others)[1..] == others
  {
  }

  function Named(): string -> bool {
    (server: string) => server != ""
  }

  lemma {:induction false} NonEmptyIs(servers: seq<string>)
    ensures NonEmpty(servers) == Select(servers, Named())
  {
    if servers != [] {
      NonEmptyIs(servers[1..]);
      SelectConcat([servers[0]], servers[1..], Named());
      SelectOne(servers[0], Named());
      assert [servers[0]] + servers[1..] == servers;
    }
  }

  /** What the words of the queue make of the state: the first item is gone, and s says what else has changed. */
  predicate Becomes(n: State, phase: nat, current: string, more: seq<Item>, armed: multiset<string>, s: State)
    requires s.queue != []
  {
    n.phase == phase && n.current == current && n.queue == s.queue[1..] + more && n.timers == s.timers + armed
  }

  /** The word "register" starts over with the servers that are offered in this round, unless something is registered. */
  lemma RegisterStartsOver(s: State, servers: seq<string>, resolve: string -> string)
    requires s.queue != [] && s.queue[0] == Command("register") && s.index >= -1
    ensures var n := Handled(s, servers, resolve);
      if s.phase == 0 then
        Becomes(n, 0, "", [Command("timeout")], multiset{}, s) && n.index == -1
        && Candidates(n) == Select(servers, (server: string) => server != "")
      else n == s.(queue := s.queue[1..])
  {
    if s.phase == 0 {
      assert servers[0..] == servers;
      NonEmptyIs(servers);
      SelectCongruent(servers, Named(), (server: string) => server != "");
    }
  }

  /** Doubts about the current server let it be verified: it has the time of "confirm_timeout" to answer. */
  lemma ConfirmVerifies(s: State, servers: seq<string>, resolve: string -> string)
    requires s.queue != [] && s.index >= -1 && s.current !in WORDS
    requires s.queue[0] == Command("confirm") || s.queue[0] == Deregistered(s.current)
    ensures var n := Handled(s, servers, resolve);
      && n.servers == s.servers && n.index == s.index
      && if s.phase == 2 then Becomes(n, 1, s.current, [], multiset{"confirm_timeout"}, s)
         else Becomes(n, s.phase, s.current, [], multiset{}, s)
  {
  }

  /** A server that could not be verified in time is given up. */
  lemma ConfirmTimeoutGivesUp(s: State, servers: seq<string>, resolve: string -> string)
    requires s.queue != [] && s.index >= -1 && s.queue[0] == Command("confirm_timeout")
    ensures var n := Handled(s, servers, resolve);
      && n.servers == s.servers && n.index == s.index
      && if s.phase == 1 then Becomes(n, 0, s.current, [Command("register")], multiset{}, s)
         else Becomes(n, s.phase, s.current, [], multiset{}, s)
  {
  }

  /** The current server's message registers; any other server's message raises doubts; the rest has no effect. */
  lemma MessagesMean(s: State, servers: seq<string>, resolve: string -> string)
    requires s.queue != [] && s.index >= -1
    requires (s.queue[0].Registered? && s.queue[0].source !in WORDS) || s.queue[0].Deregistered? || s.queue[0].Inquiry?
    ensures var n, item := Handled(s, servers, resolve), s.queue[0];
      && n.servers == s.servers && n.index == s.index
      && (item == Registered(s.current) ==> Becomes(n, 2, s.current, [], multiset{}, s))
      && (item.Registered? && item.source != s.current ==>
            Becomes(n, s.phase, s.current, [Command("confirm")], multiset{}, s))
      && (item.Inquiry? || (item.Deregistered? && item.source != s.current) ==>
            Becomes(n, s.phase, s.current, [], multiset{}, s))
  {
  }

  /** The variables of the loop. */
  class Handler {
    var registrationState: nat
    var currentServer: string
    var indexInList: int
    var serverList: seq<string>
    var registrationQueue: seq<Item>
    ghost var timers: multiset<string>

    ghost function Model(): State
      reads this
    {
      State(registrationState, currentServer, indexInList, serverList, registrationQueue, timers)
    }

    constructor ()
      ensures Model() == INITIAL
    {
      registrationState, currentServer, indexInList, serverList := 0, "", 0, [];
      registrationQueue, timers := [Command(REGISTER)], multiset{};
    }

    /** One round of the loop; the servers are those that the configuration and the name service offer now. */
    method Round(serversToTry: seq<string>, resolve: string -> string)
      requires registrationQueue != [] && indexInList >= -1
      modifies this
      ensures Model() == Handled(old(Model()), serversToTry, resolve)
    {
      var item := registrationQueue[0];
      registrationQueue := registrationQueue[1..];
      var r := "";
      match item {
        case Command(w) => r := w;
        case Registered(source) => r := source;
        case Deregistered(source) =>
          if source != currentServer { return; }
          r := CONFIRM;
        case Inquiry => return;
      }
      if r == REGISTER {
        if registrationState == 0 {
          serverList := serversToTry;
          currentServer := "";
          indexInList := -1;
          registrationQueue := registrationQueue + [Command(TIMEOUT)];
        }
      } else if r == CONFIRM_TIMEOUT {
        if registrationState == 1 {
          registrationState := 0;
          registrationQueue := registrationQueue + [Command(REGISTER)];
        }
      } else if r == TIMEOUT {
        if registrationState == 0 {
          TryNext(resolve);
        }
      } else if r == currentServer {
        if registrationState != 2 {
          registrationState := 2;
        }
      } else if r == CONFIRM {
        if registrationState == 2 {
          registrationState := 1;
          timers := timers + multiset{CONFIRM_TIMEOUT};
        }
      } else {
        registrationQueue := registrationQueue + [Command(CONFIRM)];
      }
    }

    method TryNext(resolve: string -> string)
      requires registrationState == 0 && indexInList >= -1
      modifies this
      ensures Model() == OnTimeout(old(Model()), resolve)
    {
      indexInList := indexInList + 1;
      while indexInList < |serverList| && serverList[indexInList] == ""
        invariant 0 <= indexInList && unchanged(`registrationState, `currentServer, `serverList)
        invariant unchanged(`registrationQueue, `timers)
        invariant Skip(serverList, indexInList) == Skip(serverList, old(indexInList) + 1)
        decreases |serverList| - indexInList
      {
        indexInList := indexInList + 1;
      }
      if indexInList < |serverList| {
        currentServer := resolve(serverList[indexInList]);
        timers := timers + multiset{TIMEOUT};
      } else {
        registrationQueue := [Command(REGISTER)] + registrationQueue;
      }
    }
  }
}
