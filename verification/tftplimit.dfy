/** Beyond the range of block ids the transfer is unsafe: late acknowledgements are taken for new ones. */
module TftpLimit {
  import opened Tftp

  lemma {:induction false} AfterConcat(s: System, a: seq<Event>, b: seq<Event>)
    requires Possible(s, a) && Possible(After(s, a), b)
    ensures Possible(s, a + b) && After(s, a + b) == After(After(s, a), b)
    decreases |a|
  {
    if a == [] {
      assert a + b == b;
    } else {
      AfterConcat(Next(s, a[0]), a[1..], b);
      assert (a + b)[1..] == a[1..] + b;
    }
  }

  lemma OneEvent(s: System, e: Event)
    requires Enabled(s, e)
    ensures Possible(s, [e]) && After(s, [e]) == Next(s, e)
  {
    assert [e][1..] == [];
    assert Possible(Next(s, e), []);
  }

  lemma OneMore(s: System, a: seq<Event>, e: Event)
    requires Possible(s, a) && Enabled(After(s, a), e)
    ensures Possible(s, a + [e]) && After(s, a + [e]) == Next(After(s, a), e)
  {
    OneEvent(After(s, a), e);
    AfterConcat(s, a, [e]);
  }

  /** Server and receiver have both done k blocks, and every acknowledgement so far is still in the network. */
  ghost predicate InStep(s: System, data: string, answers: seq<Answer>, k: nat) {
    var t, r, size := s.server, s.receiver, Announced(answers);
    && size > 0 && t.data == data && t.size == size && t.answers == answers && t.phase == Sending
    && t.blockid == k + 1 == r.expected && t.start == Offset(size, k + 1) <= |data|
    && !r.done && r.size == size && r.got == data[..t.start]
    && (forall j :: 1 <= j <= k ==> j % IDS in s.acks)
    && (answers != [] ==> 0 in s.acks)
  }

  lemma OptionsAgreed(data: string, answers: seq<Answer>) returns (events: seq<Event>)
    requires Announced(answers) > 0
    ensures Possible(Begin(data, Announced(answers), answers), events)
    ensures InStep(After(Begin(data, Announced(answers), answers), events), data, answers, 0)
  {
    var s := Begin(data, Announced(answers), answers);
    events := [];
    if answers != [] {
      var p := Oack(answers);
      events := [Write];
      OneEvent(s, Write);
      OneMore(s, events, Arrives(p, false));
      events := events + [Arrives(p, false)];
      OneMore(s, events, Heard(Ack(0)));
      events := events + [Heard(Ack(0))];
    }
  }

  /** One block is sent, received and acknowledged. */
  lemma BlockPasses(s: System, data: string, answers: seq<Answer>, k: nat) returns (events: seq<Event>)
    requires InStep(s, data, answers, k) && k + 1 < Blocks(data, Announced(answers))
    ensures Possible(s, events) && InStep(After(s, events), data, answers, k + 1)
  {
    var size, id := Announced(answers), (k + 1) % IDS;
    BlockFits(data, size, k + 1);
    BlockAppended(data, size, k + 1);
    OffsetNext(size, k + 1);
    var p := Outgoing(s.server);
    assert p == Data(id, Block(data, size, k + 1));
    events := [Write];
    OneEvent(s, Write);
    var a := After(s, events);
    OneMore(s, events, Arrives(p, false));
    events := events + [Arrives(p, false)];
    var b := After(s, events);
    assert id in b.acks;
    OneMore(s, events, Heard(Ack(id)));
    events := events + [Heard(Ack(id))];
    assert forall j :: 1 <= j <= k ==> j % IDS in b.acks;
  }

  lemma {:induction false} BlocksPass(data: string, answers: seq<Answer>, k: nat) returns (events: seq<Event>)
    requires Announced(answers) > 0 && k < Blocks(data, Announced(answers))
    ensures Possible(Begin(data, Announced(answers), answers), events)
    ensures InStep(After(Begin(data, Announced(answers), answers), events), data, answers, k)
    decreases k
  {
    var s := Begin(data, Announced(answers), answers);
    if k == 0 {
      events := OptionsAgreed(data, answers);
    } else {
      var before := BlocksPass(data, answers, k - 1);
      var more := BlockPasses(After(s, before), data, answers, k - 1);
      AfterConcat(s, before, more);
      events := before + more;
    }
  }

  /** With every id in the network, the server can be rushed through the rest without the receiver. */
  lemma {:induction false} Rushed(s: System) returns (events: seq<Event>)
    requires Ready(s.server) && s.server.phase == Sending
    requires forall id: nat :: id < IDS ==> id in s.acks
    ensures Possible(s, events) && After(s, events).server.phase == Finished
    ensures After(s, events).receiver == s.receiver
    decreases |s.server.data| - s.server.start
  {
    var id := s.server.blockid % IDS;
    events := [Write];
    OneEvent(s, Write);
    OneMore(s, events, Heard(Ack(id)));
    events := events + [Heard(Ack(id))];
    var n := After(s, events);
    if n.server.phase != Finished {
      var more := Rushed(n);
      AfterConcat(s, events, more);
      events := events + more;
    }
  }

  ghost predicate Safe(data: string, answers: seq<Answer>) {
    forall events :: Possible(Begin(data, Announced(answers), answers), events) ==>
      var s := After(Begin(data, Announced(answers), answers), events);
      s.server.phase == Finished ==> s.receiver.done && s.receiver.got == data
  }

  lemma LateAcksFinish(data: string, answers: seq<Answer>) returns (events: seq<Event>)
    requires Announced(answers) > 0 && !DistinctIds(data, Announced(answers), answers)
    ensures Possible(Begin(data, Announced(answers), answers), events)
    ensures var s := After(Begin(data, Announced(answers), answers), events);
      s.server.phase == Finished && !s.receiver.done
  {
    var s, size := Begin(data, Announced(answers), answers), Announced(answers);
    var k := if answers == [] then IDS else IDS - 1;
    var before := BlocksPass(data, answers, k);
    var t := After(s, before);
    forall id: nat | id < IDS
      ensures id in t.acks
    {
      assert id == 0 ==> IDS % IDS == 0;
      assert id % IDS == id;
    }
    var more := Rushed(t);
    AfterConcat(s, before, more);
    events := before + more;
  }

  /** Whenever the server finishes successfully, the receiver has all data and knows it, if and only if the block ids do not wrap around. */
  lemma SafeIffDistinctIds(data: string, answers: seq<Answer>)
    requires Announced(answers) > 0
    ensures Safe(data, answers) <==> DistinctIds(data, Announced(answers), answers)
  {
    var s := Begin(data, Announced(answers), answers);
    if DistinctIds(data, Announced(answers), answers) {
      forall events | Possible(s, events)
        ensures var t := After(s, events);
          t.server.phase == Finished ==> t.receiver.done && t.receiver.got == data
      {
        TransferIsSafe(data, answers, events);
      }
    } else {
      var events := LateAcksFinish(data, answers);
    }
  }
}
