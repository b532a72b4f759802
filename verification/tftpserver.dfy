/** The server's loops: they write and wait exactly as the server of the transfer protocol does. */
module TftpServer {
  import opened Common
  import opened Tftp
  import opened TftpWorld
  import Sequences

  /** An option of the request; a block size that is not a number has no value. */
  datatype Option = BlockSizeOption(value: Common.Option<int>) | SizeOption | UnknownOption

  /** What the server does: it writes a packet, takes notice of a reply, or stops. */
  datatype Action = Wrote(packet: Packet) | Noticed(reply: Reply) | Stopped

  predicate Allowed(s: Server, a: Action) {
    Ready(s) && match a
    case Wrote(p) => p == Outgoing(s)
    case Noticed(_) => s.written
    case Stopped => true
  }

  function Do(s: Server, a: Action): Server
    requires Allowed(s, a)
  {
    match a
    case Wrote(_) => s.(written := true)
    case Noticed(r) => Hear(s, r)
    case Stopped => s.(phase := Failed)
  }

  predicate Follows(s: Server, actions: seq<Action>)
    decreases |actions|
  {
    actions == [] || (Allowed(s, actions[0]) && Follows(Do(s, actions[0]), actions[1..]))
  }

  function DoAll(s: Server, actions: seq<Action>): Server
    requires Follows(s, actions)
    decreases |actions|
  {
    if actions == [] then s else DoAll(Do(s, actions[0]), actions[1..])
  }

  lemma {:induction false} DoConcat(s: Server, a: seq<Action>, b: seq<Action>)
    requires Follows(s, a) && Follows(DoAll(s, a), b)
    ensures Follows(s, a + b) && DoAll(s, a + b) == DoAll(DoAll(s, a), b)
    decreases |a|
  {
    if a == [] {
      assert a + b == b;
    } else {
      DoConcat(Do(s, a[0]), a[1..], b);
      assert (a + b)[1..] == a[1..] + b;
    }
  }

  lemma DoSnoc(s: Server, a: seq<Action>, e: Action)
    requires Follows(s, a) && Allowed(DoAll(s, a), e)
    ensures Follows(s, a + [e]) && DoAll(s, a + [e]) == Do(DoAll(s, a), e)
  {
    var t := DoAll(s, a);
    assert [e][1..] == [] && Follows(Do(t, e), []);
    DoConcat(s, a, [e]);
  }

  /** The server's part of a run of the whole system. */
  ghost function ServerActions(s: System, events: seq<Event>): seq<Action>
    requires Possible(s, events)
    decreases |events|
  {
    if events == [] then []
    else
      var rest := ServerActions(Next(s, events[0]), events[1..]);
      match events[0]
      case Write => [Wrote(Outgoing(s.server))] + rest
      case Heard(r) => [Noticed(r)] + rest
      case GiveUp => [Stopped] + rest
      case Arrives(_, _) => rest
  }

  /** What comes in from outside before the deadline passes, which of the next writes succeed, and what was sent. */
  class World {
    var script: seq<Happening>
    var writes: seq<bool>
    var sent: seq<Packet>

    method Write(p: Packet) returns (ok: bool)
      modifies `writes, `sent
      ensures ok == (old(writes) == [] || old(writes)[0])
      ensures writes == if old(writes) == [] then [] else old(writes)[1..]
      ensures sent == if ok then old(sent) + [p] else old(sent)
    {
      ok := true;
      if |writes| > 0 {
        ok := writes[0];
        writes := writes[1..];
      }
      if ok {
        sent := sent + [p];
      }
    }

    method Read() returns (h: Happening)
      modifies `script
      ensures old(script) == [] ==> h == Deadline && script == []
      ensures old(script) != [] ==> h == old(script)[0] && script == old(script)[1..]
    {
      if |script| == 0 {
        return Deadline;
      }
      h := script[0];
      script := script[1..];
    }
  }

  /** The server between two packets. */
  predicate AboutToSend(s: Server, p: Packet) {
    Ready(s) && !s.written && p == Outgoing(s)
  }

  /** The server has sent its packet and is waiting. */
  predicate Waiting(s: Server, actions: seq<Action>) {
    Ready(s) && Follows(s, actions) && DoAll(s, actions) == s.(written := true)
  }

  predicate Ended(s: Server, actions: seq<Action>, ok: bool) {
    && Ready(s) && Follows(s, actions)
    && if ok then DoAll(s, actions) == Acknowledged(s) else DoAll(s, actions).phase == Failed
  }

  /** Notices one reply while waiting: it is the acknowledgement, it is ignored, or it ends the transfer. */
  method Notice(p: Packet, r: Reply, ghost s: Server, ghost before: seq<Action>)
      returns (over: bool, ok: bool, ghost actions: seq<Action>)
    requires AboutToSend(s, p) && Waiting(s, before)
    ensures over ==> Ended(s, actions, ok)
    ensures !over ==> Waiting(s, actions)
    ensures over == !Passes(p, Arrived(r)) && ok == Acks(p, Arrived(r))
  {
    DoSnoc(s, before, Noticed(r));
    actions := before + [Noticed(r)];
    if r.Ack? && (!p.Data? || r.id == p.id) {
      return true, true, actions;
    }
    if r.ErrorReply? {
      return true, false, actions;
    }
    if p.Data? && r.id != p.id {
      return false, false, actions;
    }
    return true, false, actions;
  }

  /** Writes a packet; if that fails or is incomplete, it is over. */
  method WriteOut(w: World, p: Packet, ghost s: Server, ghost before: seq<Action>)
      returns (over: bool, ghost actions: seq<Action>)
    requires AboutToSend(s, p) && (before == [] || Waiting(s, before))
    modifies w`writes, w`sent
    ensures over ==> Ended(s, actions, false)
    ensures !over ==> Waiting(s, actions)
    ensures over == (old(w.writes) != [] && !old(w.writes)[0])
    ensures w.writes == if old(w.writes) == [] then [] else old(w.writes)[1..]
    ensures w.sent == if over then old(w.sent) else old(w.sent) + [p]
  {
    var sent := w.Write(p);
    if sent {
      DoSnoc(s, before, Wrote(p));
      return false, before + [Wrote(p)];
    }
    DoSnoc(s, before, Stopped);
    return true, before + [Stopped];
  }

  /** Sends a packet, again after every timeout, until it is acknowledged or there is no use in going on. */
  method SendAndWaitForAck(w: World, p: Packet, ghost s: Server)
      returns (ok: bool, ghost actions: seq<Action>, ghost at: nat, ghost copies: nat)
    requires AboutToSend(s, p)
    modifies w
    ensures Ended(s, actions, ok)
    ensures ok <==> !NeverAcked(p, old(w.script), old(w.writes))
    ensures ok ==> AckedAt(p, old(w.script), old(w.writes), at) && copies == 1 + Timeouts(old(w.script), at)
    ensures ok ==> w.script == old(w.script)[at + 1..] && w.writes == Rest(old(w.writes), copies)
    ensures w.sent == old(w.sent) + Copies(p, copies)
  {
    ghost var script, writes := w.script, w.writes;
    FirstWrite(p, script, writes);
    var over;
    over, actions := WriteOut(w, p, s, []);
    ok, at, copies := false, 0, if over then 0 else 1;
    CopyAgain(old(w.sent), p, 0);
    while !over
      invariant over ==> Ended(s, actions, ok)
      invariant !over ==> Waiting(s, actions)
      invariant Stands(p, script, writes, at, over, ok, w.script, w.writes)
      invariant !over || ok ==> at <= |script| && copies == 1 + Timeouts(script, at)
      invariant w.sent == old(w.sent) + Copies(p, copies)
      decreases !over, |w.script|
    {
      over, ok, actions, at, copies := Await(w, p, s, actions, script, writes, at, copies, old(w.sent));
    }
    StandsDecided(p, script, writes, at, ok, w.script, w.writes);
  }

  lemma CopyAgain(sent: seq<Packet>, p: Packet, n: nat)
    ensures sent + Copies(p, 0) == sent
    ensures sent + Copies(p, n) + [p] == sent + Copies(p, n + 1)
  {
  }

  /** Waits for what comes next: a timeout makes the server write again, a stray packet changes nothing. */
  method Await(w: World, p: Packet, ghost s: Server, ghost before: seq<Action>,
               ghost script: seq<Happening>, ghost writes: seq<bool>, ghost k: nat, ghost written: nat, ghost sent: seq<Packet>)
      returns (over: bool, ok: bool, ghost actions: seq<Action>, ghost at: nat, ghost copies: nat)
    requires AboutToSend(s, p) && Waiting(s, before)
    requires WaitsAt(p, script, writes, k, w.script, w.writes)
    requires written == 1 + Timeouts(script, k) && w.sent == sent + Copies(p, written)
    modifies w
    ensures over ==> Ended(s, actions, ok)
    ensures !over ==> Waiting(s, actions)
    ensures Stands(p, script, writes, at, over, ok, w.script, w.writes)
    ensures !over || ok ==> at <= |script| && copies == 1 + Timeouts(script, at)
    ensures w.sent == sent + Copies(p, copies)
    ensures !over ==> |w.script| < |old(w.script)|
  {
    ghost var restScript, restWrites := w.script, w.writes;
    var h := w.Read();
    over, ok, actions, at, copies := false, false, before, k + 1, written;
    match h
    case Deadline =>
      Hopeless(p, script, writes, k, restScript, restWrites);
      DoSnoc(s, before, Stopped);
      actions := before + [Stopped];
      over := true;
    case Timeout =>
      AfterTimeout(p, script, writes, k, restScript, restWrites);
      CopyAgain(sent, p, written);
      over, actions := WriteOut(w, p, s, before);
      copies := if over then written else written + 1;
    case Stray =>
      PassedBy(p, script, writes, k, restScript, restWrites);
    case Arrived(r) =>
      over, ok, actions := Notice(p, r, s, before);
      if ok {
        AckArrives(p, script, writes, k, restScript, restWrites);
        at := k;
      } else if over {
        Hopeless(p, script, writes, k, restScript, restWrites);
      } else {
        PassedBy(p, script, writes, k, restScript, restWrites);
      }
  }

  predicate SizeOffered(o: Option) {
    o.BlockSizeOption? && o.value.Some? && 0 < o.value.value <= MAX_SIZE
  }

  function AnswerTo(o: Option, length: nat): seq<Answer> {
    if SizeOffered(o) then [Size(o.value.value)]
    else if o.SizeOption? then [Length(length)]
    else []
  }

  function Negotiated(options: seq<Option>, length: nat): seq<Answer> {
    if options == [] then []
    else Negotiated(options[..|options| - 1], length) + AnswerTo(options[|options| - 1], length)
  }

  predicate LastOffer(options: seq<Option>, i: nat) {
    i < |options| && SizeOffered(options[i]) && forall j :: i < j < |options| ==> !SizeOffered(options[j])
  }

  lemma OfferBefore(before: seq<Option>, o: Option, i: nat)
    requires LastOffer(before + [o], i) && !SizeOffered(o)
    ensures LastOffer(before, i) && before[i] == (before + [o])[i]
  {
    assert forall j :: 0 <= j < |before| ==> (before + [o])[j] == before[j];
  }

  /** The last block size that can be used is announced; without one it is the standard's. */
  lemma {:induction false} LastOfferCounts(options: seq<Option>, length: nat)
    ensures forall i: nat :: LastOffer(options, i) ==> Announced(Negotiated(options, length)) == options[i].value.value
    ensures (forall o :: o in options ==> !SizeOffered(o)) ==> Announced(Negotiated(options, length)) == DEFAULT_SIZE
    ensures 0 < Announced(Negotiated(options, length)) <= MAX_SIZE
  {
    if options != [] {
      var before, o := options[..|options| - 1], options[|options| - 1];
      LastOfferCounts(before, length);
      NegotiatedSnoc(before, o, length);
      assert options == before + [o];
      if !SizeOffered(o) {
        forall i: nat | LastOffer(options, i)
          ensures LastOffer(before, i) && before[i] == options[i]
        {
          OfferBefore(before, o, i);
        }
      }
    }
  }

  /** The length is answered exactly if it was asked for, and a block size if it was offered and can be used. */
  lemma {:induction false} NegotiatedMeans(options: seq<Option>, length: nat, n: nat)
    ensures Length(n) in Negotiated(options, length) <==> n == length && SizeOption in options
    ensures Size(n) in Negotiated(options, length) <==>
      0 < n <= 65536 && BlockSizeOption(Common.Some(n)) in options
  {
    if options != [] {
      NegotiatedMeans(options[..|options| - 1], length, n);
      assert options == options[..|options| - 1] + [options[|options| - 1]];
    }
  }

  lemma NegotiatedSnoc(before: seq<Option>, o: Option, length: nat)
    ensures Negotiated(before + [o], length) == Negotiated(before, length) + AnswerTo(o, length)
    ensures Announced(Negotiated(before + [o], length)) ==
      if SizeOffered(o) then o.value.value else Announced(Negotiated(before, length))
  {
    assert (before + [o])[..|before|] == before;
    var answers := Negotiated(before, length);
    if SizeOffered(o) {
      AnnouncedSnoc(answers, Size(o.value.value));
    } else if o.SizeOption? {
      AnnouncedSnoc(answers, Length(length));
    } else {
      assert answers + [] == answers;
    }
  }

  lemma NegotiatedNext(options: seq<Option>, i: nat, length: nat)
    requires i < |options|
    ensures Negotiated(options[..i + 1], length) == Negotiated(options[..i], length) + AnswerTo(options[i], length)
    ensures Announced(Negotiated(options[..i + 1], length)) ==
      if SizeOffered(options[i]) then options[i].value.value else Announced(Negotiated(options[..i], length))
  {
    Sequences.Snoc(options, i);
    NegotiatedSnoc(options[..i], options[i], length);
  }

  /** The options that are understood are answered, in their order. */
  method Negotiate(options: seq<Option>, length: nat) returns (blocksize: nat, oack: seq<Answer>)
    ensures oack == Negotiated(options, length)
    ensures blocksize == Announced(oack) && 0 < blocksize <= MAX_SIZE
  {
    blocksize, oack := DEFAULT_SIZE, [];
    for i := 0 to |options|
      invariant oack == Negotiated(options[..i], length)
      invariant blocksize == Announced(oack) && 0 < blocksize <= MAX_SIZE
    {
      NegotiatedNext(options, i, length);
      match options[i]
      case BlockSizeOption(v) =>
        if v.Some? && 0 < v.value <= MAX_SIZE {
          blocksize := v.value;
          oack := oack + [Size(blocksize)];
        }
      case SizeOption =>
        oack := oack + [Length(length)];
      case UnknownOption =>
    }
    assert options[..|options|] == options;
  }

  lemma AnnouncedSnoc(oack: seq<Answer>, a: Answer)
    ensures Announced(oack + [a]) == if a.Size? then a.size else Announced(oack)
  {
    assert (oack + [a])[..|oack|] == oack;
  }

  lemma TwoBytes(n: nat)
    ensures n / 256 % 256 * 256 + n % 256 == n % IDS
  {
  }

  /** Sends the first of the packets that are left; behind base, what was sent holds the packets done in order. */
  method SendNext(w: World, p: Packet, ghost s: Server, ghost left: seq<Packet>, ghost base: seq<Packet>,
                  ghost before: seq<Packet>, ghost done: seq<Packet>)
      returns (ok: bool, ghost actions: seq<Action>, ghost sent: seq<Packet>)
    requires AboutToSend(s, p) && left != [] && left[0] == p
    requires w.sent == base + before && InOrder(before, done)
    modifies w
    ensures Ended(s, actions, ok)
    ensures Served(left, old(w.script), old(w.writes)) == (ok && Served(left[1..], w.script, w.writes))
    ensures w.sent == base + sent && (ok ==> InOrder(sent, done + [p]))
  {
    ghost var at, copies, script, writes := 0, 0, w.script, w.writes;
    ok, actions, at, copies := SendAndWaitForAck(w, p, s);
    sent := before + Copies(p, copies);
    Sequences.Regroup(base, before, Copies(p, copies));
    if ok {
      FirstServed(left, script, writes, at);
      InOrderSnoc(before, done, p, copies);
    } else {
      FirstNotServed(left, script, writes);
    }
  }

  lemma Behind(base: seq<Packet>, sent: seq<Packet>)
    ensures base <= base + sent && (base + sent)[|base|..] == sent && sent + [] == sent
  {
  }

  /**
   * Serves a request; all it does is a run of the protocol's server. The result is true if and only if the world
   * acknowledges every packet of the transfer in turn, and then all of them have been written, in order.
   */
  method HandleConnection(w: World, data: string, options: seq<Option>)
      returns (ok: bool, ghost answers: seq<Answer>, ghost actions: seq<Action>)
    modifies w
    ensures answers == Negotiated(options, |data|) && 0 < Announced(answers) <= MAX_SIZE
    ensures Follows(Begin(data, Announced(answers), answers).server, actions)
    ensures DoAll(Begin(data, Announced(answers), answers).server, actions).phase == if ok then Finished else Failed
    ensures ok <==> Served(Packets(data, Announced(answers), answers), old(w.script), old(w.writes))
    ensures old(w.sent) <= w.sent
    ensures ok ==> InOrder(w.sent[|old(w.sent)|..], Packets(data, Announced(answers), answers))
  {
    var blocksize, oack := Negotiate(options, |data|);
    ghost var begin, base := Begin(data, blocksize, oack).server, w.sent;
    ghost var s, sent, done;
    answers := oack;
    ok, actions, s, sent, done := SendOptions(w, data, blocksize, oack);
    if ok {
      ok, actions, sent := SendBlocks(w, data, blocksize, begin, s, actions, base, sent, done);
    }
    Behind(base, sent);
  }

  /** The actions so far have brought the server to t, which is about to send the block at start. */
  ghost predicate Underway(begin: Server, actions: seq<Action>, t: Server, data: string, blocksize: nat, blockid: nat,
                           start: nat)
  {
    && Follows(begin, actions) && DoAll(begin, actions) == t
    && t.data == data && t.size == blocksize > 0 && t.blockid == blockid && t.start == start <= |data| && !t.written
  }

  /** The options that are understood, if any, are announced and have to be acknowledged before the first block. */
  method SendOptions(w: World, data: string, blocksize: nat, oack: seq<Answer>)
      returns (ok: bool, ghost actions: seq<Action>, ghost s: Server, ghost sent: seq<Packet>, ghost done: seq<Packet>)
    requires blocksize > 0
    modifies w
    ensures var begin := Begin(data, blocksize, oack).server;
      && Follows(begin, actions) && DoAll(begin, actions) == s
      && if ok then s.phase == Sending && Underway(begin, actions, s, data, blocksize, 1, 0) else s.phase == Failed
    ensures done + DataPackets(data, blocksize, 1, 0) == Packets(data, blocksize, oack)
    ensures Served(Packets(data, blocksize, oack), old(w.script), old(w.writes))
         == (ok && Served(DataPackets(data, blocksize, 1, 0), w.script, w.writes))
    ensures w.sent == old(w.sent) + sent && (ok ==> InOrder(sent, done))
  {
    s := Begin(data, blocksize, oack).server;
    ok, actions, sent, done := true, [], [], [];
    Behind(w.sent, []);
    Behind([], DataPackets(data, blocksize, 1, 0));
    if |oack| > 0 {
      done := [Oack(oack)];
      OptionsFirst(data, blocksize, oack);
      ok, actions, sent := SendNext(w, Oack(oack), s, Packets(data, blocksize, oack), w.sent, [], []);
      s := DoAll(s, actions);
    }
  }

  lemma OptionsFirst(data: string, size: nat, oack: seq<Answer>)
    requires size > 0 && oack != []
    ensures var all := Packets(data, size, oack);
      all != [] && all[0] == Oack(oack) && all[1..] == DataPackets(data, size, 1, 0) && [] + [all[0]] == [Oack(oack)]
  {
  }

  /** Sends one block; of the packets left before, the rest are still to be sent. */
  method SendBlock(w: World, data: string, blocksize: nat, blockid: nat, start: nat, ghost begin: Server,
                   ghost before: seq<Action>, ghost t: Server, ghost base: seq<Packet>, ghost written: seq<Packet>,
                   ghost done: seq<Packet>, ghost left: seq<Packet>)
      returns (ok: bool, sz: nat, ghost actions: seq<Action>, ghost next: Server, ghost sent: seq<Packet>,
               ghost sofar: seq<Packet>, ghost rest: seq<Packet>)
    requires Underway(begin, before, t, data, blocksize, blockid, start) && t.phase == Sending
    requires w.sent == base + written && InOrder(written, done) && left == DataPackets(data, blocksize, blockid, start)
    modifies w
    ensures sz == if |data| - start > blocksize then blocksize else |data| - start
    ensures Follows(begin, actions) && DoAll(begin, actions) == next
    ensures ok ==> Underway(begin, actions, next, data, blocksize, blockid + 1, start + sz)
    ensures next.phase == if !ok then Failed else if sz == blocksize then Sending else Finished
    ensures rest == if sz == blocksize then DataPackets(data, blocksize, blockid + 1, start + sz) else []
    ensures Served(left, old(w.script), old(w.writes)) == (ok && Served(rest, w.script, w.writes))
    ensures sofar + rest == done + left
    ensures w.sent == base + sent && (ok ==> InOrder(sent, sofar))
  {
    sz := |data| - start;
    if sz > blocksize { sz := blocksize; }
    TwoBytes(blockid);
    FirstBlock(data, blocksize, blockid, start, sz);
    MoveOver(done, left);
    var p := Data(blockid / 256 % 256 * 256 + blockid % 256, data[start..start + sz]);
    ghost var more;
    ok, more, sent := SendNext(w, p, t, left, base, written, done);
    DoConcat(begin, before, more);
    actions, next := before + more, DoAll(t, more);
    sofar, rest := done + [left[0]], left[1..];
  }

  /** The block loop; the server s is what the actions so far have made of the server at the beginning. */
  method SendBlocks(w: World, data: string, blocksize: nat, ghost begin: Server, ghost s: Server,
                    ghost before: seq<Action>, ghost base: seq<Packet>, ghost written: seq<Packet>, ghost done: seq<Packet>)
      returns (ok: bool, ghost actions: seq<Action>, ghost sent: seq<Packet>)
    requires Underway(begin, before, s, data, blocksize, 1, 0) && s.phase == Sending
    requires w.sent == base + written && InOrder(written, done)
    modifies w
    ensures Follows(begin, actions)
    ensures DoAll(begin, actions).phase == if ok then Finished else Failed
    ensures ok <==> Served(DataPackets(data, blocksize, 1, 0), old(w.script), old(w.writes))
    ensures w.sent == base + sent && (ok ==> InOrder(sent, done + DataPackets(data, blocksize, 1, 0)))
  {
    var blockid, start, sz := 1, 0, blocksize;
    ghost var all := DataPackets(data, blocksize, 1, 0);
    ghost var t, sofar, left := s, done, all;
    actions, sent := before, written;
    while sz == blocksize
      invariant 0 <= start <= |data| && 0 <= sz <= blocksize
      invariant Underway(begin, actions, t, data, blocksize, blockid, start)
      invariant t.phase == if sz == blocksize then Sending else Finished
      invariant left == if sz == blocksize then DataPackets(data, blocksize, blockid, start) else []
      invariant sofar + left == done + all
      invariant w.sent == base + sent && InOrder(sent, sofar)
      invariant Served(all, old(w.script), old(w.writes)) == Served(left, w.script, w.writes)
      decreases |data| - start, sz
    {
      ok, sz, actions, t, sent, sofar, left :=
        SendBlock(w, data, blocksize, blockid, start, begin, actions, t, base, sent, sofar, left);
      if !ok { return; }
      start := start + sz;
      blockid := blockid + 1;
    }
    MoveOver(sofar, left);
    ok := true;
  }

  lemma MoveOver(done: seq<Packet>, left: seq<Packet>)
    ensures left != [] ==> (done + [left[0]]) + left[1..] == done + left
    ensures left == [] ==> done + left == done
  {
  }

  /** In every run of the whole system the server acts as its own protocol says. */
  lemma {:induction false} RunsFollow(s: System, events: seq<Event>)
    requires Possible(s, events)
    ensures Follows(s.server, ServerActions(s, events))
    ensures DoAll(s.server, ServerActions(s, events)) == After(s, events).server
    decreases |events|
  {
    if events != [] {
      var rest := ServerActions(Next(s, events[0]), events[1..]);
      RunsFollow(Next(s, events[0]), events[1..]);
      if !events[0].Arrives? {
        assert ServerActions(s, events)[1..] == rest;
      }
    }
  }
}
