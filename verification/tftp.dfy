/**
 * The TFTP transfer: a server that sends one block at a time and a receiver that follows
 * sections 2 and 6 of RFC 1350 and the option extension of RFC 2347 and RFC 2348.
 */
module Tftp {
  const DEFAULT_SIZE := 512
  const MAX_SIZE := 65536
  const IDS := 65536

  /** An entry of the OACK: the block size or the length of the data. */
  datatype Answer = Size(size: nat) | Length(length: nat)

  datatype Packet = Oack(answers: seq<Answer>) | Data(id: nat, bytes: string)

  /** What can come from the peer's port; other packets are known by the two bytes where an ACK has its block id. */
  datatype Reply = Ack(id: nat) | ErrorReply | Garbage(id: nat)

  /** The block size that an OACK announces: the last one it mentions. */
  function Announced(answers: seq<Answer>): nat {
    if answers == [] then DEFAULT_SIZE
    else
      match answers[|answers| - 1]
      case Size(n) => n
      case Length(_) => Announced(answers[..|answers| - 1])
  }

  datatype Phase = Options | Sending | Finished | Failed

  /** written: the current packet has been sent at least once. */
  datatype Server = Server(data: string, size: nat, answers: seq<Answer>, phase: Phase, blockid: nat, start: nat, written: bool)

  predicate Ready(s: Server) {
    s.start <= |s.data| && 0 < s.size && (s.phase == Options || s.phase == Sending)
  }

  function BlockSize(s: Server): nat
    requires Ready(s)
  {
    if |s.data| - s.start > s.size then s.size else |s.data| - s.start
  }

  function Outgoing(s: Server): Packet
    requires Ready(s)
  {
    if s.phase == Options then Oack(s.answers)
    else Data(s.blockid % IDS, s.data[s.start..s.start + BlockSize(s)])
  }

  /** An acknowledgement of the current packet moves on to the next block. */
  function Acknowledged(s: Server): Server
    requires Ready(s)
  {
    if s.phase == Options then s.(phase := Sending, written := false)
    else
      var sz := BlockSize(s);
      s.(start := s.start + sz, blockid := s.blockid + 1, written := false,
         phase := if sz < s.size then Finished else Sending)
  }

  function Hear(s: Server, r: Reply): Server
    requires Ready(s)
  {
    match r
    case Ack(id) => if s.phase == Options || id == s.blockid % IDS then Acknowledged(s) else s
    case ErrorReply => s.(phase := Failed)
    case Garbage(id) => if s.phase == Sending && id != s.blockid % IDS then s else s.(phase := Failed)
  }

  /** The receiver expects the given block; it learns the block size from an OACK before the first block. */
  datatype Receiver = Receiver(got: string, expected: nat, size: nat, done: bool)

  /** Packets stay in the network for good: they can arrive late, repeatedly and in any order, or never. */
  datatype System = System(server: Server, receiver: Receiver, packets: set<Packet>, acks: set<nat>)

  datatype Event =
    | Write
    | Heard(reply: Reply)
    | GiveUp
    | Arrives(packet: Packet, again: bool)

  ghost predicate Enabled(s: System, e: Event) {
    match e
    case Write => Ready(s.server)
    case Heard(r) => Ready(s.server) && s.server.written && (r.Ack? ==> r.id in s.acks)
    case GiveUp => Ready(s.server)
    case Arrives(p, _) => p in s.packets
  }

  /** The next block is stored and acknowledged; an earlier one is only acknowledged again. */
  function Take(r: Receiver, id: nat, bytes: string): Receiver {
    if r.done || id != r.expected % IDS then r
    else r.(got := r.got + bytes, expected := r.expected + 1, done := |bytes| < r.size)
  }

  predicate Received(r: Receiver, id: nat) {
    exists j :: 1 <= j < r.expected && id == j % IDS
  }

  /** The OACK and the expected block are acknowledged; an earlier block may be acknowledged again. */
  function Answers(r: Receiver, p: Packet, again: bool): set<nat> {
    match p
    case Oack(_) => {0}
    case Data(id, _) => if (!r.done && id == r.expected % IDS) || (again && Received(r, id)) then {id} else {}
  }

  ghost function Next(s: System, e: Event): System
    requires Enabled(s, e)
  {
    match e
    case Write => s.(server := s.server.(written := true), packets := s.packets + {Outgoing(s.server)})
    case Heard(r) => s.(server := Hear(s.server, r))
    case GiveUp => s.(server := s.server.(phase := Failed))
    case Arrives(p, again) =>
      var r := match p
        case Oack(a) => if s.receiver.expected == 1 then s.receiver.(size := Announced(a)) else s.receiver
        case Data(id, bytes) => Take(s.receiver, id, bytes);
      s.(receiver := r, acks := s.acks + Answers(s.receiver, p, again))
  }

  ghost predicate Possible(s: System, events: seq<Event>)
    decreases |events|
  {
    events == [] || (Enabled(s, events[0]) && Possible(Next(s, events[0]), events[1..]))
  }

  ghost function After(s: System, events: seq<Event>): System
    requires Possible(s, events)
    decreases |events|
  {
    if events == [] then s else After(Next(s, events[0]), events[1..])
  }

  function Begin(data: string, size: nat, answers: seq<Answer>): System {
    System(Server(data, size, answers, if answers == [] then Sending else Options, 1, 0, false),
           Receiver("", 1, DEFAULT_SIZE, false), {}, {})
  }

  /** The number of blocks: the last one is short, possibly empty. */
  function Blocks(data: string, size: nat): nat
    requires size > 0
  {
    |data| / size + 1
  }

  /** No two blocks share an id, nor does a block share the id 0 of an acknowledged OACK. */
  predicate DistinctIds(data: string, size: nat, answers: seq<Answer>) {
    size > 0 && Blocks(data, size) <= if answers == [] then IDS else IDS - 1
  }

  /** Where block j starts. */
  function Offset(size: nat, j: nat): nat
    requires j > 0
  {
    (j - 1) * size
  }

  function End(data: string, size: nat, j: nat): nat
    requires j > 0
  {
    if Offset(size, j + 1) < |data| then Offset(size, j + 1) else |data|
  }

  lemma OffsetNext(size: nat, j: nat)
    requires j > 0
    ensures Offset(size, j + 1) == Offset(size, j) + size
  {
  }

  lemma Quotient(n: nat, size: nat, k: nat)
    requires size > 0
    ensures k <= n / size <==> k * size <= n
  {
    if k <= n / size {
      MulMonotone(k, n / size, size);
    } else {
      MulMonotone(n / size + 1, k, size);
    }
  }

  lemma MulMonotone(a: nat, b: nat, c: nat)
    requires a <= b
    ensures a * c <= b * c
  {
  }

  /** The blocks are those that start within the data or at its end; all but the last are full. */
  lemma BlockFits(data: string, size: nat, j: nat)
    requires size > 0 && j > 0
    ensures j <= Blocks(data, size) <==> Offset(size, j) <= |data|
    ensures j < Blocks(data, size) <==> Offset(size, j) + size <= |data|
  {
    Quotient(|data|, size, j - 1);
    Quotient(|data|, size, j);
    OffsetNext(size, j);
  }

  function Block(data: string, size: nat, j: nat): string
    requires j > 0 && Offset(size, j) <= |data|
  {
    OffsetNext(size, j);
    data[Offset(size, j)..End(data, size, j)]
  }

  predicate Carries(data: string, size: nat, p: Packet, j: nat) {
    && p.Data? && 0 < j && Offset(size, j) <= |data|
    && p.id == j % IDS && p.bytes == Block(data, size, j)
  }

  ghost predicate PacketsValid(s: System) {
    forall p :: p in s.packets ==>
      if p.Oack? then p.answers == s.server.answers && s.server.answers != []
      else exists j: nat :: Carries(s.server.data, s.server.size, p, j)
  }

  ghost predicate AcksValid(s: System) {
    forall id :: id in s.acks ==> (id == 0 && s.server.answers != []) || Received(s.receiver, id)
  }

  /** The receiver has the blocks before the expected one. */
  ghost predicate HoldsPrefix(s: System) {
    var data, size, r := s.server.data, s.server.size, s.receiver;
    && 0 < size && 0 < r.expected <= Blocks(data, size) + 1
    && (r.done <==> r.expected == Blocks(data, size) + 1)
    && (!r.done ==> Offset(size, r.expected) <= |data|)
    && r.got == if r.done then data else data[..Offset(size, r.expected)]
  }

  /** The receiver knows the block size before any block is sent. */
  ghost predicate SizeKnown(s: System) {
    s.receiver.size != s.server.size ==>
      && s.receiver.expected == 1 && s.acks == {}
      && s.server.phase != Sending && s.server.phase != Finished
      && forall p :: p in s.packets ==> p.Oack?
  }

  /** The server is at most one block ahead of what the receiver has acknowledged. */
  ghost predicate ServerValid(s: System) {
    var t := s.server;
    0 < t.size &&
    match t.phase
    case Options => t.blockid == 1 && t.start == 0 && t.answers != []
    case Sending =>
      && 0 < t.blockid <= s.receiver.expected && t.blockid <= Blocks(t.data, t.size)
      && t.start == Offset(t.size, t.blockid)
    case Finished => t.blockid == Blocks(t.data, t.size) + 1 == s.receiver.expected
    case Failed => true
  }

  ghost predicate Inv(s: System) {
    && DistinctIds(s.server.data, s.server.size, s.server.answers)
    && s.server.size == Announced(s.server.answers)
    && HoldsPrefix(s) && PacketsValid(s) && AcksValid(s) && SizeKnown(s) && ServerValid(s)
  }

  lemma BeginInv(data: string, answers: seq<Answer>)
    requires DistinctIds(data, Announced(answers), answers)
    ensures Inv(Begin(data, Announced(answers), answers))
  {
  }

  /** Numbers that are less than 65536 apart have different ids. */
  lemma SameId(i: nat, j: nat)
    requires i % IDS == j % IDS && i - j < IDS && j - i < IDS
    ensures i == j
  {
  }

  lemma ServerReady(s: System)
    requires Inv(s) && (s.server.phase == Options || s.server.phase == Sending)
    ensures Ready(s.server)
    ensures s.server.phase == Sending ==>
      Outgoing(s.server) == Data(s.server.blockid % IDS, Block(s.server.data, s.server.size, s.server.blockid))
  {
    var t := s.server;
    if t.phase == Sending {
      BlockFits(t.data, t.size, t.blockid);
      OffsetNext(t.size, t.blockid);
    }
  }

  lemma WriteKeeps(s: System)
    requires Inv(s) && Enabled(s, Write)
    ensures Inv(Next(s, Write))
  {
    var t, n := s.server, Next(s, Write);
    ServerReady(s);
    if t.phase == Sending {
      BlockFits(t.data, t.size, t.blockid);
      assert Carries(t.data, t.size, Outgoing(t), t.blockid);
    }
    assert n.receiver == s.receiver;
  }

  lemma AckIsForBlock(s: System, id: nat)
    requires Inv(s) && s.server.phase == Sending && id in s.acks && id == s.server.blockid % IDS
    ensures s.server.blockid < s.receiver.expected
  {
    var t := s.server;
    if Received(s.receiver, id) {
      var j :| 1 <= j < s.receiver.expected && id == j % IDS;
      SameId(j, t.blockid);
    } else {
      SameId(0, t.blockid);
    }
  }

  lemma AcknowledgedKeeps(s: System, id: nat)
    requires Inv(s) && Enabled(s, Heard(Ack(id))) && s.server.phase == Sending && id == s.server.blockid % IDS
    ensures Inv(Next(s, Heard(Ack(id))))
  {
    var t := s.server;
    AckIsForBlock(s, id);
    BlockFits(t.data, t.size, t.blockid);
    BlockFits(t.data, t.size, t.blockid + 1);
    OffsetNext(t.size, t.blockid);
  }

  lemma HeardKeeps(s: System, r: Reply)
    requires Inv(s) && Enabled(s, Heard(r))
    ensures Inv(Next(s, Heard(r)))
  {
    if r.Ack? && s.server.phase == Sending && r.id == s.server.blockid % IDS {
      AcknowledgedKeeps(s, r.id);
    } else if r.Ack? && s.server.phase == Options {
      BlockFits(s.server.data, s.server.size, 1);
    }
  }

  lemma OackKeeps(s: System, p: Packet, again: bool)
    requires Inv(s) && Enabled(s, Arrives(p, again)) && p.Oack?
    ensures Inv(Next(s, Arrives(p, again)))
  {
    var n := Next(s, Arrives(p, again));
    assert n.receiver.size == s.server.size;
    assert Answers(s.receiver, p, again) == {0};
    assert forall id :: Received(s.receiver, id) ==> Received(n.receiver, id);
  }

  /** A data packet with the expected id holds the expected block. */
  lemma ExpectedBlock(s: System, p: Packet)
    requires Inv(s) && p in s.packets && p.Data? && !s.receiver.done && p.id == s.receiver.expected % IDS
    ensures p.bytes == Block(s.server.data, s.server.size, s.receiver.expected)
    ensures s.receiver.size == s.server.size
  {
    var j: nat :| Carries(s.server.data, s.server.size, p, j);
    BlockFits(s.server.data, s.server.size, j);
    SameId(j, s.receiver.expected);
  }

  /** Appending the next block extends the prefix; only the last block is short. */
  lemma BlockAppended(data: string, size: nat, j: nat)
    requires size > 0 && 0 < j <= Blocks(data, size) && Offset(size, j) <= |data|
    ensures |Block(data, size, j)| < size <==> j == Blocks(data, size)
    ensures j == Blocks(data, size) ==> data[..Offset(size, j)] + Block(data, size, j) == data
    ensures j < Blocks(data, size) ==> Offset(size, j + 1) <= |data|
    ensures j < Blocks(data, size) ==>
      data[..Offset(size, j)] + Block(data, size, j) == data[..Offset(size, j + 1)]
  {
    OffsetNext(size, j);
    BlockFits(data, size, j);
    var e := End(data, size, j);
    assert data[..Offset(size, j)] + data[Offset(size, j)..e] == data[..e];
    assert data[..|data|] == data;
  }

  lemma ReceivedStays(r: Receiver, n: Receiver)
    requires 0 < r.expected <= n.expected
    ensures forall id :: Received(r, id) ==> Received(n, id)
  {
    forall id | Received(r, id)
      ensures Received(n, id)
    {
      var j :| 1 <= j < r.expected && id == j % IDS;
    }
  }

  lemma NewBlockKeeps(s: System, p: Packet, again: bool)
    requires Inv(s) && Enabled(s, Arrives(p, again)) && p.Data?
    requires !s.receiver.done && p.id == s.receiver.expected % IDS
    ensures Inv(Next(s, Arrives(p, again)))
  {
    var n, e := Next(s, Arrives(p, again)), s.receiver.expected;
    ExpectedBlock(s, p);
    BlockAppended(s.server.data, s.server.size, e);
    ReceivedStays(s.receiver, n.receiver);
    assert Answers(s.receiver, p, again) == {p.id};
    assert Received(n.receiver, p.id);
  }

  lemma OldBlockKeeps(s: System, p: Packet, again: bool)
    requires Inv(s) && Enabled(s, Arrives(p, again)) && p.Data?
    requires s.receiver.done || p.id != s.receiver.expected % IDS
    ensures Inv(Next(s, Arrives(p, again)))
  {
    var n := Next(s, Arrives(p, again));
    assert n.receiver == s.receiver;
    assert forall id :: id in Answers(s.receiver, p, again) ==> Received(s.receiver, id);
  }

  lemma NextKeeps(s: System, e: Event)
    requires Inv(s) && Enabled(s, e)
    ensures Inv(Next(s, e))
  {
    match e
    case Write => WriteKeeps(s);
    case Heard(r) => HeardKeeps(s, r);
    case GiveUp =>
    case Arrives(p, again) =>
      if p.Oack? {
        OackKeeps(s, p, again);
      } else if !s.receiver.done && p.id == s.receiver.expected % IDS {
        NewBlockKeeps(s, p, again);
      } else {
        OldBlockKeeps(s, p, again);
      }
  }

  lemma {:induction false} RunKeeps(s: System, events: seq<Event>)
    requires Inv(s) && Possible(s, events)
    ensures Inv(After(s, events))
    ensures After(s, events).server.data == s.server.data && After(s, events).server.size == s.server.size
    decreases |events|
  {
    if events != [] {
      NextKeeps(s, events[0]);
      RunKeeps(Next(s, events[0]), events[1..]);
    }
  }

  /**
   * Whatever the network loses, repeats or reorders, the receiver holds a prefix of the data, and all of
   * it when the server finishes successfully, which it does after len/blocksize+1 blocks.
   */
  lemma TransferIsSafe(data: string, answers: seq<Answer>, events: seq<Event>)
    requires DistinctIds(data, Announced(answers), answers)
    requires Possible(Begin(data, Announced(answers), answers), events)
    ensures var s := After(Begin(data, Announced(answers), answers), events);
      && s.receiver.got <= data
      && (s.server.phase == Finished ==>
          s.receiver.done && s.receiver.got == data && s.server.blockid - 1 == Blocks(data, Announced(answers)))
  {
    BeginInv(data, answers);
    RunKeeps(Begin(data, Announced(answers), answers), events);
  }
}
