/** What the outside world does to a transfer, and which transfers it lets succeed. */
module TftpWorld {
  import opened Tftp
  import Sequences

  /** What a read can bring: a packet of the peer, one from another port, a timeout, or the deadline or an error. */
  datatype Happening = Arrived(reply: Reply) | Stray | Timeout | Deadline

  /** The peer acknowledges packet p. */
  predicate Acks(p: Packet, h: Happening) {
    h.Arrived? && h.reply.Ack? && (p.Oack? || h.reply.id == p.id)
  }

  /** The server goes on waiting for the acknowledgement of p. */
  predicate Passes(p: Packet, h: Happening) {
    || h.Timeout? || h.Stray?
    || (h.Arrived? && p.Data? && !h.reply.ErrorReply? && h.reply.id != p.id)
  }

  /** How many of the first k happenings are timeouts. */
  function Timeouts(script: seq<Happening>, k: nat): nat
    requires k <= |script|
  {
    if k == 0 then 0 else Timeouts(script, k - 1) + if script[k - 1].Timeout? then 1 else 0
  }

  /** The next n writes succeed; those nothing is said of do. */
  predicate Succeed(writes: seq<bool>, n: nat) {
    forall j :: 0 <= j < n && j < |writes| ==> writes[j]
  }

  function Rest(writes: seq<bool>, n: nat): seq<bool> {
    if n <= |writes| then writes[n..] else []
  }

  /** Happening k acknowledges p, and until then the server keeps waiting and can resend after each timeout. */
  predicate AckedAt(p: Packet, script: seq<Happening>, writes: seq<bool>, k: nat) {
    && k < |script| && Acks(p, script[k])
    && (forall j :: 0 <= j < k ==> Passes(p, script[j]))
    && Succeed(writes, 1 + Timeouts(script, k))
  }

  ghost predicate NeverAcked(p: Packet, script: seq<Happening>, writes: seq<bool>) {
    forall k: nat :: !AckedAt(p, script, writes, k)
  }

  function Copies(p: Packet, n: nat): seq<Packet> {
    if n == 0 then [] else Copies(p, n - 1) + [p]
  }

  /** The packets are written in order, each of them at least once. */
  ghost predicate InOrder(sent: seq<Packet>, packets: seq<Packet>)
    decreases |packets|
  {
    if packets == [] then sent == []
    else
      var n := |packets| - 1;
      exists before, c: nat :: c > 0 && sent == before + Copies(packets[n], c) && InOrder(before, packets[..n])
  }

  /** The packets are acknowledged one after the other, each by what comes after the acknowledgement before. */
  ghost predicate Served(packets: seq<Packet>, script: seq<Happening>, writes: seq<bool>)
    decreases |packets|
  {
    packets == []
    || (!NeverAcked(packets[0], script, writes)
        && var k := AckPlace(packets[0], script, writes);
           Served(packets[1..], script[k + 1..], Rest(writes, 1 + Timeouts(script, k))))
  }

  /** The happening that acknowledges p. */
  ghost function AckPlace(p: Packet, script: seq<Happening>, writes: seq<bool>): (k: nat)
    requires !NeverAcked(p, script, writes)
    ensures k < |script| && AckedAt(p, script, writes, k)
  {
    var k: nat :| AckedAt(p, script, writes, k);
    k
  }

  /** The data packets from a position on; only the last one is shorter than the block size, and may be empty. */
  function DataPackets(data: string, size: nat, id: nat, start: nat): seq<Packet>
    requires size > 0 && start <= |data|
    decreases |data| - start
  {
    if |data| - start < size then [Data(id % IDS, data[start..])]
    else [Data(id % IDS, data[start..start + size])] + DataPackets(data, size, id + 1, start + size)
  }

  lemma FirstBlock(data: string, size: nat, id: nat, start: nat, sz: nat)
    requires size > 0 && start <= |data| && sz == (if |data| - start > size then size else |data| - start)
    ensures var left := DataPackets(data, size, id, start);
      && left != [] && left[0] == Data(id % IDS, data[start..start + sz])
      && left[1..] == if sz == size then DataPackets(data, size, id + 1, start + sz) else []
  {
  }

  /** All packets of a transfer. */
  function Packets(data: string, size: nat, answers: seq<Answer>): seq<Packet>
    requires size > 0
  {
    (if answers == [] then [] else [Oack(answers)]) + DataPackets(data, size, 1, 0)
  }

  function Bytes(packets: seq<Packet>): string {
    if packets == [] then ""
    else (match packets[0] case Oack(_) => "" case Data(_, bytes) => bytes) + Bytes(packets[1..])
  }

  /** The blocks hold the data in order; all but the last are full and they are numbered on. */
  lemma {:induction false} BlocksMean(data: string, size: nat, id: nat, start: nat)
    requires size > 0 && start <= |data|
    ensures var b := DataPackets(data, size, id, start);
      && b != []
      && Bytes(b) == data[start..]
      && forall i :: 0 <= i < |b| ==>
           b[i].Data? && b[i].id == (id + i) % IDS && if i < |b| - 1 then |b[i].bytes| == size else |b[i].bytes| < size
    decreases |data| - start
  {
    if |data| - start >= size {
      BlocksMean(data, size, id + 1, start + size);
      var b, rest := DataPackets(data, size, id, start), DataPackets(data, size, id + 1, start + size);
      assert b[1..] == rest;
      assert forall i :: 0 < i < |b| ==> b[i] == rest[i - 1];
      assert data[start..] == data[start..start + size] + data[start + size..];
    } else {
      var b := DataPackets(data, size, id, start);
      assert b[1..] == [];
      assert Bytes(b) == data[start..] + "";
    }
  }

  lemma {:induction false} TimeoutsGrow(script: seq<Happening>, k: nat, m: nat)
    requires k <= m <= |script|
    ensures Timeouts(script, k) <= Timeouts(script, m)
  {
    if k < m {
      TimeoutsGrow(script, k, m - 1);
    }
  }

  lemma OneAck(p: Packet, script: seq<Happening>, writes: seq<bool>, k: nat, m: nat)
    requires AckedAt(p, script, writes, k) && AckedAt(p, script, writes, m)
    ensures k == m
  {
  }

  // ----- how far the wait for an acknowledgement has come

  /** Having taken notice of k happenings, the server is waiting; this is what is left and what was written. */
  ghost predicate WaitsAt(p: Packet, script: seq<Happening>, writes: seq<bool>, k: nat,
                          restScript: seq<Happening>, restWrites: seq<bool>)
  {
    && k <= |script| && restScript == script[k..]
    && (forall j :: 0 <= j < k ==> Passes(p, script[j]))
    && Succeed(writes, 1 + Timeouts(script, k)) && restWrites == Rest(writes, 1 + Timeouts(script, k))
  }

  lemma FirstWrite(p: Packet, script: seq<Happening>, writes: seq<bool>)
    ensures if writes == [] || writes[0]
            then WaitsAt(p, script, writes, 0, script, if writes == [] then [] else writes[1..])
            else NeverAcked(p, script, writes)
  {
  }

  lemma PassedBy(p: Packet, script: seq<Happening>, writes: seq<bool>, k: nat,
                 restScript: seq<Happening>, restWrites: seq<bool>)
    requires WaitsAt(p, script, writes, k, restScript, restWrites)
    requires restScript != [] && Passes(p, restScript[0]) && !restScript[0].Timeout?
    ensures WaitsAt(p, script, writes, k + 1, restScript[1..], restWrites)
    ensures Timeouts(script, k + 1) == Timeouts(script, k)
  {
  }

  lemma RestNext(writes: seq<bool>, n: nat)
    ensures Rest(writes, n + 1) == if Rest(writes, n) == [] then [] else Rest(writes, n)[1..]
    ensures Succeed(writes, n) ==> (Succeed(writes, n + 1) <==> Rest(writes, n) == [] || Rest(writes, n)[0])
  {
  }

  lemma AfterTimeout(p: Packet, script: seq<Happening>, writes: seq<bool>, k: nat,
                     restScript: seq<Happening>, restWrites: seq<bool>)
    requires WaitsAt(p, script, writes, k, restScript, restWrites) && restScript != [] && restScript[0].Timeout?
    ensures Timeouts(script, k + 1) == Timeouts(script, k) + 1
    ensures if restWrites == [] || restWrites[0]
            then WaitsAt(p, script, writes, k + 1, restScript[1..], if restWrites == [] then [] else restWrites[1..])
            else NeverAcked(p, script, writes)
  {
    var n := 1 + Timeouts(script, k);
    RestNext(writes, n);
    if restWrites != [] && !restWrites[0] {
      forall m: nat
        ensures !AckedAt(p, script, writes, m)
      {
        if m < k + 1 {
          EarlierIsNoAck(p, script, m);
        } else if m < |script| {
          TimeoutsGrow(script, k + 1, m);
          assert writes[n] == restWrites[0];
        }
      }
    }
  }

  lemma EarlierIsNoAck(p: Packet, script: seq<Happening>, m: nat)
    ensures m < |script| && Passes(p, script[m]) ==> !Acks(p, script[m])
  {
  }

  lemma AckArrives(p: Packet, script: seq<Happening>, writes: seq<bool>, k: nat,
                   restScript: seq<Happening>, restWrites: seq<bool>)
    requires WaitsAt(p, script, writes, k, restScript, restWrites) && restScript != [] && Acks(p, restScript[0])
    ensures AckedAt(p, script, writes, k) && restScript[1..] == script[k + 1..]
  {
  }

  lemma Hopeless(p: Packet, script: seq<Happening>, writes: seq<bool>, k: nat,
                 restScript: seq<Happening>, restWrites: seq<bool>)
    requires WaitsAt(p, script, writes, k, restScript, restWrites)
    requires restScript == [] || (!Acks(p, restScript[0]) && !Passes(p, restScript[0]))
    ensures NeverAcked(p, script, writes)
  {
    forall m: nat
      ensures !AckedAt(p, script, writes, m)
    {
      EarlierIsNoAck(p, script, m);
    }
  }

  /** How the wait stands: still on, ended by the acknowledgement after k happenings, or ended without any chance. */
  ghost predicate Stands(p: Packet, script: seq<Happening>, writes: seq<bool>, k: nat, over: bool, ok: bool,
                         restScript: seq<Happening>, restWrites: seq<bool>)
  {
    if !over then WaitsAt(p, script, writes, k, restScript, restWrites)
    else if ok then
      && AckedAt(p, script, writes, k)
      && restScript == script[k + 1..] && restWrites == Rest(writes, 1 + Timeouts(script, k))
    else NeverAcked(p, script, writes)
  }

  /** A wait that has ended was successful exactly if there is an acknowledgement at all. */
  lemma StandsDecided(p: Packet, script: seq<Happening>, writes: seq<bool>, k: nat, ok: bool,
                      restScript: seq<Happening>, restWrites: seq<bool>)
    requires Stands(p, script, writes, k, true, ok, restScript, restWrites)
    ensures ok <==> !NeverAcked(p, script, writes)
  {
  }

  // ----- packet after packet

  lemma PlaceIs(p: Packet, script: seq<Happening>, writes: seq<bool>, k: nat)
    requires AckedAt(p, script, writes, k)
    ensures !NeverAcked(p, script, writes) && AckPlace(p, script, writes) == k
  {
    OneAck(p, script, writes, k, AckPlace(p, script, writes));
  }

  lemma ServedFrom(packets: seq<Packet>, script: seq<Happening>, writes: seq<bool>, k: nat)
    requires packets != [] && k < |script|
    requires !NeverAcked(packets[0], script, writes) && AckPlace(packets[0], script, writes) == k
    ensures Served(packets, script, writes)
         == Served(packets[1..], script[k + 1..], Rest(writes, 1 + Timeouts(script, k)))
  {
  }

  lemma FirstServed(packets: seq<Packet>, script: seq<Happening>, writes: seq<bool>, k: nat)
    requires packets != [] && AckedAt(packets[0], script, writes, k)
    ensures Served(packets, script, writes)
         == Served(packets[1..], script[k + 1..], Rest(writes, 1 + Timeouts(script, k)))
  {
    PlaceIs(packets[0], script, writes, k);
    ServedFrom(packets, script, writes, k);
  }

  lemma FirstNotServed(packets: seq<Packet>, script: seq<Happening>, writes: seq<bool>)
    requires packets != [] && NeverAcked(packets[0], script, writes)
    ensures !Served(packets, script, writes)
  {
  }

  lemma InOrderSnoc(sent: seq<Packet>, packets: seq<Packet>, p: Packet, c: nat)
    requires InOrder(sent, packets) && c > 0
    ensures InOrder(sent + Copies(p, c), packets + [p])
  {
    var all, n := packets + [p], |packets|;
    assert all[n] == p && all[..n] == packets && |all| - 1 == n;
    assert c > 0 && sent + Copies(p, c) == sent + Copies(all[n], c) && InOrder(sent, all[..n]);
  }
}
