/** One connection: the bounded send queue, wire framing, nonces and the deferred change of key. */
module Connection {
  import opened Numbers
  import opened Protocol
  import opened Packet
  import opened Pipeline

  const MAX_PENDING_BYTES := 0x10_0000

  datatype PendingSend = PendingSend(data: Bytes, reliable: bool)

  /** The whole connection as a value. */
  datatype ConnState = ConnState(
    isServer: bool,
    rel: Reliability,
    txNonce: nat,
    queue: seq<PendingSend>,
    pendingBytes: nat,
    key: Key,
    swap: Option<Key>,
    handshakeSent: bool,
    authenticated: bool)

  function NewState(isServer: bool, now: nat): ConnState {
    ConnState(isServer, FRESH.(lastReceived := now), if isServer then 1 else 0, [], 0, BootstrapKey(), None, false,
              false)
  }

  // ---------- the queue ----------

  function TotalBytes(queue: seq<PendingSend>): nat {
    if queue == [] then 0 else TotalBytes(queue[..|queue| - 1]) + |queue[|queue| - 1].data|
  }

  /** `pendingBytes` is the length of everything queued, and stays within the bound. */
  predicate Accounted(c: ConnState) {
    c.pendingBytes == TotalBytes(c.queue) <= MAX_PENDING_BYTES
  }

  predicate Sound(c: ConnState) {
    TimeoutOk(c.rel) && Accounted(c)
  }

  /** An unreliable send starts with its type byte; the source indexes it without looking. */
  predicate Sendable(queue: seq<PendingSend>) {
    forall i :: 0 <= i < |queue| ==> queue[i].reliable || queue[i].data != []
  }

  function Queued(c: ConnState, data: Bytes, reliable: bool): ConnState {
    if c.pendingBytes + |data| > MAX_PENDING_BYTES then c
    else c.(queue := c.queue + [PendingSend(data, reliable)], pendingBytes := c.pendingBytes + |data|)
  }

  /** The payload of a handshake. */
  function Handshake(key: Key): Bytes {
    [RELIABLE] + key
  }

  function WithHandshake(c: ConnState, key: Key): ConnState {
    Queued(c, Handshake(key), true).(handshakeSent := true, swap := Some(key))
  }

  lemma TotalOfOneMore(queue: seq<PendingSend>, ps: PendingSend)
    ensures TotalBytes(queue + [ps]) == TotalBytes(queue) + |ps.data|
  {
    assert (queue + [ps])[..|queue|] == queue;
  }

  lemma {:induction false} TotalWithoutFirst(queue: seq<PendingSend>)
    requires queue != []
    ensures TotalBytes(queue) == |queue[0].data| + TotalBytes(queue[1..])
  {
    if |queue| > 1 {
      TotalWithoutFirst(queue[..|queue| - 1]);
      assert queue[..|queue| - 1][1..] == queue[1..][..|queue[1..]| - 1];
    }
  }

  /** A send is refused exactly when it would pass the bound, and either way the account is kept. */
  lemma QueueingKeepsAccount(c: ConnState, data: Bytes, reliable: bool)
    requires Accounted(c)
    ensures Accounted(Queued(c, data, reliable))
    ensures Queued(c, data, reliable) == c <==> TotalBytes(c.queue) + |data| > MAX_PENDING_BYTES
  {
    TotalOfOneMore(c.queue, PendingSend(data, reliable));
  }

  // ---------- frames ----------

  function ReliableFrame(h: Header, box: Bytes): Bytes {
    [RELIABLE] + EncodeHeader(h) + box
  }

  function UnreliableFrame(kind: Bytes, nonce: nat, box: Bytes): Bytes {
    kind + ToBytes(nonce, 8) + box
  }

  /** The number of reliable sends in a queue. */
  function Reliables(queue: seq<PendingSend>): nat {
    if queue == [] then 0
    else Reliables(queue[..|queue| - 1]) + if queue[|queue| - 1].reliable then 1 else 0
  }

  function Unreliables(queue: seq<PendingSend>): nat {
    if queue == [] then 0
    else Unreliables(queue[..|queue| - 1]) + if queue[|queue| - 1].reliable then 0 else 1
  }

  /** The sequence and the nonce used for item `i` of the queue, whether or not sealing it works. */
  function SequenceOf(c: ConnState, i: nat): u16
    requires i <= |c.queue|
  {
    Wrap16(c.rel.nextOutgoing + Reliables(c.queue[..i]))
  }

  function NonceOf(c: ConnState, i: nat): nat
    requires i <= |c.queue|
  {
    c.txNonce + 2 * Unreliables(c.queue[..i])
  }

  function HeaderOf(c: ConnState, i: nat): Header
    requires i <= |c.queue|
  {
    Header(SequenceOf(c, i), c.rel.window.highest, c.rel.window.bits)
  }

  /** The wire bytes of item `i`, or nothing if sealing fails. A flush demands that the queue is sendable. */
  function WireOf(cipher: Cipher, c: ConnState, i: nat): Option<Bytes>
    requires i < |c.queue|
  {
    var ps := c.queue[i];
    if ps.reliable then
      var box := cipher.seal(c.key, ps.data, SequenceOf(c, i));
      if box.Some? then Some(ReliableFrame(HeaderOf(c, i), box.value)) else None
    else if ps.data == [] then
      None
    else
      var box := cipher.seal(c.key, ps.data[1..], NonceOf(c, i));
      if box.Some? then Some(UnreliableFrame(ps.data[..1], NonceOf(c, i), box.value)) else None
  }

  /** The wire bytes of the first `n` items, in queue order. */
  function Wires(cipher: Cipher, c: ConnState, n: nat): seq<Bytes>
    requires n <= |c.queue|
  {
    if n == 0 then []
    else
      var wire := WireOf(cipher, c, n - 1);
      Wires(cipher, c, n - 1) + if wire.Some? then [wire.value] else []
  }

  /** The packets the first `n` items add to the outstanding list. */
  function NewlyUnacked(cipher: Cipher, c: ConnState, now: nat, n: nat): seq<Unacked>
    requires n <= |c.queue|
  {
    if n == 0 then []
    else
      var wire := WireOf(cipher, c, n - 1);
      NewlyUnacked(cipher, c, now, n - 1)
      + if c.queue[n - 1].reliable && wire.Some? then [Unacked(SequenceOf(c, n - 1), now, wire.value, 0)] else []
  }

  // ---------- a flush ----------

  /** Everything a flush hands to the socket: due resends first, then the queue in order. */
  function Emission(cipher: Cipher, c: ConnState, now: nat): seq<Bytes>
  {
    ResentData(c.rel.unacked, now, c.rel.rtt.rto, |c.rel.unacked|) + Wires(cipher, c, |c.queue|)
  }

  /** The connection after a flush. The new key takes over only behind the last frame. */
  function Updated(cipher: Cipher, c: ConnState, now: nat): ConnState
  {
    var n := |c.queue|;
    var rel := Retransmitted(c.rel, now);
    c.(rel := rel.(nextOutgoing := SequenceOf(c, n),
                   unacked := rel.unacked + NewlyUnacked(cipher, c, now, n)),
       txNonce := NonceOf(c, n),
       queue := [],
       pendingBytes := 0,
       key := if c.swap.Some? then c.swap.value else c.key,
       swap := None)
  }

  class Connection {
    const endpoint: nat
    const cipher: Cipher
    const isServer: bool
    const state: ReliableConnectionState
    var txNonce: nat
    var pendingQueue: seq<PendingSend>
    var pendingBytes: nat
    var handshakeSent: bool
    var key: Key
    var pendingKeySwap: Option<Key>
    var isAuthenticated: bool
    var lastSeen: nat  // when the manager last heard of the peer; no method here reads it

    ghost function Value(): ConnState
      reads this, state
    {
      ConnState(isServer, state.Value(), txNonce, pendingQueue, pendingBytes, key, pendingKeySwap, handshakeSent,
                isAuthenticated)
    }

    ghost predicate Valid()
      reads this, state
    {
      Sound(Value())
    }

    constructor (endpoint: nat, cipher: Cipher, isServer: bool, now: nat)
      ensures Valid() && fresh(state) && this.cipher == cipher
      ensures this.endpoint == endpoint == state.endpoint
      ensures Value() == NewState(isServer, now) && lastSeen == now
    {
      this.endpoint := endpoint;
      this.cipher := cipher;
      this.isServer := isServer;
      state := new ReliableConnectionState(now, endpoint);
      txNonce := if isServer then 1 else 0;
      pendingQueue := [];
      pendingBytes := 0;
      handshakeSent := false;
      key := BootstrapKey();
      pendingKeySwap := None;
      isAuthenticated := false;
      lastSeen := now;
    }

    method Touch(now: nat)
      modifies this`lastSeen
      ensures lastSeen == now && Value() == old(Value())
    {
      lastSeen := now;
    }

    method QueuePendingSend(data: Bytes, reliable: bool)
      requires Valid()
      modifies this`pendingQueue, this`pendingBytes
      ensures Valid()
      ensures Value() == Queued(old(Value()), data, reliable)
    {
      var size := |data|;
      if pendingBytes + size > MAX_PENDING_BYTES {
        return;
      }
      TotalOfOneMore(pendingQueue, PendingSend(data, reliable));
      hide TotalBytes;
      pendingQueue := pendingQueue + [PendingSend(data, reliable)];
      pendingBytes := pendingBytes + size;
    }

    /** Queues the session key for the peer; the change to it waits for the next flush. */
    method QueueHandshake(sessionKey: Key)
      requires Valid()
      modifies this`pendingQueue, this`pendingBytes, this`handshakeSent, this`pendingKeySwap
      ensures Valid()
      ensures Value() == WithHandshake(old(Value()), sessionKey)
    {
      QueuePendingSend([RELIABLE] + sessionKey, true);
      handshakeSent := true;
      pendingKeySwap := Some(sessionKey);
    }

    method GetTxNonce() returns (nonce: nat)
      modifies this`txNonce
      ensures nonce == old(txNonce) && txNonce == nonce + 2
    {
      nonce := txNonce;
      txNonce := txNonce + 2;
    }

    /** Takes the first queued send off the queue. */
    method PopFront() returns (ps: PendingSend)
      requires pendingQueue != [] && pendingBytes == TotalBytes(pendingQueue)
      modifies this`pendingQueue, this`pendingBytes
      ensures ps == old(pendingQueue[0]) && pendingQueue == old(pendingQueue[1..])
      ensures pendingBytes == TotalBytes(pendingQueue)
    {
      TotalWithoutFirst(pendingQueue);
      ps := pendingQueue[0];
      pendingQueue := pendingQueue[1..];
      pendingBytes := pendingBytes - |ps.data|;
    }

    /** Frames one send; `None` when the pipeline fails, and then the send is lost. */
    method Frame(ps: PendingSend, now: nat) returns (wire: Option<Bytes>)
      requires ps.reliable || ps.data != []
      modifies this`txNonce, state`nextOutgoingSequence, state`unacknowledgedPackets
      ensures var one := old(Value()).(queue := [ps]);
              && wire == WireOf(cipher, one, 0)
              && txNonce == NonceOf(one, 1)
              && state.nextOutgoingSequence == SequenceOf(one, 1)
              && state.unacknowledgedPackets ==
                 old(state.unacknowledgedPackets) + NewlyUnacked(cipher, one, now, 1)
    {
      hide EncodeHeader, ToBytes;
      ghost var one := Value().(queue := [ps]);
      assert one.queue[..0] == [] && one.queue[..1] == [ps];
      assert Reliables([ps][..0]) == 0 && Unreliables([ps][..0]) == 0;
      assert NewlyUnacked(cipher, one, now, 0) == [];
      if ps.reliable {
        var sequence := state.nextOutgoingSequence;
        state.nextOutgoingSequence := Wrap16(state.nextOutgoingSequence + 1);
        var header := Header(sequence, state.highestReceivedSequence, state.receivedSequenceBitfield);
        var box := cipher.seal(key, ps.data, sequence);
        if box.None? {
          return None;
        }
        var out := [RELIABLE] + EncodeHeader(header) + box.value;
        state.unacknowledgedPackets := state.unacknowledgedPackets + [Unacked(sequence, now, out, 0)];
        return Some(out);
      } else {
        var kind, payload := ps.data[..1], ps.data[1..];
        var nonce := GetTxNonce();
        var box := cipher.seal(key, payload, nonce);
        if box.None? {
          return None;
        }
        return Some(kind + ToBytes(nonce, 8) + box.value);
      }
    }

    /** The first `i` sends of the queue of `c` have been framed. */
    ghost predicate Framed(c: ConnState, now: nat, i: nat)
      reads this, state
    {
      && i <= |c.queue| && pendingQueue == c.queue[i..]
      && pendingBytes == TotalBytes(pendingQueue)
      && state.nextOutgoingSequence == SequenceOf(c, i)
      && state.unacknowledgedPackets == c.rel.unacked + NewlyUnacked(cipher, c, now, i)
      && txNonce == NonceOf(c, i)
      && state.Value().window == c.rel.window
      && key == c.key
    }

    method SendNext(now: nat, ghost c: ConnState, ghost i: nat) returns (wire: Option<Bytes>)
      requires pendingQueue != [] && Sendable(pendingQueue) && Framed(c, now, i)
      modifies this`txNonce, this`pendingQueue, this`pendingBytes,
               state`nextOutgoingSequence, state`unacknowledgedPackets
      ensures wire == WireOf(cipher, c, i)
      ensures Framed(c, now, i + 1)
    {
      hide TotalBytes, WireOf, SequenceOf, NonceOf, NewlyUnacked;
      var ps := PopFront();
      FrameOfItem(cipher, c, Value(), now, i);
      wire := Frame(ps, now);
    }

    /** Empties the queue, framing every send under the current key. */
    method DrainQueue(now: nat) returns (wires: seq<Bytes>)
      requires Valid() && Sendable(pendingQueue)
      modifies this`txNonce, this`pendingQueue, this`pendingBytes,
               state`nextOutgoingSequence, state`unacknowledgedPackets
      ensures var c, n := old(Value()), |old(pendingQueue)|;
              wires == Wires(cipher, c, n) && Framed(c, now, n)
    {
      ghost var c := Value();
      NothingFramed(cipher, c, now);
      hide TotalBytes, WireOf, SequenceOf, NonceOf, NewlyUnacked;
      wires := [];
      ghost var i := 0;
      while pendingQueue != []
        invariant Framed(c, now, i)
        invariant wires == Wires(cipher, c, i)
        decreases |pendingQueue|
      {
        var wire := SendNext(now, c, i);
        if wire.Some? {
          wires := wires + [wire.value];
        }
        i := i + 1;
      }
    }

    /** The change of key, deferred until everything queued before it has been framed. */
    method SwapKey()
      modifies this`key, this`pendingKeySwap
      ensures key == if old(pendingKeySwap).Some? then old(pendingKeySwap).value else old(key)
      ensures pendingKeySwap == None
    {
      if pendingKeySwap.Some? {
        key := pendingKeySwap.value;
        pendingKeySwap := None;
      }
    }

    method Update(now: nat) returns (out: seq<Bytes>)
      requires Valid() && Sendable(Value().queue)
      modifies this`txNonce, this`pendingQueue, this`pendingBytes, this`key, this`pendingKeySwap, state
      ensures Valid()
      ensures Value() == Updated(cipher, old(Value()), now)
      ensures out == Emission(cipher, old(Value()), now)
    {
      ghost var c := Value();
      assert TotalBytes([]) == 0;
      hide TotalBytes, Wires, SequenceOf, NonceOf, NewlyUnacked, ResentData, AfterPass, Backoff, Resends;
      out := state.ProcessRetransmissions(now);
      CountersIgnoreResends(cipher, c, Value(), now, |c.queue|);
      var wires := DrainQueue(now);
      out := out + wires;
      SwapKey();
    }
  }

  /** Framing reads neither the outstanding list nor the timeout. */
  lemma {:induction false} CountersIgnoreResends(cipher: Cipher, c: ConnState, d: ConnState, now: nat, n: nat)
    requires n <= |c.queue|
    requires d == c.(rel := c.rel.(unacked := d.rel.unacked, rtt := d.rel.rtt, retransmits := d.rel.retransmits))
    ensures Wires(cipher, d, n) == Wires(cipher, c, n)
    ensures NewlyUnacked(cipher, d, now, n) == NewlyUnacked(cipher, c, now, n)
    ensures SequenceOf(d, n) == SequenceOf(c, n) && NonceOf(d, n) == NonceOf(c, n)
  {
    hide WireOf, SequenceOf, NonceOf;
    CounterIgnoresResends(cipher, c, d, n);
    if n > 0 {
      CountersIgnoreResends(cipher, c, d, now, n - 1);
      CounterIgnoresResends(cipher, c, d, n - 1);
    }
  }

  lemma CounterIgnoresResends(cipher: Cipher, c: ConnState, d: ConnState, i: nat)
    requires i <= |c.queue|
    requires d == c.(rel := c.rel.(unacked := d.rel.unacked, rtt := d.rel.rtt, retransmits := d.rel.retransmits))
    ensures SequenceOf(d, i) == SequenceOf(c, i) && NonceOf(d, i) == NonceOf(c, i)
    ensures i < |c.queue| ==> WireOf(cipher, d, i) == WireOf(cipher, c, i)
  {
    hide ReliableFrame, UnreliableFrame, Wrap16;
    assert HeaderOf(d, i) == HeaderOf(c, i);
  }

  /** Framing an item on its own, with the counters that have been reached, is framing it in the queue. */
  lemma FrameOfItem(cipher: Cipher, c: ConnState, at: ConnState, now: nat, i: nat)
    requires i < |c.queue|
    requires at.rel.nextOutgoing == SequenceOf(c, i) && at.txNonce == NonceOf(c, i)
    requires at.rel.window == c.rel.window && at.key == c.key
    ensures var one := at.(queue := [c.queue[i]]);
            && WireOf(cipher, one, 0) == WireOf(cipher, c, i)
            && NonceOf(one, 1) == NonceOf(c, i + 1)
            && SequenceOf(one, 1) == SequenceOf(c, i + 1)
            && NewlyUnacked(cipher, c, now, i) + NewlyUnacked(cipher, one, now, 1) ==
               NewlyUnacked(cipher, c, now, i + 1)
  {
    hide ReliableFrame, UnreliableFrame;
    var one := at.(queue := [c.queue[i]]);
    CountsOfPrefix(c.queue, i);
    CountsOfPrefix(one.queue, 0);
    assert one.queue[..0] == [];
    assert NewlyUnacked(cipher, one, now, 0) == [];
  }

  lemma NothingFramed(cipher: Cipher, c: ConnState, now: nat)
    ensures SequenceOf(c, 0) == c.rel.nextOutgoing && NonceOf(c, 0) == c.txNonce
    ensures NewlyUnacked(cipher, c, now, 0) == []
    ensures TotalBytes([]) == 0
  {
    assert c.queue[..0] == [];
  }

  lemma CountsOfPrefix(queue: seq<PendingSend>, i: nat)
    requires i < |queue|
    ensures Reliables(queue[..i + 1]) == Reliables(queue[..i]) + if queue[i].reliable then 1 else 0
    ensures Unreliables(queue[..i + 1]) == Unreliables(queue[..i]) + if queue[i].reliable then 0 else 1
  {
    assert queue[..i + 1][..i] == queue[..i];
  }
}
