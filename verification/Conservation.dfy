/**
  What becomes of a connection's packets over every interleaving of sends, flushes and incoming
  bytes of any kind. A `Sender` is a connection with the unbounded numbers behind its sequences:
  one per outstanding packet, what was ever emitted under each, and which of them were cleared.
 */
module Conservation {
  import opened Numbers
  import opened Protocol
  import opened Packet
  import opened Pipeline
  import opened Connection
  import opened Manager
  import RoundTrip

  datatype Sender = Sender(
    conn: ConnState,
    next: nat,                 // the number of the next reliable send
    numbers: seq<nat>,         // the numbers of the outstanding packets
    sent: map<nat, Bytes>,     // the wire data of every reliable packet that was emitted
    cleared: set<nat>,         // the numbers of the packets an acknowledgement removed
    nonces: seq<nat>,          // the nonces of every unreliable packet that was emitted
    resends: seq<nat>)         // the numbers of the packets that were emitted again, in that order

  datatype Event =
    | Send(data: Bytes, reliable: bool)
    | Greet(key: Key)
    | Flush(now: nat)
    | Arrive(data: Bytes, now: nat)

  function Start(isServer: bool, now: nat): Sender {
    Sender(NewState(isServer, now), 1, [], map[], {}, [], [])
  }

  function Outstanding(s: Sender): set<nat> {
    Elements(s.numbers)
  }

  // ---------- arrivals ----------

  /** Does the manager hand the header of these bytes to the reliability layer? */
  predicate CarriesHeader(data: Bytes) {
    data != [] && data[0] == RELIABLE && |data| >= GENERAL_SIZE + RELIABILITY_SIZE
  }

  function HeaderIn(data: Bytes): Header
    requires CarriesHeader(data)
  {
    DecodeHeader(data[GENERAL_SIZE..])
  }

  /** The numbers of the packets that `h` leaves outstanding. */
  function KeptNumbers(pkts: seq<Unacked>, numbers: seq<nat>, h: Header): seq<nat> {
    if pkts == [] || |pkts| != |numbers| then []
    else
      var last := |pkts| - 1;
      KeptNumbers(pkts[..last], numbers[..last], h) + if Acked(h, pkts[last].sequence) then [] else [numbers[last]]
  }

  function Kept(s: Sender, data: Bytes): seq<nat> {
    if CarriesHeader(data) then KeptNumbers(s.conn.rel.unacked, s.numbers, HeaderIn(data)) else s.numbers
  }

  function Arrived(cipher: Cipher, s: Sender, data: Bytes, now: nat): Sender {
    s.(conn := Handled(cipher, s.conn, data, now).0,
       numbers := Kept(s, data),
       cleared := s.cleared + (Outstanding(s) - Elements(Kept(s, data))))
  }

  // ---------- flushes ----------

  /** The number used for item `i` of the queue when it is reliable. */
  function NumberOf(s: Sender, i: nat): nat
    requires i <= |s.conn.queue|
  {
    s.next + Reliables(s.conn.queue[..i])
  }

  /** Does a flush put item `i` on the wire? */
  predicate Emits(cipher: Cipher, s: Sender, i: nat)
    requires i < |s.conn.queue|
  {
    WireOf(cipher, s.conn, i).Some?
  }

  function NewNumbers(cipher: Cipher, s: Sender, n: nat): seq<nat>
    requires n <= |s.conn.queue|
  {
    if n == 0 then []
    else
      NewNumbers(cipher, s, n - 1)
      + if s.conn.queue[n - 1].reliable && Emits(cipher, s, n - 1) then [NumberOf(s, n - 1)] else []
  }

  function NewlySent(cipher: Cipher, s: Sender, n: nat): map<nat, Bytes>
    requires n <= |s.conn.queue|
  {
    if n == 0 then s.sent
    else
      var before := NewlySent(cipher, s, n - 1);
      if s.conn.queue[n - 1].reliable && Emits(cipher, s, n - 1) then
        before[NumberOf(s, n - 1) := WireOf(cipher, s.conn, n - 1).value]
      else before
  }

  function NewNonces(cipher: Cipher, s: Sender, n: nat): seq<nat>
    requires n <= |s.conn.queue|
  {
    if n == 0 then []
    else
      NewNonces(cipher, s, n - 1)
      + if !s.conn.queue[n - 1].reliable && Emits(cipher, s, n - 1) then [NonceOf(s.conn, n - 1)] else []
  }

  /** The numbers behind `ResentData`. */
  function ResentNumbers(pkts: seq<Unacked>, numbers: seq<nat>, now: nat, r0: real, i: nat): seq<nat>
    requires i <= |pkts|
  {
    if i == 0 || |pkts| != |numbers| then []
    else
      ResentNumbers(pkts, numbers, now, r0, i - 1) + if IsResent(pkts, now, r0, i - 1) then [numbers[i - 1]] else []
  }

  function Flushed(cipher: Cipher, s: Sender, now: nat): Sender {
    var n := |s.conn.queue|;
    Sender(Updated(cipher, s.conn, now), NumberOf(s, n), s.numbers + NewNumbers(cipher, s, n),
           NewlySent(cipher, s, n), s.cleared, s.nonces + NewNonces(cipher, s, n),
           s.resends + ResentNumbers(s.conn.rel.unacked, s.numbers, now, s.conn.rel.rtt.rto, |s.conn.rel.unacked|))
  }

  // ---------- runs ----------

  function Step(cipher: Cipher, s: Sender, e: Event): Sender {
    match e
    case Send(data, reliable) => s.(conn := Queued(s.conn, data, reliable))
    case Greet(key) => s.(conn := WithHandshake(s.conn, key))
    case Flush(now) => Flushed(cipher, s, now)
    case Arrive(data, now) => Arrived(cipher, s, data, now)
  }

  function After(cipher: Cipher, isServer: bool, born: nat, events: seq<Event>): Sender {
    if events == [] then Start(isServer, born)
    else Step(cipher, After(cipher, isServer, born, events[..|events| - 1]), events[|events| - 1])
  }

  // ---------- the invariant ----------

  lemma IncreasingConcat(a: seq<nat>, b: seq<nat>, middle: nat)
    requires Increasing(a) && Increasing(b)
    requires (forall n | n in a :: n < middle) && (forall n | n in b :: middle <= n)
    ensures Increasing(a + b)
  {
    forall i, j | 0 <= i < j < |a + b|
      ensures (a + b)[i] < (a + b)[j]
    {
      if i < |a| <= j {
        assert a[i] in a && b[j - |a|] in b;
      }
    }
  }

  lemma NoneIncrease()
    ensures Increasing([])
  {}

  lemma IncreasingOneMore(a: seq<nat>, last: nat)
    requires Increasing(a) && (forall n | n in a :: n < last)
    ensures Increasing(a + [last])
  {
    IncreasingConcat(a, [last], last);
  }

  /** A reliable frame whose header carries the low bits of `n`. */
  predicate FramedAs(data: Bytes, n: nat) {
    CarriesHeader(data) && HeaderIn(data).sequence == Wrap16(n)
  }

  /** The packets carry the low bits of their numbers and the data that was first emitted under them. */
  ghost predicate Tagged(pkts: seq<Unacked>, numbers: seq<nat>, sent: map<nat, Bytes>) {
    && |numbers| == |pkts|
    && (forall i :: 0 <= i < |pkts| ==>
          numbers[i] in sent && pkts[i].data == sent[numbers[i]] && pkts[i].sequence == Wrap16(numbers[i]))
  }

  lemma TaggedConcat(a: seq<Unacked>, m: seq<nat>, was: map<nat, Bytes>,
                       b: seq<Unacked>, n: seq<nat>, sent: map<nat, Bytes>)
    requires Tagged(a, m, was) && Tagged(b, n, sent)
    requires forall k | k in was :: k in sent && sent[k] == was[k]
    ensures Tagged(a + b, m + n, sent)
  {}

  lemma TaggedOneMore(a: seq<Unacked>, m: seq<nat>, was: map<nat, Bytes>, pkt: Unacked, n: nat)
    requires Tagged(a, m, was) && n !in was && pkt.sequence == Wrap16(n)
    ensures Tagged(a + [pkt], m + [n], was[n := pkt.data])
  {
    hide Wrap16;
  }

  /** The books of the reliable packets balance. */
  ghost predicate Conserved(s: Sender) {
    && s.next >= 1 && s.conn.rel.nextOutgoing == Wrap16(s.next)
    && Tagged(s.conn.rel.unacked, s.numbers, s.sent)
    && Increasing(s.numbers)
    && (forall n | n in s.sent :: 1 <= n < s.next && FramedAs(s.sent[n], n))
    && s.sent.Keys == Outstanding(s) + s.cleared
    && Outstanding(s) !! s.cleared
  }

  /** Servers use odd nonces and clients even ones, each only once. */
  ghost predicate NoncesOk(s: Sender) {
    && Parity(s.conn.isServer, s.conn.txNonce)
    && Increasing(s.nonces)
    && (forall n | n in s.nonces :: n < s.conn.txNonce && Parity(s.conn.isServer, n))
  }

  predicate Parity(isServer: bool, nonce: nat) {
    nonce % 2 == if isServer then 1 else 0
  }

  // ---------- an arrival ----------

  /** Kept numbers label the remaining packets, and are those `h` does not acknowledge. */
  lemma {:induction false} KeptLabelsRemaining(pkts: seq<Unacked>, numbers: seq<nat>, sent: map<nat, Bytes>, h: Header)
    requires Tagged(pkts, numbers, sent) && Increasing(numbers)
    ensures Tagged(Remaining(pkts, h), KeptNumbers(pkts, numbers, h), sent)
    ensures Increasing(KeptNumbers(pkts, numbers, h))
    ensures forall n: nat :: n in KeptNumbers(pkts, numbers, h) <==> n in numbers && !Acked(h, Wrap16(n))
  {
    hide Acked, Wrap16;
    if pkts != [] {
      var last := |pkts| - 1;
      assert numbers == numbers[..last] + [numbers[last]] && numbers[last] in sent;
      assert pkts[last].data == sent[numbers[last]] && pkts[last].sequence == Wrap16(numbers[last]);
      PrefixIncreases(numbers);
      KeptLabelsRemaining(pkts[..last], numbers[..last], sent, h);
      hide Tagged, Increasing;
      if !Acked(h, pkts[last].sequence) {
        TaggedOneMoreSent(Remaining(pkts[..last], h), KeptNumbers(pkts[..last], numbers[..last], h), sent, pkts[last],
                          numbers[last]);
        IncreasingOneMore(KeptNumbers(pkts[..last], numbers[..last], h), numbers[last]);
      }
    }
  }

  lemma PrefixIncreases(numbers: seq<nat>)
    requires Increasing(numbers) && numbers != []
    ensures var last := |numbers| - 1;
            Increasing(numbers[..last]) && forall n | n in numbers[..last] :: n < numbers[last]
  {}

  lemma TaggedOneMoreSent(a: seq<Unacked>, m: seq<nat>, sent: map<nat, Bytes>, pkt: Unacked, n: nat)
    requires Tagged(a, m, sent) && n in sent && pkt.data == sent[n] && pkt.sequence == Wrap16(n)
    ensures Tagged(a + [pkt], m + [n], sent)
  {
    hide Wrap16;
  }

  /** What any incoming bytes do to the reliability layer. */
  lemma ArrivalHears(cipher: Cipher, c: ConnState, data: Bytes, now: nat)
    ensures var after := Handled(cipher, c, data, now).0;
            && after.rel == (if CarriesHeader(data) then Incoming(c.rel, HeaderIn(data), now) else c.rel)
            && after.txNonce == c.txNonce && after.isServer == c.isServer
            && after.queue == c.queue && after.pendingBytes == c.pendingBytes
  {
    hide Incoming, DecodeHeader, U64At;
  }

  lemma ArrivalKeepsConserved(cipher: Cipher, s: Sender, data: Bytes, now: nat)
    requires Conserved(s)
    ensures Conserved(Arrived(cipher, s, data, now))
  {
    ArrivalHears(cipher, s.conn, data, now);
    hide Acked, Remaining, KeptNumbers, Samples, SampledAll, Received, IsNew, Handled, FramedAs, HeaderIn;
    if CarriesHeader(data) {
      KeptLabelsRemaining(s.conn.rel.unacked, s.numbers, s.sent, HeaderIn(data));
    }
  }

  lemma {:induction false} SamplesKeepTimeout(e: Estimator, samples: seq<real>)
    requires MIN_RTO_MS <= e.rto <= MAX_BACKOFF_MS
    ensures MIN_RTO_MS <= SampledAll(e, samples).rto <= MAX_BACKOFF_MS
  {}

  // ---------- a flush ----------

  lemma FrameCarriesNumber(cipher: Cipher, s: Sender, i: nat)
    requires i < |s.conn.queue| && s.conn.queue[i].reliable && Emits(cipher, s, i)
    requires SequenceOf(s.conn, i) == Wrap16(NumberOf(s, i))
    ensures FramedAs(WireOf(cipher, s.conn, i).value, NumberOf(s, i))
    ensures HeaderIn(WireOf(cipher, s.conn, i).value) == HeaderOf(s.conn, i)
  {
    var box := cipher.seal(s.conn.key, s.conn.queue[i].data, SequenceOf(s.conn, i));
    RoundTrip.ReliableFrameParts(HeaderOf(s.conn, i), box.value);
    hide DecodeHeader, ReliableFrame;
  }

  lemma SequenceIsNumber(s: Sender, n: nat)
    requires s.conn.rel.nextOutgoing == Wrap16(s.next) && n <= |s.conn.queue|
    ensures SequenceOf(s.conn, n) == Wrap16(NumberOf(s, n))
  {}

  lemma {:induction false} ItemsKeepNumbers(cipher: Cipher, s: Sender, n: nat)
    requires n <= |s.conn.queue|
    ensures s.next <= NumberOf(s, n)
    ensures Increasing(NewNumbers(cipher, s, n))
    ensures forall m | m in NewNumbers(cipher, s, n) :: s.next <= m < NumberOf(s, n)
  {
    hide WireOf, Increasing;
    if n == 0 {
      NoneIncrease();
    } else {
      ItemsKeepNumbers(cipher, s, n - 1);
      CountsOfPrefix(s.conn.queue, n - 1);
      var before := NewNumbers(cipher, s, n - 1);
      assert before + [] == before;
      IncreasingOneMore(before, NumberOf(s, n - 1));
    }
  }

  /** After the first `n` items, `sent` has grown by what was emitted and forgotten nothing. */
  lemma {:induction false} ItemsKeepSent(cipher: Cipher, s: Sender, n: nat)
    requires s.conn.rel.nextOutgoing == Wrap16(s.next) && n <= |s.conn.queue|
    requires forall m | m in s.sent :: m < s.next
    ensures forall m | m in s.sent :: m in NewlySent(cipher, s, n) && NewlySent(cipher, s, n)[m] == s.sent[m]
    ensures forall m: nat :: m in NewlySent(cipher, s, n) <==> m in s.sent || m in NewNumbers(cipher, s, n)
    ensures forall m | m in NewNumbers(cipher, s, n) :: FramedAs(NewlySent(cipher, s, n)[m], m)
  {
    hide WireOf, FramedAs, NumberOf, SequenceOf, Increasing, HeaderIn, HeaderOf;
    if n > 0 {
      ItemsKeepSent(cipher, s, n - 1);
      ItemsKeepNumbers(cipher, s, n - 1);
      SequenceIsNumber(s, n - 1);
      if s.conn.queue[n - 1].reliable && Emits(cipher, s, n - 1) {
        FrameCarriesNumber(cipher, s, n - 1);
      }
    }
  }

  /** The packets the first `n` items add to the outstanding list are labelled with the new numbers. */
  lemma {:induction false} ItemsAreTagged(cipher: Cipher, s: Sender, now: nat, n: nat)
    requires s.conn.rel.nextOutgoing == Wrap16(s.next) && n <= |s.conn.queue|
    requires forall m | m in s.sent :: m < s.next
    ensures Tagged(NewlyUnacked(cipher, s.conn, now, n), NewNumbers(cipher, s, n), NewlySent(cipher, s, n))
  {
    hide WireOf, Wrap16, Tagged, NumberOf, SequenceOf;
    if n == 0 {
      NothingIsTagged(s.sent);
    } else {
      ItemsAreTagged(cipher, s, now, n - 1);
      NumberIsNew(cipher, s, n - 1);
      SequenceIsNumber(s, n - 1);
      ItemIsTagged(cipher, s, now, n - 1);
    }
  }

  lemma NothingIsTagged(sent: map<nat, Bytes>)
    ensures Tagged([], [], sent)
  {}

  lemma NumberIsNew(cipher: Cipher, s: Sender, i: nat)
    requires s.conn.rel.nextOutgoing == Wrap16(s.next) && i < |s.conn.queue|
    requires forall m | m in s.sent :: m < s.next
    ensures NumberOf(s, i) !in NewlySent(cipher, s, i)
  {
    hide FramedAs, Wrap16, Increasing, NumberOf, NewlySent, NewNumbers;
    ItemsKeepNumbers(cipher, s, i);
    ItemsKeepSent(cipher, s, i);
  }

  lemma ItemIsTagged(cipher: Cipher, s: Sender, now: nat, i: nat)
    requires i < |s.conn.queue| && SequenceOf(s.conn, i) == Wrap16(NumberOf(s, i))
    requires NumberOf(s, i) !in NewlySent(cipher, s, i)
    requires Tagged(NewlyUnacked(cipher, s.conn, now, i), NewNumbers(cipher, s, i), NewlySent(cipher, s, i))
    ensures Tagged(NewlyUnacked(cipher, s.conn, now, i + 1), NewNumbers(cipher, s, i + 1), NewlySent(cipher, s, i + 1))
  {
    hide WireOf, Wrap16, Tagged, NumberOf, SequenceOf;
    var pkts, numbers := NewlyUnacked(cipher, s.conn, now, i), NewNumbers(cipher, s, i);
    if s.conn.queue[i].reliable && Emits(cipher, s, i) {
      var pkt := Unacked(SequenceOf(s.conn, i), now, WireOf(cipher, s.conn, i).value, 0);
      TaggedOneMore(pkts, numbers, NewlySent(cipher, s, i), pkt, NumberOf(s, i));
    } else {
      assert NewlyUnacked(cipher, s.conn, now, i + 1) == pkts && NewNumbers(cipher, s, i + 1) == numbers;
    }
  }

  lemma PassKeepsLabels(r: Reliability, now: nat, numbers: seq<nat>, sent: map<nat, Bytes>)
    requires Tagged(r.unacked, numbers, sent)
    ensures Tagged(Retransmitted(r, now).unacked, numbers, sent)
  {
    hide IsResent, Resends, Backoff;
  }

  lemma BooksOfMore(s: Sender, added: seq<nat>, sent: map<nat, Bytes>)
    requires s.sent.Keys == Outstanding(s) + s.cleared && Outstanding(s) !! s.cleared
    requires (forall m | m in s.sent :: m < s.next) && (forall m | m in added :: s.next <= m)
    requires forall m: nat :: m in sent <==> m in s.sent || m in added
    ensures var after := Elements(s.numbers + added);
            sent.Keys == after + s.cleared && after !! s.cleared
  {
    var after := Elements(s.numbers + added);
    assert forall m :: m in after <==> m in Outstanding(s) || m in added;
  }

  /** The outstanding packets after a flush are labelled with the outstanding numbers, in order. */
  lemma FlushLabels(cipher: Cipher, s: Sender, now: nat)
    requires Conserved(s)
    ensures var after := Flushed(cipher, s, now);
            Tagged(after.conn.rel.unacked, after.numbers, after.sent) && Increasing(after.numbers)
  {
    var n := |s.conn.queue|;
    var passed, newer := Retransmitted(s.conn.rel, now).unacked, NewlyUnacked(cipher, s.conn, now, n);
    ItemsKeepNumbers(cipher, s, n);
    ItemsKeepSent(cipher, s, n);
    ItemsAreTagged(cipher, s, now, n);
    PassKeepsLabels(s.conn.rel, now, s.numbers, s.sent);
    hide Tagged, Increasing, NewNumbers, NewlySent, NewlyUnacked, Retransmitted, FramedAs, NumberOf, SequenceOf;
    TaggedConcat(passed, s.numbers, s.sent, newer, NewNumbers(cipher, s, n), NewlySent(cipher, s, n));
    IncreasingConcat(s.numbers, NewNumbers(cipher, s, n), s.next);
  }

  lemma FlushKeepsConserved(cipher: Cipher, s: Sender, now: nat)
    requires Conserved(s)
    ensures Conserved(Flushed(cipher, s, now))
  {
    var n := |s.conn.queue|;
    hide Tagged, Increasing, NewNumbers, NewlySent, NewlyUnacked, Retransmitted, FramedAs, NumberOf, SequenceOf,
      Wrap16, NewNonces, NonceOf;
    FlushLabels(cipher, s, now);
    SequenceIsNumber(s, n);
    ItemsKeepNumbers(cipher, s, n);
    ItemsKeepSent(cipher, s, n);
    BooksOfMore(s, NewNumbers(cipher, s, n), NewlySent(cipher, s, n));
  }

  lemma ParityKept(isServer: bool, nonce: nat, k: nat)
    requires Parity(isServer, nonce)
    ensures Parity(isServer, nonce + 2 * k)
  {}

  lemma NonceSteps(c: ConnState, i: nat)
    requires Parity(c.isServer, c.txNonce) && i <= |c.queue|
    ensures c.txNonce <= NonceOf(c, i) && Parity(c.isServer, NonceOf(c, i))
    ensures i < |c.queue| ==> NonceOf(c, i + 1) == NonceOf(c, i) + if c.queue[i].reliable then 0 else 2
  {
    ParityKept(c.isServer, c.txNonce, Unreliables(c.queue[..i]));
    if i < |c.queue| {
      CountsOfPrefix(c.queue, i);
    }
  }

  /** Each unreliable item takes the next nonce of the connection's parity. */
  lemma {:induction false} ItemsKeepNonces(cipher: Cipher, s: Sender, n: nat)
    requires Parity(s.conn.isServer, s.conn.txNonce) && n <= |s.conn.queue|
    ensures s.conn.txNonce <= NonceOf(s.conn, n) && Parity(s.conn.isServer, NonceOf(s.conn, n))
    ensures Increasing(NewNonces(cipher, s, n))
    ensures forall m | m in NewNonces(cipher, s, n) ::
              s.conn.txNonce <= m < NonceOf(s.conn, n) && Parity(s.conn.isServer, m)
  {
    hide WireOf, Increasing, Parity, NonceOf;
    NonceSteps(s.conn, n);
    if n == 0 {
      NoneIncrease();
    } else {
      ItemsKeepNonces(cipher, s, n - 1);
      NonceSteps(s.conn, n - 1);
      var before := NewNonces(cipher, s, n - 1);
      assert before + [] == before;
      IncreasingOneMore(before, NonceOf(s.conn, n - 1));
    }
  }

  // ---------- every step ----------

  lemma StepKeepsConserved(cipher: Cipher, s: Sender, e: Event)
    requires Conserved(s)
    ensures Conserved(Step(cipher, s, e))
  {
    hide FramedAs, HeaderIn;
    match e
    case Send(_, _) =>
    case Greet(_) =>
    case Flush(now) => FlushKeepsConserved(cipher, s, now);
    case Arrive(data, now) => ArrivalKeepsConserved(cipher, s, data, now);
  }

  lemma StepKeepsNonces(cipher: Cipher, s: Sender, e: Event)
    requires NoncesOk(s)
    ensures NoncesOk(Step(cipher, s, e))
  {
    match e
    case Send(_, _) =>
    case Greet(_) =>
    case Flush(now) =>
      var n := |s.conn.queue|;
      ItemsKeepNonces(cipher, s, n);
      hide NonceOf, NewNonces, Retransmitted, SequenceOf, NewlyUnacked;
      IncreasingConcat(s.nonces, NewNonces(cipher, s, n), s.conn.txNonce);
    case Arrive(data, now) =>
      ArrivalHears(cipher, s.conn, data, now);
      hide Handled;
  }

  lemma StepKeepsSound(cipher: Cipher, s: Sender, e: Event)
    requires Sound(s.conn)
    ensures Sound(Step(cipher, s, e).conn)
  {
    match e
    case Send(data, reliable) => QueueingKeepsAccount(s.conn, data, reliable);
    case Greet(key) => QueueingKeepsAccount(s.conn, Handshake(key), true);
    case Flush(now) =>
      var r := s.conn.rel;
      BackoffStep(r.rtt.rto, Resends(r.unacked, now, r.rtt.rto, |r.unacked|));
      hide Resends, AfterPass, Backoff, SequenceOf, NonceOf, NewlyUnacked;
    case Arrive(data, now) =>
      ArrivalHears(cipher, s.conn, data, now);
      hide Handled, Remaining, Received, IsNew;
      if CarriesHeader(data) {
        SamplesKeepTimeout(s.conn.rel.rtt, Samples(s.conn.rel.unacked, HeaderIn(data), now));
      }
  }

  lemma {:induction false} RunKeepsAll(cipher: Cipher, isServer: bool, born: nat, events: seq<Event>)
    ensures var s := After(cipher, isServer, born, events);
            Conserved(s) && NoncesOk(s) && Sound(s.conn) && s.conn.isServer == isServer
  {
    if events != [] {
      var before, e := events[..|events| - 1], events[|events| - 1];
      RunKeepsAll(cipher, isServer, born, before);
      var s := After(cipher, isServer, born, before);
      hide Conserved, NoncesOk, Sound;
      StepKeepsConserved(cipher, s, e);
      StepKeepsNonces(cipher, s, e);
      StepKeepsSound(cipher, s, e);
      assert Step(cipher, s, e).conn.isServer == s.conn.isServer by {
        if e.Arrive? {
          ArrivalHears(cipher, s.conn, e.data, e.now);
        }
      }
    }
  }

  // ---------- main results ----------

  /**
    The reliable packets emitted so far split exactly into outstanding and cleared; the outstanding
    ones are in the order they were sent and hold the bytes they were first sent with.
   */
  lemma SentIsOutstandingOrCleared(cipher: Cipher, isServer: bool, born: nat, events: seq<Event>)
    ensures var s := After(cipher, isServer, born, events);
            && s.sent.Keys == Outstanding(s) + s.cleared && Outstanding(s) !! s.cleared
            && Increasing(s.numbers) && |s.numbers| == |s.conn.rel.unacked|
            && (forall i :: 0 <= i < |s.numbers| ==>
                  s.numbers[i] in s.sent && s.conn.rel.unacked[i].data == s.sent[s.numbers[i]])
  {
    RunKeepsAll(cipher, isServer, born, events);
  }

  lemma DistinctWithinSpan(pkts: seq<Unacked>, numbers: seq<nat>, sent: map<nat, Bytes>, i: nat, j: nat)
    requires Tagged(pkts, numbers, sent) && Increasing(numbers)
    requires i < j < |numbers| && numbers[|numbers| - 1] < numbers[0] + 0x1_0000
    ensures j < |pkts| && pkts[i].sequence != pkts[j].sequence
  {
    assert numbers[0] <= numbers[i] && numbers[j] <= numbers[|numbers| - 1];
    assert Wrap16(numbers[i]) != Wrap16(numbers[j]);
  }

  /** While the outstanding numbers span less than 2^16, no two outstanding packets share a sequence. */
  lemma SequencesAreDistinct(cipher: Cipher, isServer: bool, born: nat, events: seq<Event>, i: nat, j: nat)
    requires var numbers := After(cipher, isServer, born, events).numbers;
             i < j < |numbers| && numbers[|numbers| - 1] < numbers[0] + 0x1_0000
    ensures var unacked := After(cipher, isServer, born, events).conn.rel.unacked;
            j < |unacked| && unacked[i].sequence != unacked[j].sequence
  {
    RunKeepsAll(cipher, isServer, born, events);
    var s := After(cipher, isServer, born, events);
    hide After, NoncesOk, Sound, Tagged, Increasing, FramedAs;
    DistinctWithinSpan(s.conn.rel.unacked, s.numbers, s.sent, i, j);
  }

  lemma StepRewritesNothing(cipher: Cipher, s: Sender, e: Event)
    requires Conserved(s)
    ensures forall n | n in s.sent :: n in Step(cipher, s, e).sent && Step(cipher, s, e).sent[n] == s.sent[n]
  {
    if e.Flush? {
      ItemsKeepSent(cipher, s, |s.conn.queue|);
    }
  }

  /** What was emitted under a number is never changed, whatever happens later. */
  lemma {:induction false} SentIsNeverRewritten(cipher: Cipher, isServer: bool, born: nat, events: seq<Event>,
                                                k: nat, n: nat)
    requires k <= |events| && n in After(cipher, isServer, born, events[..k]).sent
    ensures n in After(cipher, isServer, born, events).sent
    ensures After(cipher, isServer, born, events).sent[n] == After(cipher, isServer, born, events[..k]).sent[n]
    decreases |events|
  {
    if k < |events| {
      var before, e := events[..|events| - 1], events[|events| - 1];
      assert before[..k] == events[..k];
      SentIsNeverRewritten(cipher, isServer, born, before, k, n);
      RunKeepsAll(cipher, isServer, born, before);
      StepRewritesNothing(cipher, After(cipher, isServer, born, before), e);
      hide Step, Conserved, NoncesOk, Sound;
    } else {
      assert events[..k] == events;
    }
  }

  /** A flush re-sends outstanding packets only, each byte for byte as it was first sent. */
  lemma {:induction false} ResendsRepeat(s: Sender, now: nat, i: nat)
    requires Conserved(s) && i <= |s.conn.rel.unacked|
    ensures forall data | data in ResentData(s.conn.rel.unacked, now, s.conn.rel.rtt.rto, i) ::
              exists n :: n in s.numbers && n in s.sent && s.sent[n] == data
  {
    hide IsResent, FramedAs, HeaderIn;
    if i > 0 {
      ResendsRepeat(s, now, i - 1);
      var n := s.numbers[i - 1];
      assert n in s.numbers && s.sent[n] == s.conn.rel.unacked[i - 1].data;
    }
  }

  // ---------- Karn's rule over runs ----------

  function Times(s: seq<nat>, n: nat): nat {
    multiset(s)[n]
  }

  /** Each packet counts its own resends, and only packets that were sent are resent. */
  ghost predicate Counted(pkts: seq<Unacked>, numbers: seq<nat>, resends: seq<nat>) {
    && |numbers| == |pkts|
    && (forall i :: 0 <= i < |pkts| ==> pkts[i].retries == Times(resends, numbers[i]))
  }

  ghost predicate RetriesOk(s: Sender) {
    Counted(s.conn.rel.unacked, s.numbers, s.resends) && forall n | n in s.resends :: n < s.next
  }

  lemma {:induction false} KeptCounts(pkts: seq<Unacked>, numbers: seq<nat>, resends: seq<nat>, h: Header)
    requires Counted(pkts, numbers, resends)
    ensures Counted(Remaining(pkts, h), KeptNumbers(pkts, numbers, h), resends)
  {
    hide Acked, Times;
    if pkts != [] {
      var last := |pkts| - 1;
      KeptCounts(pkts[..last], numbers[..last], resends, h);
    }
  }

  lemma TimesOfOneMore(a: seq<nat>, last: nat, n: nat)
    ensures Times(a + [last], n) == Times(a, n) + if n == last then 1 else 0
    ensures Times(a + [], n) == Times(a, n)
  {
    assert multiset(a + [last]) == multiset(a) + multiset{last};
    assert a + [] == a;
  }

  /** One pass resends each outstanding number at most once: exactly when its packet is resent. */
  lemma {:induction false} ResentOnce(pkts: seq<Unacked>, numbers: seq<nat>, now: nat, r0: real, i: nat, k: nat)
    requires |numbers| == |pkts| && Increasing(numbers) && i <= |pkts| && k < |pkts|
    ensures Times(ResentNumbers(pkts, numbers, now, r0, i), numbers[k]) ==
            if k < i && IsResent(pkts, now, r0, k) then 1 else 0
  {
    hide IsResent, Times;
    if i == 0 {
      TimesOfConcat([], [], numbers[k]);
    } else {
      ResentOnce(pkts, numbers, now, r0, i - 1, k);
      assert numbers[k] == numbers[i - 1] <==> k == i - 1;
      hide Increasing;
      TimesOfOneMore(ResentNumbers(pkts, numbers, now, r0, i - 1), numbers[i - 1], numbers[k]);
    }
  }

  lemma {:induction false} ResentAreOutstanding(pkts: seq<Unacked>, numbers: seq<nat>, now: nat, r0: real, i: nat)
    requires |numbers| == |pkts| && i <= |pkts|
    ensures forall n | n in ResentNumbers(pkts, numbers, now, r0, i) :: n in numbers
  {
    hide IsResent;
    if i > 0 {
      ResentAreOutstanding(pkts, numbers, now, r0, i - 1);
    }
  }

  /** The data of a pass is what was sent under the numbers of the pass, one by one. */
  lemma {:induction false} ResentDataByNumber(pkts: seq<Unacked>, numbers: seq<nat>, sent: map<nat, Bytes>, now: nat,
                                              r0: real, i: nat)
    requires Tagged(pkts, numbers, sent) && i <= |pkts|
    ensures var ns := ResentNumbers(pkts, numbers, now, r0, i);
            var data := ResentData(pkts, now, r0, i);
            |ns| == |data| && forall j :: 0 <= j < |ns| ==> ns[j] in sent && data[j] == sent[ns[j]]
  {
    hide IsResent;
    if i > 0 {
      ResentDataByNumber(pkts, numbers, sent, now, r0, i - 1);
    }
  }

  lemma TimesOfConcat(a: seq<nat>, b: seq<nat>, n: nat)
    ensures Times(a + b, n) == Times(a, n) + Times(b, n)
    ensures n !in a ==> Times(a, n) == 0
    ensures Times(a, n) == 0 <==> n !in a
  {
    assert multiset(a + b) == multiset(a) + multiset(b);
  }

  lemma {:induction false} NewlyCounted(cipher: Cipher, s: Sender, now: nat, n: nat)
    requires n <= |s.conn.queue|
    ensures |NewlyUnacked(cipher, s.conn, now, n)| == |NewNumbers(cipher, s, n)|
    ensures forall i :: 0 <= i < |NewlyUnacked(cipher, s.conn, now, n)| ==>
              NewlyUnacked(cipher, s.conn, now, n)[i].retries == 0
  {
    hide WireOf, SequenceOf, NumberOf;
    if n > 0 {
      NewlyCounted(cipher, s, now, n - 1);
    }
  }

  lemma PassCounts(r: Reliability, now: nat, numbers: seq<nat>, resends: seq<nat>)
    requires Counted(r.unacked, numbers, resends) && Increasing(numbers)
    ensures var again := ResentNumbers(r.unacked, numbers, now, r.rtt.rto, |r.unacked|);
            Counted(Retransmitted(r, now).unacked, numbers, resends + again)
  {
    var again := ResentNumbers(r.unacked, numbers, now, r.rtt.rto, |r.unacked|);
    var after := Retransmitted(r, now).unacked;
    hide Times, ResentNumbers, Increasing;
    forall i | 0 <= i < |after|
      ensures after[i].retries == Times(resends + again, numbers[i])
    {
      hide IsResent;
      ResentOnce(r.unacked, numbers, now, r.rtt.rto, |r.unacked|, i);
      TimesOfConcat(resends, again, numbers[i]);
    }
  }

  lemma FlushKeepsRetries(cipher: Cipher, s: Sender, now: nat)
    requires Conserved(s) && RetriesOk(s)
    ensures RetriesOk(Flushed(cipher, s, now))
  {
    var n, r := |s.conn.queue|, s.conn.rel;
    var again := ResentNumbers(r.unacked, s.numbers, now, r.rtt.rto, |r.unacked|);
    hide Conserved, ResentNumbers, Retransmitted, Times, Counted, NumberOf, SequenceOf, NonceOf, NewlyUnacked,
      NewNumbers, NewlySent, NewNonces, Increasing;
    OutstandingBeforeNext(s);
    ResentAreOutstanding(r.unacked, s.numbers, now, r.rtt.rto, |r.unacked|);
    PassCounts(r, now, s.numbers, s.resends);
    ItemsCounted(cipher, s, now, n, s.resends + again);
    CountedConcat(Retransmitted(r, now).unacked, s.numbers, NewlyUnacked(cipher, s.conn, now, n),
                  NewNumbers(cipher, s, n), s.resends + again);
  }

  lemma ItemsCounted(cipher: Cipher, s: Sender, now: nat, n: nat, resends: seq<nat>)
    requires n <= |s.conn.queue| && forall m | m in resends :: m < s.next
    ensures Counted(NewlyUnacked(cipher, s.conn, now, n), NewNumbers(cipher, s, n), resends)
    ensures s.next <= NumberOf(s, n)
  {
    hide NewlyUnacked, NewNumbers, NumberOf, Increasing, Counted;
    NewlyCounted(cipher, s, now, n);
    ItemsKeepNumbers(cipher, s, n);
    CountedFromZero(NewlyUnacked(cipher, s.conn, now, n), NewNumbers(cipher, s, n), resends);
  }

  lemma OutstandingBeforeNext(s: Sender)
    requires Conserved(s)
    ensures Increasing(s.numbers) && forall n | n in s.numbers :: n < s.next
  {
    hide FramedAs, Tagged;
    assert forall n | n in s.numbers :: n in Outstanding(s);
  }

  lemma CountedFromZero(pkts: seq<Unacked>, numbers: seq<nat>, resends: seq<nat>)
    requires |pkts| == |numbers| && (forall i :: 0 <= i < |pkts| ==> pkts[i].retries == 0)
    requires forall n | n in numbers :: n !in resends
    ensures Counted(pkts, numbers, resends)
  {
    forall i | 0 <= i < |pkts|
      ensures Times(resends, numbers[i]) == 0
    {
      assert numbers[i] in numbers;
    }
  }

  lemma CountedConcat(a: seq<Unacked>, m: seq<nat>, b: seq<Unacked>, n: seq<nat>, resends: seq<nat>)
    requires Counted(a, m, resends) && Counted(b, n, resends)
    ensures Counted(a + b, m + n, resends)
  {
    hide Times;
  }

  lemma StepKeepsRetries(cipher: Cipher, s: Sender, e: Event)
    requires Conserved(s) && RetriesOk(s)
    ensures RetriesOk(Step(cipher, s, e))
  {
    hide Conserved, Counted;
    match e
    case Send(_, _) =>
    case Greet(_) =>
    case Flush(now) => FlushKeepsRetries(cipher, s, now);
    case Arrive(data, now) =>
      ArrivalHears(cipher, s.conn, data, now);
      hide Handled, HeaderIn, Remaining, KeptNumbers, Samples, SampledAll, Received, IsNew;
      if CarriesHeader(data) {
        KeptCounts(s.conn.rel.unacked, s.numbers, s.resends, HeaderIn(data));
      }
  }

  /** In every run an outstanding packet's `retries` is the number of times it was emitted again. */
  lemma {:induction false} RetriesCountResends(cipher: Cipher, isServer: bool, born: nat, events: seq<Event>)
    ensures RetriesOk(After(cipher, isServer, born, events))
  {
    if events != [] {
      var before, e := events[..|events| - 1], events[|events| - 1];
      RetriesCountResends(cipher, isServer, born, before);
      RunKeepsAll(cipher, isServer, born, before);
      hide RetriesOk, Conserved, Step, Sound, NoncesOk;
      StepKeepsRetries(cipher, After(cipher, isServer, born, before), e);
    }
  }

  /** The samples of the acknowledged packets that were never emitted again. */
  function FirstSendSamples(pkts: seq<Unacked>, numbers: seq<nat>, resends: seq<nat>, h: Header, now: nat): seq<real> {
    if pkts == [] || |pkts| != |numbers| then []
    else
      var last := |pkts| - 1;
      FirstSendSamples(pkts[..last], numbers[..last], resends, h, now)
      + if Acked(h, pkts[last].sequence) && numbers[last] !in resends then [Elapsed(now, pkts[last].timeSent)] else []
  }

  lemma {:induction false} SamplesAreFirstSends(pkts: seq<Unacked>, numbers: seq<nat>, resends: seq<nat>, h: Header,
                                                now: nat)
    requires Counted(pkts, numbers, resends)
    ensures Samples(pkts, h, now) == FirstSendSamples(pkts, numbers, resends, h, now)
  {
    hide Acked, Elapsed, Times;
    if pkts != [] {
      var last := |pkts| - 1;
      SamplesAreFirstSends(pkts[..last], numbers[..last], resends, h, now);
      TimesOfConcat(resends, [], numbers[last]);
    }
  }

  /** Section 3 of RFC 6298 over runs: only packets emitted exactly once ever give a sample. */
  lemma SamplesComeFromFirstSends(cipher: Cipher, isServer: bool, born: nat, events: seq<Event>, h: Header, now: nat)
    ensures var s := After(cipher, isServer, born, events);
            Samples(s.conn.rel.unacked, h, now) ==
            FirstSendSamples(s.conn.rel.unacked, s.numbers, s.resends, h, now)
  {
    RetriesCountResends(cipher, isServer, born, events);
    var s := After(cipher, isServer, born, events);
    hide After, Samples, FirstSendSamples, Counted;
    SamplesAreFirstSends(s.conn.rel.unacked, s.numbers, s.resends, h, now);
  }

  /** A packet that was cleared stays cleared and is never emitted again. */
  lemma StepKeepsCleared(cipher: Cipher, s: Sender, e: Event, n: nat)
    requires Conserved(s) && n in s.cleared
    ensures n in Step(cipher, s, e).cleared
    ensures Times(Step(cipher, s, e).resends, n) == Times(s.resends, n)
  {
    hide Times, Handled, Updated, ResentNumbers, NewNumbers, NewlySent, NewNonces, NumberOf, Conserved, Kept;
    if e.Flush? {
      ClearedIsNotResent(s, e.now, n);
    }
  }

  lemma ClearedIsNotResent(s: Sender, now: nat, n: nat)
    requires Conserved(s) && n in s.cleared
    ensures var r := s.conn.rel;
            var again := ResentNumbers(r.unacked, s.numbers, now, r.rtt.rto, |r.unacked|);
            Times(s.resends + again, n) == Times(s.resends, n)
  {
    var r := s.conn.rel;
    var again := ResentNumbers(r.unacked, s.numbers, now, r.rtt.rto, |r.unacked|);
    assert n !in Outstanding(s);
    hide Conserved, ResentNumbers, Times;
    ResentAreOutstanding(r.unacked, s.numbers, now, r.rtt.rto, |r.unacked|);
    TimesOfConcat(s.resends, again, n);
    TimesOfConcat(again, [], n);
  }

  /** In no continuation is a cleared packet outstanding or emitted again. */
  lemma {:induction false} ClearedForGood(cipher: Cipher, isServer: bool, born: nat, events: seq<Event>,
                                          more: seq<Event>, n: nat)
    requires n in After(cipher, isServer, born, events).cleared
    ensures var before, after := After(cipher, isServer, born, events), After(cipher, isServer, born, events + more);
            n in after.cleared && n !in Outstanding(after) && Times(after.resends, n) == Times(before.resends, n)
    decreases |more|
  {
    RunKeepsAll(cipher, isServer, born, events + more);
    hide Step, Sound, NoncesOk, Times, FramedAs, Tagged, Increasing;
    if more == [] {
      assert events + more == events;
    } else {
      var before := events + more[..|more| - 1];
      ClearedForGood(cipher, isServer, born, events, more[..|more| - 1], n);
      RunKeepsAll(cipher, isServer, born, before);
      assert (events + more)[..|events + more| - 1] == before;
      StepKeepsCleared(cipher, After(cipher, isServer, born, before), more[|more| - 1], n);
    }
  }

  /** Unreliable packets never share a nonce, and the parity of the nonce tells the side. */
  lemma NoncesNeverRepeat(cipher: Cipher, isServer: bool, born: nat, events: seq<Event>)
    ensures var s := After(cipher, isServer, born, events);
            && Increasing(s.nonces)
            && (forall n | n in s.nonces :: n < s.conn.txNonce && (n % 2 == 1 <==> isServer))
  {
    RunKeepsAll(cipher, isServer, born, events);
  }

  /** The queue is accounted for and bounded, and the timeout within its bounds, in every reachable state. */
  lemma QueueAndTimeoutStayBounded(cipher: Cipher, isServer: bool, born: nat, events: seq<Event>)
    ensures var c := After(cipher, isServer, born, events).conn;
            && c.pendingBytes == TotalBytes(c.queue) <= 1024 * 1024
            && 30.0 <= c.rel.rtt.rto <= 2000.0
  {
    RunKeepsAll(cipher, isServer, born, events);
  }
}
