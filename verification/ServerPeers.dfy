/**
  Who is connected over whole runs of the server: exactly the peers whose last packet is recent and
  not a disconnect, and each of them has a session.
 */
module ServerPeers {
  import opened Numbers
  import opened Protocol
  import opened Pipeline
  import opened Connection
  import opened Manager
  import opened World
  import opened ServerLoop
  import opened ServerRun

  /** The last packet of `a` in a poll. */
  function LastFrom(packets: seq<FromWire>, a: Addr): Option<Bytes> {
    if packets == [] then None
    else if packets[|packets| - 1].addr == a then Some(packets[|packets| - 1].data)
    else LastFrom(packets[..|packets| - 1], a)
  }

  datatype Sign = Sign(at: nat, data: Bytes)

  /** The last packet of `a` in a run and when it came. */
  function LastSign(rounds: seq<Round>, a: Addr): Option<Sign> {
    if rounds == [] then None
    else
      var last := rounds[|rounds| - 1];
      if LastFrom(last.packets, a).Some? then Some(Sign(last.now, LastFrom(last.packets, a).value))
      else LastSign(rounds[..|rounds| - 1], a)
  }

  predicate Parts(data: Bytes) {
    data != [] && data[0] == 2
  }

  /** Time does not run backwards. */
  predicate Forward(rounds: seq<Round>) {
    forall i, j :: 0 <= i < j < |rounds| ==> rounds[i].now <= rounds[j].now
  }

  // ---------- one poll ----------

  /** After a packet its sender is known, unless it parts, and was heard now; nobody else is touched. */
  lemma OnePacket(cipher: Cipher, before: Polled, p: FromWire, now: nat, a: Addr)
    requires before.seen.Keys == before.all.Keys
    ensures var after := PolledOne(cipher, before, p, now);
            && after.seen.Keys == after.all.Keys
            && (a == p.addr ==> (a in after.all <==> !Parts(p.data)) && (a in after.all ==> after.seen[a] == now))
            && (a != p.addr ==>
                  (a in after.all <==> a in before.all) && (a in after.all ==> after.seen[a] == before.seen[a]))
  {
    DisconnectForgetsExactly(cipher, before.all, p.addr, p.data, now, p.key);
    if a != p.addr {
      PacketConcernsItsSender(cipher, before.all, p.addr, p.data, now, p.key, a);
    }
    hide Handled, Opened, InputOf;
  }

  lemma {:induction false} OnePoll(cipher: Cipher, start: Polled, packets: seq<FromWire>, now: nat, a: Addr)
    requires start.seen.Keys == start.all.Keys
    ensures var after, last := AfterPoll(cipher, start, packets, now), LastFrom(packets, a);
            && after.seen.Keys == after.all.Keys
            && (last.Some? ==> (a in after.all <==> !Parts(last.value)) && (a in after.all ==> after.seen[a] == now))
            && (last.None? ==>
                  (a in after.all <==> a in start.all) && (a in after.all ==> after.seen[a] == start.seen[a]))
  {
    hide PolledOne, Parts;
    if packets != [] {
      OnePoll(cipher, start, packets[..|packets| - 1], now, a);
      OnePacket(cipher, AfterPoll(cipher, start, packets[..|packets| - 1], now), packets[|packets| - 1], now, a);
    }
  }

  // ---------- one round ----------

  lemma Survivors(polled: Polled, turns: seq<S.Turn>, hash: WorldState -> nat, now: nat, timeout: nat, a: Addr)
    requires polled.seen.Keys == polled.all.Keys && turns != [] && InRange(T.WorldAt(turns))
    ensures var last := LastFlushed(polled, turns, hash, now, timeout);
            && (a in last <==> a in polled.all && Elapsed(now, polled.seen[a]) < timeout as real)
            && (a in SeenAfter(polled, now, timeout) <==> a in last)
            && (a in last ==> SeenAfter(polled, now, timeout)[a] == polled.seen[a])
  {
    hide WithSnapshot, InRange, T.PlayedIn, T.WorldAt, Elapsed;
  }

  lemma OneRound(cipher: Cipher, h: History, r: Round, hash: WorldState -> nat, timeout: nat, a: Addr)
    requires h.seen.Keys == h.all.Keys && 10 * |h.turns| + 20 < 0x8000_0000
    ensures var polled, after := PolledIn(cipher, h, r), Continued(cipher, h, r, hash, timeout);
            && polled.seen.Keys == polled.all.Keys
            && (a in after.seen <==> a in after.all)
            && (a in after.all <==> a in polled.all && Elapsed(r.now, polled.seen[a]) < timeout as real)
            && (a in after.all ==> after.seen[a] == polled.seen[a])
  {
    hide AfterPoll, SeenAfter, LastFlushed, TurnOf, Updated, InRange, T.WorldAt, RoomToMove, Elapsed;
    var polled := PolledIn(cipher, h, r);
    OnePoll(cipher, Polled(h.all, h.seen, []), r.packets, r.now, a);
    RoomForAnother(h.turns + [TurnOf(polled, r.now, timeout)]);
    Survivors(polled, h.turns + [TurnOf(polled, r.now, timeout)], hash, r.now, timeout, a);
  }

  // ---------- whole runs ----------

  /** What the last packet of `a` says about it at the end of a run. */
  predicate IsLive(rounds: seq<Round>, a: Addr, timeout: nat)
    requires rounds != []
  {
    var sign := LastSign(rounds, a);
    sign.Some? && !Parts(sign.value.data) && rounds[|rounds| - 1].now < sign.value.at + timeout
  }

  /**
    In every run the server has a connection for exactly the peers whose last packet came less than
    the timeout ago and was not a disconnect, and knows when that was.
   */
  lemma {:induction false} ConnectedExactly(cipher: Cipher, rounds: seq<Round>, hash: WorldState -> nat, timeout: nat,
                                            a: Addr)
    requires rounds != [] && Forward(rounds) && 10 * |rounds| + 20 < 0x8000_0000
    ensures var h := HistoryOf(cipher, rounds, hash, timeout);
            && (a in h.all <==> IsLive(rounds, a, timeout))
            && (a in h.all ==> a in h.seen && h.seen[a] == LastSign(rounds, a).value.at)
  {
    hide HistoryOf, Continued, PolledIn, IsLive, LastFrom, LastSign, Elapsed, Forward, Parts;
    var before, last := rounds[..|rounds| - 1], rounds[|rounds| - 1];
    var h := HistoryOf(cipher, before, hash, timeout);
    KeysAgree(cipher, before, hash, timeout);
    HistoryOneMore(cipher, rounds, hash, timeout);
    OneRound(cipher, h, last, hash, timeout, a);
    PollOf(cipher, h, last, a);
    LiveOneMore(rounds, a, timeout);
    if before == [] {
      NothingYet(cipher, hash, timeout);
    } else {
      ForwardBefore(rounds);
      ConnectedExactly(cipher, before, hash, timeout, a);
    }
  }

  lemma ForwardBefore(rounds: seq<Round>)
    requires rounds != [] && Forward(rounds)
    ensures Forward(rounds[..|rounds| - 1])
  {}

  /** One more round renews the sign of a peer, or lets the old one age. */
  lemma LiveOneMore(rounds: seq<Round>, a: Addr, timeout: nat)
    requires rounds != [] && Forward(rounds)
    ensures var before, last := rounds[..|rounds| - 1], rounds[|rounds| - 1];
            var fresher := LastFrom(last.packets, a);
            if fresher.Some? then
              && LastSign(rounds, a) == Some(Sign(last.now, fresher.value))
              && (IsLive(rounds, a, timeout) <==>
                    !Parts(fresher.value) && Elapsed(last.now, last.now) < timeout as real)
            else if before == [] then
              !IsLive(rounds, a, timeout)
            else
              && LastSign(rounds, a) == LastSign(before, a)
              && (IsLive(rounds, a, timeout) <==>
                    IsLive(before, a, timeout)
                    && Elapsed(last.now, LastSign(before, a).value.at) < timeout as real)
  {
    hide LastFrom, Parts;
    var before := rounds[..|rounds| - 1];
    if before != [] && LastSign(before, a).Some? {
      SignsComeBefore(before, a);
      assert before[|before| - 1] == rounds[|before| - 1];
    }
  }

  lemma NothingYet(cipher: Cipher, hash: WorldState -> nat, timeout: nat)
    ensures HistoryOf(cipher, [], hash, timeout) == History(map[], map[], [])
  {}

  lemma PollOf(cipher: Cipher, h: History, r: Round, a: Addr)
    requires h.seen.Keys == h.all.Keys
    ensures var polled, last := PolledIn(cipher, h, r), LastFrom(r.packets, a);
            && polled.seen.Keys == polled.all.Keys
            && (last.Some? ==>
                  (a in polled.all <==> !Parts(last.value)) && (a in polled.all ==> polled.seen[a] == r.now))
            && (last.None? ==> (a in polled.all <==> a in h.all) && (a in polled.all ==> polled.seen[a] == h.seen[a]))
  {
    hide Parts, AfterPoll;
    OnePoll(cipher, Polled(h.all, h.seen, []), r.packets, r.now, a);
  }

  lemma HistoryOneMore(cipher: Cipher, rounds: seq<Round>, hash: WorldState -> nat, timeout: nat)
    requires rounds != []
    ensures HistoryOf(cipher, rounds, hash, timeout) ==
            Continued(cipher, HistoryOf(cipher, rounds[..|rounds| - 1], hash, timeout), rounds[|rounds| - 1], hash,
                      timeout)
  {
    hide Continued;
  }

  lemma {:induction false} SignsComeBefore(rounds: seq<Round>, a: Addr)
    requires Forward(rounds) && LastSign(rounds, a).Some?
    ensures rounds != [] && LastSign(rounds, a).value.at <= rounds[|rounds| - 1].now
  {
    if LastFrom(rounds[|rounds| - 1].packets, a).None? {
      SignsComeBefore(rounds[..|rounds| - 1], a);
    }
  }

  lemma {:induction false} KeysAgree(cipher: Cipher, rounds: seq<Round>, hash: WorldState -> nat, timeout: nat)
    requires 10 * |rounds| + 20 < 0x8000_0000
    ensures var h := HistoryOf(cipher, rounds, hash, timeout); h.seen.Keys == h.all.Keys
  {
    if rounds != [] {
      var before := rounds[..|rounds| - 1];
      KeysAgree(cipher, before, hash, timeout);
      hide Continued, PolledIn, Elapsed;
      var h, after := HistoryOf(cipher, before, hash, timeout), HistoryOf(cipher, rounds, hash, timeout);
      forall a: Addr
        ensures a in after.seen <==> a in after.all
      {
        OneRound(cipher, h, rounds[|rounds| - 1], hash, timeout, a);
      }
    }
  }

  /** In every run the sessions are those of the connections. */
  lemma {:induction false} SessionsAreConnections(cipher: Cipher, rounds: seq<Round>, hash: WorldState -> nat,
                                                  timeout: nat)
    requires 10 * |rounds| + 20 < 0x8000_0000
    ensures var h := HistoryOf(cipher, rounds, hash, timeout); T.Sessions(h.turns).Keys == h.all.Keys
  {
    if rounds == [] {
      NothingYet(cipher, hash, timeout);
    } else {
      hide Continued, PolledIn;
      HistoryOneMore(cipher, rounds, hash, timeout);
      RoundSessions(cipher, HistoryOf(cipher, rounds[..|rounds| - 1], hash, timeout), rounds[|rounds| - 1], hash,
                    timeout);
    }
  }

  lemma RoundSessions(cipher: Cipher, h: History, r: Round, hash: WorldState -> nat, timeout: nat)
    requires 10 * |h.turns| + 20 < 0x8000_0000
    ensures var after := Continued(cipher, h, r, hash, timeout); T.Sessions(after.turns).Keys == after.all.Keys
  {
    hide AfterPoll, SeenAfter, ToFlush, TurnOf, Updated, InRange, T.WorldAt, RoomToMove, T.Sessions;
    var polled := PolledIn(cipher, h, r);
    var turn := TurnOf(polled, r.now, timeout);
    var turns := h.turns + [turn];
    RoomForAnother(turns);
    SurvivorsOfBroadcast(polled, T.PlayedIn(turns), |turns|, T.WorldAt(turns), hash, r.now, timeout);
    SurvivingSessions(h.turns, turn, polled, r.now, timeout);
  }

  lemma SurvivingSessions(before: seq<S.Turn>, turn: S.Turn, polled: Polled, now: nat, timeout: nat)
    requires turn == TurnOf(polled, now, timeout)
    ensures T.Sessions(before + [turn]).Keys == turn.surviving
  {
    var turns := before + [turn];
    assert turns[..|before|] == before;
    hide S.Played, S.BufferedAll, S.EntriesOf, Elapsed;
  }
}
