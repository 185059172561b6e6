/**
  The server loop over whole runs. A session that lives from tick `born` sees one list of input
  entries per turn; what it applies at each tick is a function of those lists alone.
 */
module ServerTrace {
  import opened Numbers
  import opened World
  import opened Server

  // ---------- the trace specification ----------

  /** The last entry of one poll for tick `t`. */
  function LastFor(poll: seq<Entry>, t: nat): Option<InputMask> {
    if poll == [] then None
    else if poll[|poll| - 1].tick == t then Some(poll[|poll| - 1].mask)
    else LastFor(poll[..|poll| - 1], t)
  }

  /** The last entry for tick `t` that arrived at all. */
  function Arrived(polls: seq<seq<Entry>>, t: nat): Option<InputMask> {
    if polls == [] then None
    else
      var latest := LastFor(polls[|polls| - 1], t);
      if latest.Some? then latest else Arrived(polls[..|polls| - 1], t)
  }

  /** The last entry for tick `t` that arrived at a poll no later than tick `t`; the first poll is at tick `born`. */
  function OnTime(born: nat, polls: seq<seq<Entry>>, t: nat): Option<InputMask>
    requires born <= t < born + |polls|
  {
    Arrived(polls[..t - born + 1], t)
  }

  /** The input in force after the last poll: that of the greatest tick that was on time, or none. */
  function InForce(born: nat, polls: seq<seq<Entry>>): InputMask {
    if polls == [] then NO_INPUT
    else
      var now := born + |polls| - 1;
      if OnTime(born, polls, now).Some? then OnTime(born, polls, now).value
      else InForce(born, polls[..|polls| - 1])
  }

  // ---------- one session ----------

  function Lived(born: nat, polls: seq<seq<Entry>>): Session {
    if polls == [] then NEW_SESSION
    else
      Played(BufferedAll(Lived(born, polls[..|polls| - 1]), polls[|polls| - 1]), born + |polls| - 1)
  }

  lemma {:induction false} BufferHoldsLast(s: Session, entries: seq<Entry>, t: nat)
    ensures var after := BufferedAll(s, entries);
            && after.lastKnown == s.lastKnown
            && (t in after.buffer <==> LastFor(entries, t).Some? || t in s.buffer)
            && (LastFor(entries, t).Some? ==> after.buffer[t] == LastFor(entries, t).value)
            && (LastFor(entries, t).None? && t in s.buffer ==> after.buffer[t] == s.buffer[t])
  {
    if entries != [] {
      BufferHoldsLast(s, entries[..|entries| - 1], t);
    }
  }

  /** After every turn the buffer holds exactly the arrived inputs for future ticks. */
  lemma {:induction false} BufferIsTheFuture(born: nat, polls: seq<seq<Entry>>, t: nat)
    ensures var s := Lived(born, polls);
            && (t in s.buffer <==> t >= born + |polls| && Arrived(polls, t).Some?)
            && (t in s.buffer ==> s.buffer[t] == Arrived(polls, t).value)
  {
    if polls != [] {
      BufferIsTheFuture(born, polls[..|polls| - 1], t);
      BufferHoldsLast(Lived(born, polls[..|polls| - 1]), polls[|polls| - 1], t);
    }
  }

  /** The session refines the trace specification. */
  lemma {:induction false} SessionAppliesInputInForce(born: nat, polls: seq<seq<Entry>>)
    ensures Lived(born, polls).lastKnown == InForce(born, polls)
  {
    if polls != [] {
      var before := polls[..|polls| - 1];
      var now := born + |polls| - 1;
      SessionAppliesInputInForce(born, before);
      BufferIsTheFuture(born, before, now);
      BufferHoldsLast(Lived(born, before), polls[|polls| - 1], now);
      assert polls[..now - born + 1] == polls;
    }
  }

  /** The specification in words: the greatest tick with an input on time decides. */
  lemma {:induction false} GreatestOnTimeTickDecides(born: nat, polls: seq<seq<Entry>>, t: nat)
    requires born <= t < born + |polls|
    requires OnTime(born, polls, t).Some?
    requires forall u | t < u < born + |polls| :: OnTime(born, polls, u).None?
    ensures InForce(born, polls) == OnTime(born, polls, t).value
  {
    if t < born + |polls| - 1 {
      var before := polls[..|polls| - 1];
      forall u | born <= u < born + |before|
        ensures OnTime(born, before, u) == OnTime(born, polls, u)
      {
        assert before[..u - born + 1] == polls[..u - born + 1];
      }
      GreatestOnTimeTickDecides(born, before, t);
    }
  }

  lemma {:induction false} NothingOnTimeMeansNoInput(born: nat, polls: seq<seq<Entry>>)
    requires forall u | born <= u < born + |polls| :: OnTime(born, polls, u).None?
    ensures InForce(born, polls) == NO_INPUT
  {
    if polls != [] {
      var before := polls[..|polls| - 1];
      forall u | born <= u < born + |before|
        ensures OnTime(born, before, u).None?
      {
        assert before[..u - born + 1] == polls[..u - born + 1];
        assert OnTime(born, polls, u).None?;
      }
      NothingOnTimeMeansNoInput(born, before);
    }
  }

  predicate AllMove(polls: seq<seq<Entry>>) {
    forall i, j :: 0 <= i < |polls| && 0 <= j < |polls[i]| ==> Moves(polls[i][j].mask)
  }

  ghost predicate SomeOnTime(born: nat, polls: seq<seq<Entry>>) {
    exists t: nat :: born <= t < born + |polls| && OnTime(born, polls, t).Some?
  }

  lemma {:induction false} LastForIsEntry(poll: seq<Entry>, t: nat)
    requires LastFor(poll, t).Some?
    ensures exists j :: 0 <= j < |poll| && poll[j].mask == LastFor(poll, t).value
  {
    if poll[|poll| - 1].tick != t {
      LastForIsEntry(poll[..|poll| - 1], t);
      var j :| 0 <= j < |poll| - 1 && poll[..|poll| - 1][j].mask == LastFor(poll, t).value;
      assert poll[j].mask == LastFor(poll, t).value;
    }
  }

  lemma {:induction false} ArrivedMoves(polls: seq<seq<Entry>>, t: nat)
    requires AllMove(polls) && Arrived(polls, t).Some?
    ensures Moves(Arrived(polls, t).value)
  {
    hide Moves;
    var last := polls[|polls| - 1];
    if LastFor(last, t).Some? {
      LastForIsEntry(last, t);
    } else {
      ArrivedMoves(polls[..|polls| - 1], t);
    }
  }

  /** Fed only moving inputs, a session holds a moving input exactly from the first one that is on time. */
  lemma {:induction false} MovesOnceOnTime(born: nat, polls: seq<seq<Entry>>)
    requires AllMove(polls)
    ensures Moves(InForce(born, polls)) <==> SomeOnTime(born, polls)
  {
    hide Moves, Arrived;
    if polls == [] {
      MovesOfOr(NO_INPUT, NO_INPUT);
    } else {
      var before, now := polls[..|polls| - 1], born + |polls| - 1;
      MovesOnceOnTime(born, before);
      assert polls[..now - born + 1] == polls;
      if OnTime(born, polls, now).Some? {
        ArrivedMoves(polls, now);
      }
      forall t | born <= t < born + |before|
        ensures OnTime(born, before, t) == OnTime(born, polls, t)
      {
        assert before[..t - born + 1] == polls[..t - born + 1];
      }
    }
  }

  // ---------- the whole server ----------

  /** The sessions after `turns`. */
  ghost function Sessions(turns: seq<Turn>): map<Addr, Session>
    decreases |turns|, 1
  {
    if turns == [] then map[] else Surviving(PlayedIn(turns), turns[|turns| - 1].surviving)
  }

  /** The sessions that take part in the last of `turns`, just after it was played. */
  ghost function PlayedIn(turns: seq<Turn>): map<Addr, Session>
    requires turns != []
    decreases |turns|, 0
  {
    var turn := turns[|turns| - 1];
    PlayedAll(Filled(Sessions(turns[..|turns| - 1]), turn.arrivals, turn.active), |turns|)
  }

  ghost function WorldAt(turns: seq<Turn>): (w: WorldState)
    ensures w.positions != []
  {
    if turns == [] then ORIGIN else StepPhysics(WorldAt(turns[..|turns| - 1]), OrOf(Held(PlayedIn(turns))))
  }

  /** These are the states the loop goes through: one more turn is one call of `GameServer.RunTick`. */
  lemma LoopGoesThrough(turns: seq<Turn>)
    requires turns != []
    ensures var before := turns[..|turns| - 1];
            ServerState(Sessions(turns), WorldAt(turns)) ==
            Turned(ServerState(Sessions(before), WorldAt(before)), turns[|turns| - 1], |turns|)
  {}

  method RunNext(server: GameServer, turns: seq<Turn>)
    requires turns != [] && server.currentTick == |turns| - 1
    requires var before := turns[..|turns| - 1]; server.Value() == ServerState(Sessions(before), WorldAt(before))
    modifies server
    ensures server.currentTick == |turns|
    ensures server.Value() == ServerState(Sessions(turns), WorldAt(turns))
  {
    LoopGoesThrough(turns);
    hide Turned, Sessions, WorldAt;
    server.RunTick(turns[|turns| - 1]);
  }

  /** Running the loop over `turns` from its start ends in those states. */
  method RunLoop(turns: seq<Turn>) returns (server: GameServer)
    ensures fresh(server) && server.currentTick == |turns|
    ensures server.Value() == ServerState(Sessions(turns), WorldAt(turns))
  {
    server := new GameServer();
    assert server.Value() == ServerState(Sessions([]), WorldAt([]));
    hide Turned, Sessions, WorldAt, GameServer.Value;
    for i := 0 to |turns|
      invariant server.currentTick == i
      invariant server.Value() == ServerState(Sessions(turns[..i]), WorldAt(turns[..i]))
      invariant fresh(server)
    {
      var next := turns[..i + 1];
      assert next[..|next| - 1] == turns[..i];
      RunNext(server, next);
    }
    assert turns[..|turns|] == turns;
  }

  /** The polls seen by the session that takes part in the last turn for `a`, since it was created. */
  ghost function PollsOf(turns: seq<Turn>, a: Addr): seq<seq<Entry>> {
    if turns == [] then []
    else
      var before := turns[..|turns| - 1];
      (if a in Sessions(before) then PollsOf(before, a) else [])
      + [EntriesOf(turns[|turns| - 1].arrivals, a)]
  }

  ghost function Born(turns: seq<Turn>, a: Addr): int {
    |turns| + 1 - |PollsOf(turns, a)|
  }

  /** Does `a` take part in the last turn? */
  ghost predicate TakesPart(turns: seq<Turn>, a: Addr)
    requires turns != []
  {
    a in PlayedIn(turns)
  }

  lemma {:induction false} PollsFit(turns: seq<Turn>, a: Addr)
    ensures |PollsOf(turns, a)| <= |turns|
    ensures turns != [] ==> |PollsOf(turns, a)| >= 1
  {
    if turns != [] {
      PollsFit(turns[..|turns| - 1], a);
    }
  }

  /** The session `a` plays in the last turn has lived through the polls of its lifetime and no others. */
  lemma {:induction false} ParticipantLived(turns: seq<Turn>, a: Addr)
    requires turns != [] && TakesPart(turns, a)
    ensures Born(turns, a) >= 1
    ensures PlayedIn(turns)[a] == Lived(Born(turns, a), PollsOf(turns, a))
    decreases |turns|
  {
    var before := turns[..|turns| - 1];
    PollsFit(turns, a);
    if a in Sessions(before) {
      SurvivorTookPart(before, a);
      ParticipantLived(before, a);
    }
    OneMorePoll(turns, a);
  }

  /** The polls of the lifetime before the last one. */
  ghost function EarlierPolls(turns: seq<Turn>, a: Addr): seq<seq<Entry>>
    requires turns != []
  {
    var before := turns[..|turns| - 1];
    if a in Sessions(before) then PollsOf(before, a) else []
  }

  lemma EarlierLived(turns: seq<Turn>, a: Addr)
    requires turns != [] && Born(turns, a) >= 1
    requires var before := turns[..|turns| - 1];
             a in Sessions(before) ==>
               Born(before, a) >= 1 && Sessions(before)[a] == Lived(Born(before, a), PollsOf(before, a))
    ensures Get(Sessions(turns[..|turns| - 1]), a) == Lived(Born(turns, a), EarlierPolls(turns, a))
    ensures Born(turns, a) + |EarlierPolls(turns, a)| == |turns|
    ensures PollsOf(turns, a) == EarlierPolls(turns, a) + [EntriesOf(turns[|turns| - 1].arrivals, a)]
  {
    hide Sessions, EntriesOf, Played, BufferedAll;
  }

  lemma OneMorePoll(turns: seq<Turn>, a: Addr)
    requires turns != [] && TakesPart(turns, a) && Born(turns, a) >= 1
    requires var before := turns[..|turns| - 1];
             a in Sessions(before) ==>
               Born(before, a) >= 1 && Sessions(before)[a] == Lived(Born(before, a), PollsOf(before, a))
    ensures PlayedIn(turns)[a] == Lived(Born(turns, a), PollsOf(turns, a))
  {
    hide Played, BufferedAll, PlayedIn, Lived, Sessions, EntriesOf, PollsOf, Born, EarlierPolls, Get;
    EarlierLived(turns, a);
    PlayedOf(turns, a);
    LivedOneMore(Born(turns, a), EarlierPolls(turns, a), EntriesOf(turns[|turns| - 1].arrivals, a));
  }

  lemma LivedOneMore(born: nat, polls: seq<seq<Entry>>, poll: seq<Entry>)
    ensures Lived(born, polls + [poll]) == Played(BufferedAll(Lived(born, polls), poll), born + |polls|)
  {
    assert (polls + [poll])[..|polls|] == polls;
  }

  lemma PlayedOf(turns: seq<Turn>, a: Addr)
    requires turns != [] && TakesPart(turns, a)
    ensures PlayedIn(turns)[a] ==
            Played(BufferedAll(Get(Sessions(turns[..|turns| - 1]), a), EntriesOf(turns[|turns| - 1].arrivals, a)),
                   |turns|)
  {}

  lemma SurvivorTookPart(turns: seq<Turn>, a: Addr)
    requires a in Sessions(turns)
    ensures turns != [] && TakesPart(turns, a) && Sessions(turns)[a] == PlayedIn(turns)[a]
  {}

  /** What each participant of the last turn holds is the trace specification of its own lifetime. */
  lemma ParticipantsHoldInputInForce(turns: seq<Turn>, a: Addr)
    requires turns != [] && TakesPart(turns, a)
    ensures PlayedIn(turns)[a].lastKnown == InForceOf(turns, a)
  {
    ParticipantLived(turns, a);
    SessionAppliesInputInForce(Born(turns, a), PollsOf(turns, a));
  }

  /** In every reachable state a session buffers exactly the arrived inputs for ticks still to come. */
  lemma BuffersHoldTheFuture(turns: seq<Turn>, a: Addr, t: nat)
    requires a in Sessions(turns)
    ensures var buffer := Sessions(turns)[a].buffer;
            && (t in buffer <==> t > |turns| && Arrived(PollsOf(turns, a), t).Some?)
            && (t in buffer ==> buffer[t] == Arrived(PollsOf(turns, a), t).value)
  {
    SurvivorTookPart(turns, a);
    ParticipantLived(turns, a);
    BufferIsTheFuture(Born(turns, a), PollsOf(turns, a), t);
  }

  /** Does some participant of the last turn have a moving input in force? */
  ghost predicate AnyMover(turns: seq<Turn>)
    requires turns != []
  {
    exists a: Addr :: TakesPart(turns, a) && Moves(InForceOf(turns, a))
  }

  /** At tick `|turns|` the world moves 10 mm exactly when some participant's input in force moves it. */
  lemma WorldFollowsInputsInForce(turns: seq<Turn>)
    requires turns != []
    ensures WorldAt(turns) == Shifted(WorldAt(turns[..|turns| - 1]), if AnyMover(turns) then 10 else 0)
  {
    OrMovesIfAnyMoves(Held(PlayedIn(turns)));
    SomeoneMoves(turns);
    StepShifts(WorldAt(turns[..|turns| - 1]), OrOf(Held(PlayedIn(turns))));
  }

  function Shifted(w: WorldState, dx: int): WorldState
    requires w.positions != []
  {
    WorldState(w.positions[0 := w.positions[0].(x := w.positions[0].x + dx)])
  }

  lemma StepShifts(w: WorldState, input: InputMask)
    requires w.positions != []
    ensures StepPhysics(w, input) == Shifted(w, if Moves(input) then 10 else 0)
  {}

  lemma SomeoneMoves(turns: seq<Turn>)
    requires turns != []
    ensures (exists m :: m in Held(PlayedIn(turns)) && Moves(m)) <==>
            AnyMover(turns)
  {
    var played := PlayedIn(turns);
    forall a: Addr | TakesPart(turns, a)
      ensures InForceOf(turns, a) == played[a].lastKnown
    {
      ParticipantsHoldInputInForce(turns, a);
    }
    hide PlayedIn, InForceOf;
    if m :| m in Held(played) && Moves(m) {
      var a :| a in played && played[a].lastKnown == m;
      assert TakesPart(turns, a);
    }
    if a: Addr :| TakesPart(turns, a) && Moves(InForceOf(turns, a)) {
      assert played[a].lastKnown in Held(played);
    }
  }

  ghost function InForceOf(turns: seq<Turn>, a: Addr): InputMask {
    PollsFit(turns, a);
    InForce(Born(turns, a), PollsOf(turns, a))
  }

  // ---------- one input ----------

  /** The tick of the last entry that arrived. */
  function LastTick(polls: seq<seq<Entry>>): nat {
    if polls == [] then 0
    else
      var last := polls[|polls| - 1];
      if last != [] then last[|last| - 1].tick else LastTick(polls[..|polls| - 1])
  }

  lemma {:induction false} LatestIsLastTick(born: nat, polls: seq<seq<Entry>>)
    ensures Lived(born, polls).latestTick == LastTick(polls)
  {
    if polls != [] {
      LatestIsLastTick(born, polls[..|polls| - 1]);
    }
  }

  /** The tick a session reports back is that of the last input that arrived in its lifetime. */
  lemma ReportsLastInput(turns: seq<Turn>, a: Addr)
    requires turns != [] && TakesPart(turns, a)
    ensures PlayedIn(turns)[a].latestTick == LastTick(PollsOf(turns, a))
  {
    ParticipantLived(turns, a);
    LatestIsLastTick(Born(turns, a), PollsOf(turns, a));
  }

  /** Turn `k` brings `mask` for tick `t` to the session of `a`, and no turn up to `n` brings another. */
  predicate Decides(turns: seq<Turn>, a: Addr, k: nat, n: nat, t: nat, mask: InputMask) {
    && k < n <= |turns|
    && LastFor(EntriesOf(turns[k].arrivals, a), t) == Some(mask)
    && forall j :: k < j < n ==> LastFor(EntriesOf(turns[j].arrivals, a), t).None?
  }

  /** The session of `a` is not lost between turn `k` and turn `n`. */
  ghost predicate LivesOn(turns: seq<Turn>, a: Addr, k: nat, n: nat) {
    n <= |turns| && forall j :: k < j < n ==> a in Sessions(turns[..j])
  }

  lemma PollsOneMore(turns: seq<Turn>, a: Addr, t: nat)
    requires turns != []
    ensures var before, last := turns[..|turns| - 1], EntriesOf(turns[|turns| - 1].arrivals, a);
            && (LastFor(last, t).Some? ==> Arrived(PollsOf(turns, a), t) == LastFor(last, t))
            && (LastFor(last, t).None? && a in Sessions(before) ==>
                  Arrived(PollsOf(turns, a), t) == Arrived(PollsOf(before, a), t))
  {
    hide Sessions, EntriesOf, LastFor;
    assert PollsOf(turns, a) == EarlierPolls(turns, a) + [EntriesOf(turns[|turns| - 1].arrivals, a)];
    assert PollsOf(turns, a)[..|PollsOf(turns, a)| - 1] == EarlierPolls(turns, a);
  }

  lemma {:induction false} DecidedArrives(turns: seq<Turn>, a: Addr, k: nat, n: nat, t: nat, mask: InputMask)
    requires Decides(turns, a, k, n, t, mask) && LivesOn(turns, a, k, n)
    ensures Arrived(PollsOf(turns[..n], a), t) == Some(mask)
  {
    hide PollsOf, Arrived, Sessions, EntriesOf, LastFor;
    assert turns[..n][..n - 1] == turns[..n - 1];
    PollsOneMore(turns[..n], a, t);
    if k < n - 1 {
      DecidedArrives(turns, a, k, n - 1, t, mask);
    }
  }

  lemma SomeEntry(arrivals: seq<Arrival>, a: Addr, t: nat)
    requires LastFor(EntriesOf(arrivals, a), t).Some?
    ensures a in Senders(arrivals)
  {
    NoEntries(arrivals, a);
  }

  lemma SendersTakePart(turns: seq<Turn>, a: Addr)
    requires turns != []
    requires a in Senders(turns[|turns| - 1].arrivals) || a in Sessions(turns[..|turns| - 1])
    ensures TakesPart(turns, a)
  {
    hide BufferedAll, EntriesOf, Senders, Played;
  }

  lemma DecidedTakesPart(turns: seq<Turn>, a: Addr, k: nat, t: nat, mask: InputMask)
    requires Decides(turns, a, k, |turns|, t, mask) && LivesOn(turns, a, k, |turns|)
    ensures TakesPart(turns, a)
  {
    hide TakesPart, Sessions, EntriesOf, LastFor, Senders;
    if k == |turns| - 1 {
      SomeEntry(turns[k].arrivals, a, t);
    }
    SendersTakePart(turns, a);
  }

  lemma ArrivedIsInForce(turns: seq<Turn>, a: Addr)
    requires turns != [] && Arrived(PollsOf(turns, a), |turns|).Some? && Born(turns, a) >= 1
    ensures InForceOf(turns, a) == Arrived(PollsOf(turns, a), |turns|).value
  {
    hide PollsOf, Arrived;
    PollsFit(turns, a);
    var polls := PollsOf(turns, a);
    assert polls[..|turns| - Born(turns, a) + 1] == polls;
  }

  /** An input brought in time is what the session holds at its tick ... */
  lemma DecidedIsHeld(turns: seq<Turn>, a: Addr, k: nat, mask: InputMask)
    requires Decides(turns, a, k, |turns|, |turns|, mask) && LivesOn(turns, a, k, |turns|)
    ensures turns != [] && TakesPart(turns, a) && PlayedIn(turns)[a].lastKnown == mask == InForceOf(turns, a)
  {
    hide LivesOn, TakesPart, PlayedIn, EntriesOf, LastFor, PollsOf, Arrived, Born, InForceOf;
    assert turns[..|turns|] == turns;
    DecidedArrives(turns, a, k, |turns|, |turns|, mask);
    DecidedTakesPart(turns, a, k, |turns|, mask);
    ParticipantLived(turns, a);
    ArrivedIsInForce(turns, a);
    ParticipantsHoldInputInForce(turns, a);
  }

  /** ... and moves the world at that tick, if it is a moving one. */
  lemma DecidedMovesWorld(turns: seq<Turn>, a: Addr, k: nat, mask: InputMask)
    requires Decides(turns, a, k, |turns|, |turns|, mask) && LivesOn(turns, a, k, |turns|) && Moves(mask)
    ensures turns != [] && WorldAt(turns) == Shifted(WorldAt(turns[..|turns| - 1]), 10)
  {
    hide Moves, Decides, LivesOn, PlayedIn, TakesPart, WorldAt, InForceOf;
    DecidedIsHeld(turns, a, k, mask);
    WorldFollowsInputsInForce(turns);
  }

  /** Until then it waits in the buffer. */
  lemma DecidedIsBuffered(turns: seq<Turn>, a: Addr, k: nat, t: nat, mask: InputMask)
    requires Decides(turns, a, k, |turns|, t, mask) && LivesOn(turns, a, k, |turns|)
    requires t > |turns| && a in Sessions(turns)
    ensures t in Sessions(turns)[a].buffer && Sessions(turns)[a].buffer[t] == mask
  {
    hide Decides, LivesOn, Sessions, PollsOf, Arrived;
    assert turns[..|turns|] == turns;
    DecidedArrives(turns, a, k, |turns|, t, mask);
    BuffersHoldTheFuture(turns, a, t);
  }

  // ---------- a server that is only sent moving inputs ----------

  predicate AllArrivalsMove(turns: seq<Turn>) {
    forall i, j :: 0 <= i < |turns| && 0 <= j < |turns[i].arrivals| ==> Moves(turns[i].arrivals[j].entry.mask)
  }

  lemma {:induction false} EntriesMove(arrivals: seq<Arrival>, a: Addr)
    requires forall j :: 0 <= j < |arrivals| ==> Moves(arrivals[j].entry.mask)
    ensures forall j :: 0 <= j < |EntriesOf(arrivals, a)| ==> Moves(EntriesOf(arrivals, a)[j].mask)
  {
    hide Moves;
    if arrivals != [] {
      EntriesMove(arrivals[..|arrivals| - 1], a);
    }
  }

  lemma {:induction false} PollsMove(turns: seq<Turn>, a: Addr)
    requires AllArrivalsMove(turns)
    ensures AllMove(PollsOf(turns, a))
  {
    hide Moves, Sessions, EntriesOf;
    if turns != [] {
      PollsMove(turns[..|turns| - 1], a);
      EntriesMove(turns[|turns| - 1].arrivals, a);
    }
  }

  /** Has some participant of the last turn had an input on time in its lifetime? */
  ghost predicate SomeoneOnTime(turns: seq<Turn>)
    requires turns != []
  {
    exists a: Addr :: TakesPart(turns, a) && OnTimeOf(turns, a)
  }

  ghost predicate OnTimeOf(turns: seq<Turn>, a: Addr) {
    PollsFit(turns, a);
    SomeOnTime(Born(turns, a), PollsOf(turns, a))
  }

  /**
    A server whose clients send moving inputs only, as this client does, moves the world at a tick
    exactly when some session then alive has had an input on time.
   */
  lemma FedForwardMovesExactly(turns: seq<Turn>)
    requires turns != [] && AllArrivalsMove(turns)
    ensures WorldAt(turns) == Shifted(WorldAt(turns[..|turns| - 1]), if SomeoneOnTime(turns) then 10 else 0)
  {
    WorldFollowsInputsInForce(turns);
    forall a: Addr
      ensures Moves(InForceOf(turns, a)) <==> OnTimeOf(turns, a)
    {
      PollsFit(turns, a);
      PollsMove(turns, a);
      MovesOnceOnTime(Born(turns, a), PollsOf(turns, a));
    }
    hide TakesPart, InForceOf, OnTimeOf, WorldAt, Moves, AllArrivalsMove;
  }
}
