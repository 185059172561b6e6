/**
  The authoritative server loop: a jitter buffer per session, hold-last inputs, one `or` over all
  sessions and one physics step per tick.
 */
module Server {
  import opened Bitwise
  import opened Numbers
  import opened World

  /** A parsed input packet of one sender. */
  datatype Entry = Entry(tick: nat, mask: InputMask)
  datatype Arrival = Arrival(addr: Addr, entry: Entry)

  datatype Session = Session(buffer: map<nat, InputMask>, lastKnown: InputMask, latestTick: nat)

  const NEW_SESSION := Session(map[], NO_INPUT, 0)

  /** What one turn of the loop sees: parsed inputs, open connections, connections left after eviction. */
  datatype Turn = Turn(arrivals: seq<Arrival>, active: set<Addr>, surviving: set<Addr>)

  // ---------- one session ----------

  function Buffered(s: Session, e: Entry): Session {
    s.(buffer := s.buffer[e.tick := e.mask], latestTick := e.tick)
  }

  function BufferedAll(s: Session, entries: seq<Entry>): Session {
    if entries == [] then s
    else Buffered(BufferedAll(s, entries[..|entries| - 1]), entries[|entries| - 1])
  }

  /** Take the input for tick `now` if it is there, and forget every tick that is not in the future. */
  function Played(s: Session, now: nat): Session {
    Session(map t | t in s.buffer && t > now :: s.buffer[t],
            if now in s.buffer then s.buffer[now] else s.lastKnown,
            s.latestTick)
  }

  // ---------- all sessions ----------

  function Get(sessions: map<Addr, Session>, a: Addr): Session {
    if a in sessions then sessions[a] else NEW_SESSION
  }

  function EntriesOf(arrivals: seq<Arrival>, a: Addr): seq<Entry> {
    if arrivals == [] then []
    else
      var rest := EntriesOf(arrivals[..|arrivals| - 1], a);
      if arrivals[|arrivals| - 1].addr == a then rest + [arrivals[|arrivals| - 1].entry] else rest
  }

  function Senders(arrivals: seq<Arrival>): set<Addr> {
    set x | x in arrivals :: x.addr
  }

  /** The sessions that take part in a turn, with the packets of the turn buffered. */
  function Filled(sessions: map<Addr, Session>, arrivals: seq<Arrival>, active: set<Addr>): map<Addr, Session> {
    map a | a in sessions.Keys + Senders(arrivals) + active :: BufferedAll(Get(sessions, a), EntriesOf(arrivals, a))
  }

  function PlayedAll(sessions: map<Addr, Session>, now: nat): map<Addr, Session> {
    map a | a in sessions :: Played(sessions[a], now)
  }

  function Surviving(sessions: map<Addr, Session>, left: set<Addr>): map<Addr, Session> {
    map a | a in sessions && a in left :: sessions[a]
  }

  function Held(sessions: map<Addr, Session>): set<InputMask> {
    set a | a in sessions :: sessions[a].lastKnown
  }

  // ---------- the fold over sessions ----------

  /** The `or` of a set of masks, in whatever order they are taken. */
  ghost function OrOf(masks: set<InputMask>): InputMask {
    if masks == {} then NO_INPUT
    else
      var x :| x in masks;
      Or(x, OrOf(masks - {x}))
  }

  lemma {:induction false} OrOfAnyFirst(masks: set<InputMask>, x: InputMask)
    requires x in masks
    ensures OrOf(masks) == Or(x, OrOf(masks - {x}))
    decreases |masks|
  {
    var y :| y in masks && OrOf(masks) == Or(y, OrOf(masks - {y}));
    if y != x {
      OrOfAnyFirst(masks - {y}, x);
      OrOfAnyFirst(masks - {x}, y);
      assert masks - {y} - {x} == masks - {x} - {y};
      OrAlgebra(x, y, OrOf(masks - {x} - {y}));
    }
  }

  lemma OrOfOneMore(masks: set<InputMask>, x: InputMask)
    ensures OrOf(masks + {x}) == Or(x, OrOf(masks))
  {
    OrOfAnyFirst(masks + {x}, x);
    if x in masks {
      OrOfAnyFirst(masks, x);
      OrAlgebra(x, x, OrOf(masks - {x}));
      assert masks + {x} == masks;
    } else {
      assert masks + {x} - {x} == masks;
    }
  }

  /** The world moves exactly when some session holds a moving input. */
  lemma {:induction false} OrMovesIfAnyMoves(masks: set<InputMask>)
    ensures Moves(OrOf(masks)) <==> exists m :: m in masks && Moves(m)
    decreases |masks|
  {
    if masks != {} {
      var x :| x in masks && OrOf(masks) == Or(x, OrOf(masks - {x}));
      OrMovesIfAnyMoves(masks - {x});
      MovesOfOr(x, OrOf(masks - {x}));
      assert forall m | m in masks :: m == x || m in masks - {x};
    }
  }

  /** Bit by bit, the fold has exactly the bits of the masks. */
  lemma {:induction false} OrHasBitsExactly(masks: set<InputMask>, k: nat)
    ensures HasBit(OrOf(masks).bits, k) <==> exists m :: m in masks && HasBit(m.bits, k)
    decreases |masks|
  {
    hide HasBit, Or;
    if masks == {} {
      ZeroHasNoBits(k);
    } else {
      var x :| x in masks && OrOf(masks) == Or(x, OrOf(masks - {x}));
      OrHasBitsExactly(masks - {x}, k);
      BitsOfOr(x, OrOf(masks - {x}), k);
      if HasBit(OrOf(masks - {x}).bits, k) {
        var m :| m in masks - {x} && HasBit(m.bits, k);
        assert m in masks;
      }
      assert forall m | m in masks :: m == x || m in masks - {x};
    }
  }

  ghost function HeldBy(sessions: map<Addr, Session>, some: set<Addr>): set<InputMask> {
    set a | a in some && a in sessions :: sessions[a].lastKnown
  }

  lemma OrOfNothing(sessions: map<Addr, Session>)
    ensures OrOf(HeldBy(sessions, {})) == NO_INPUT
  {
    assert HeldBy(sessions, {}) == {};
  }

  lemma HeldByOneMore(sessions: map<Addr, Session>, some: set<Addr>, a: Addr)
    requires a in sessions
    ensures OrOf(HeldBy(sessions, some + {a})) == Or(OrOf(HeldBy(sessions, some)), sessions[a].lastKnown)
  {
    var mask := sessions[a].lastKnown;
    assert HeldBy(sessions, some + {a}) == HeldBy(sessions, some) + {mask};
    OrOfOneMore(HeldBy(sessions, some), mask);
    OrAlgebra(mask, OrOf(HeldBy(sessions, some)), NO_INPUT);
  }

  /** Buffering one more packet only touches the session of its sender. */
  lemma EntriesOneMore(arrivals: seq<Arrival>, next: Arrival, a: Addr)
    ensures EntriesOf(arrivals + [next], a) == EntriesOf(arrivals, a) + if a == next.addr then [next.entry] else []
    ensures a in Senders(arrivals + [next]) <==> a in Senders(arrivals) || a == next.addr
    ensures a !in Senders(arrivals) ==> EntriesOf(arrivals, a) == []
  {
    var all := arrivals + [next];
    assert all[..|all| - 1] == arrivals;
    if a == next.addr {
      assert next in all;
    }
    NoEntries(arrivals, a);
  }

  lemma BufferedOneMore(s: Session, entries: seq<Entry>, e: Entry)
    ensures BufferedAll(s, entries + [e]) == Buffered(BufferedAll(s, entries), e)
    ensures BufferedAll(s, entries + []) == BufferedAll(s, entries)
  {
    assert (entries + [e])[..|entries|] == entries;
    assert entries + [] == entries;
  }

  // ---------- the loop ----------

  datatype ServerState = ServerState(sessions: map<Addr, Session>, world: WorldState)

  /** One turn of the loop at tick `now`, as a step on states. */
  ghost function Turned(s: ServerState, turn: Turn, now: nat): (after: ServerState)
    requires s.world.positions != []
    ensures after.world.positions != []
  {
    var played := PlayedAll(Filled(s.sessions, turn.arrivals, turn.active), now);
    ServerState(Surviving(played, turn.surviving), StepPhysics(s.world, OrOf(Held(played))))
  }

  class GameServer {
    var currentTick: nat
    var world: WorldState
    var sessions: map<Addr, Session>

    ghost function Value(): ServerState
      reads this
    {
      ServerState(sessions, world)
    }

    constructor ()
      ensures currentTick == 0 && world == ORIGIN && sessions == map[]
    {
      currentTick := 0;
      world := ORIGIN;
      sessions := map[];
    }

    method Ingest(arrivals: seq<Arrival>)
      modifies this`sessions
      ensures forall a :: a in sessions <==> a in old(sessions) || a in Senders(arrivals)
      ensures forall a | a in sessions :: sessions[a] == BufferedAll(Get(old(sessions), a), EntriesOf(arrivals, a))
    {
      ghost var before := sessions;
      for i := 0 to |arrivals|
        invariant forall a :: a in sessions <==> a in before || a in Senders(arrivals[..i])
        invariant forall a | a in sessions ::
                    sessions[a] == BufferedAll(Get(before, a), EntriesOf(arrivals[..i], a))
      {
        var sender, input := arrivals[i].addr, arrivals[i].entry;
        assert arrivals[..i + 1] == arrivals[..i] + [arrivals[i]];
        forall a
          ensures a in Senders(arrivals[..i + 1]) <==> a in Senders(arrivals[..i]) || a == sender
          ensures a != sender ==> EntriesOf(arrivals[..i + 1], a) == EntriesOf(arrivals[..i], a)
        {
          EntriesOneMore(arrivals[..i], arrivals[i], a);
        }
        EntriesOneMore(arrivals[..i], arrivals[i], sender);
        BufferedOneMore(Get(before, sender), EntriesOf(arrivals[..i], sender), input);
        var session := if sender in sessions then sessions[sender] else NEW_SESSION;
        assert session == BufferedAll(Get(before, sender), EntriesOf(arrivals[..i], sender));
        sessions := sessions[sender := session.(buffer := session.buffer[input.tick := input.mask],
                                                latestTick := input.tick)];
      }
      assert arrivals[..|arrivals|] == arrivals;
    }

    method OpenSessions(active: set<Addr>)
      modifies this`sessions
      ensures forall a :: a in sessions <==> a in old(sessions) || a in active
      ensures forall a | a in sessions :: sessions[a] == Get(old(sessions), a)
    {
      ghost var before := sessions;
      var todo := active;
      while todo != {}
        invariant todo <= active
        invariant forall a :: a in sessions <==> a in before || (a in active && a !in todo)
        invariant forall a | a in sessions :: sessions[a] == Get(before, a)
        decreases todo
      {
        var a :| a in todo;
        todo := todo - {a};
        if a !in sessions {
          sessions := sessions[a := NEW_SESSION];
        }
      }
    }

    /** Plays one tick of one session and returns what it holds. */
    method PlayOne(addr: Addr) returns (held: InputMask)
      requires addr in sessions
      modifies this`sessions
      ensures sessions == old(sessions)[addr := Played(old(sessions)[addr], currentTick)]
      ensures held == sessions[addr].lastKnown
    {
      var session := sessions[addr];
      if currentTick in session.buffer {
        session := session.(buffer := session.buffer - {currentTick}, lastKnown := session.buffer[currentTick]);
      }
      held := session.lastKnown;
      session := session.(buffer := map t | t in session.buffer && t > currentTick :: session.buffer[t]);
      assert session.buffer == Played(old(sessions)[addr], currentTick).buffer;
      sessions := sessions[addr := session];
    }

    /** Plays one tick of every session, in an arbitrary order, and gathers what they hold. */
    method Gather() returns (inputs: InputMask)
      modifies this`sessions
      ensures sessions == PlayedAll(old(sessions), currentTick)
      ensures inputs == OrOf(Held(sessions))
    {
      hide Played, Or, OrOf;
      ghost var before := sessions;
      ghost var played := PlayedAll(before, currentTick);
      inputs := NO_INPUT;
      var todo := sessions.Keys;
      OrOfNothing(played);
      assert before.Keys - todo == {};
      while todo != {}
        invariant todo <= before.Keys
        invariant forall a :: a in sessions <==> a in before
        invariant forall a | a in before :: sessions[a] == if a in todo then before[a] else played[a]
        invariant inputs == OrOf(HeldBy(played, before.Keys - todo))
        decreases todo
      {
        var a :| a in todo;
        var held := PlayOne(a);
        inputs := Or(inputs, held);
        HeldByOneMore(played, before.Keys - todo, a);
        assert before.Keys - (todo - {a}) == (before.Keys - todo) + {a};
        todo := todo - {a};
      }
      assert HeldBy(played, before.Keys) == Held(played);
      assert before.Keys - {} == before.Keys;
    }

    /** One tick: ingest, open, play and step. What is left of the sessions is decided later in the turn. */
    method PlayTick(arrivals: seq<Arrival>, active: set<Addr>)
      requires world.positions != []
      modifies this
      ensures currentTick == old(currentTick) + 1
      ensures sessions == PlayedAll(Filled(old(sessions), arrivals, active), currentTick)
      ensures world == StepPhysics(old(world), OrOf(Held(sessions)))
    {
      hide PlayedAll, StepPhysics, OrOf, Held;
      currentTick := currentTick + 1;
      Ingest(arrivals);
      OpenSessions(active);
      forall a
        ensures a !in Senders(arrivals) ==> EntriesOf(arrivals, a) == []
      {
        NoEntries(arrivals, a);
      }
      assert sessions == Filled(old(sessions), arrivals, active);
      hide Filled;
      var inputs := Gather();
      world := StepPhysics(world, inputs);
    }

    method Retain(surviving: set<Addr>)
      modifies this`sessions
      ensures sessions == Surviving(old(sessions), surviving)
    {
      sessions := map a | a in sessions && a in surviving :: sessions[a];
    }

    method RunTick(turn: Turn)
      requires world.positions != []
      modifies this
      ensures currentTick == old(currentTick) + 1
      ensures Value() == Turned(old(Value()), turn, currentTick)
    {
      hide Filled, PlayedAll, StepPhysics, OrOf, Held, Surviving;
      PlayTick(turn.arrivals, turn.active);
      Retain(turn.surviving);
    }
  }

  lemma {:induction false} NoEntries(arrivals: seq<Arrival>, a: Addr)
    ensures a !in Senders(arrivals) ==> EntriesOf(arrivals, a) == []
  {
    if arrivals != [] {
      NoEntries(arrivals[..|arrivals| - 1], a);
      assert arrivals == arrivals[..|arrivals| - 1] + [arrivals[|arrivals| - 1]];
    }
  }
}
