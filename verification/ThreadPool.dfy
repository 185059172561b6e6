/**
  The worker pool as interleaved steps. Every step is one thing a thread does between two points at
  which another thread may run: take the mutex, look at the flags and the queue while holding it,
  pop, wait, run a job to its end, set a flag, join a worker.
 */
module ThreadPool {
  import opened Numbers

  /** Jobs are numbered in the order in which they are pushed. */
  type Job = nat

  datatype Worker =
    | Starting                 // about to take the mutex, or waking from the condition variable
    | Holding                  // holds the mutex, at the top of the inner loop
    | PastStop                 // holds the mutex, has seen that it need not exit
    | Waiting                  // inside the wait on the condition variable, mutex released
    | Running(job: Job)
    | Exited

  datatype Stopper = NotStopped | Joining(next: nat) | Returned

  datatype Pool = Pool(
    tasks: seq<Job>,
    workers: seq<Worker>,
    stop: bool,
    paused: bool,
    stopper: Stopper,
    pushed: nat,               // how many jobs were ever pushed
    pushedBeforeStop: nat,     // how many of them before the stop flag was set
    popped: seq<Job>,          // the jobs taken by workers, in that order
    finished: set<Job>,        // run to the end
    panicked: set<Job>,        // run until they panicked
    cleared: set<Job>)

  datatype Event =
    | Lock(w: nat)
    | CheckStop(w: nat)
    | PopOrWait(w: nat)
    | Wake(w: nat)
    | Finish(w: nat)
    | Panic(w: nat)
    | Enqueue
    | Stop
    | Join
    | Pause
    | Resume
    | Clear

  function NewPool(threads: nat): Pool {
    var count := if threads == 0 then 1 else threads;
    Pool([], seq(count, i => Starting), false, false, NotStopped, 0, 0, [], {}, {}, {})
  }

  predicate HoldsMutex(w: Worker) {
    w.Holding? || w.PastStop?
  }

  predicate MutexFree(p: Pool) {
    forall i :: 0 <= i < |p.workers| ==> !HoldsMutex(p.workers[i])
  }

  predicate Enabled(p: Pool, e: Event) {
    match e
    case Lock(w) => w < |p.workers| && p.workers[w].Starting? && MutexFree(p)
    case CheckStop(w) => w < |p.workers| && p.workers[w].Holding?
    case PopOrWait(w) => w < |p.workers| && p.workers[w].PastStop?
    case Wake(w) => w < |p.workers| && p.workers[w].Waiting? && MutexFree(p)
    case Finish(w) => w < |p.workers| && p.workers[w].Running?
    case Panic(w) => w < |p.workers| && p.workers[w].Running?
    case Enqueue => MutexFree(p)
    case Stop => true
    case Join => p.stopper.Joining? && (p.stopper.next < |p.workers| ==> p.workers[p.stopper.next].Exited?)
    case Pause => true
    case Resume => true
    case Clear => MutexFree(p)
  }

  function Put(p: Pool, w: nat, state: Worker): Pool
    requires w < |p.workers|
  {
    p.(workers := p.workers[w := state])
  }

  function Step(p: Pool, e: Event): Pool
    requires Enabled(p, e)
  {
    match e
    case Lock(w) => Put(p, w, Holding)
    case CheckStop(w) => Put(p, w, if p.stop && p.tasks == [] then Exited else PastStop)
    case PopOrWait(w) =>
      if !p.paused && p.tasks != [] then
        Put(p, w, Running(p.tasks[0])).(tasks := p.tasks[1..], popped := p.popped + [p.tasks[0]])
      else
        Put(p, w, Waiting)
    case Wake(w) => Put(p, w, Holding)
    case Finish(w) => Put(p, w, Starting).(finished := p.finished + {p.workers[w].job})
    case Panic(w) => Put(p, w, Starting).(panicked := p.panicked + {p.workers[w].job})
    case Enqueue => p.(tasks := p.tasks + [p.pushed], pushed := p.pushed + 1)
    case Stop =>
      if p.stop then p else p.(stop := true, stopper := Joining(0), pushedBeforeStop := p.pushed)
    case Join =>
      if p.stopper.next < |p.workers| then p.(stopper := Joining(p.stopper.next + 1)) else p.(stopper := Returned)
    case Pause => p.(paused := true)
    case Resume => p.(paused := false)
    case Clear => p.(tasks := [], cleared := p.cleared + Elements(p.tasks))
  }

  /** The pool after `events`; an event that is not enabled cannot happen and changes nothing. */
  function After(threads: nat, events: seq<Event>): Pool {
    if events == [] then NewPool(threads)
    else
      var p := After(threads, events[..|events| - 1]);
      if Enabled(p, events[|events| - 1]) then Step(p, events[|events| - 1]) else p
  }

  // ---------- where a job is ----------

  predicate IsRunning(p: Pool, j: Job) {
    exists w :: 0 <= w < |p.workers| && p.workers[w] == Running(j)
  }

  predicate Done(p: Pool, j: Job) {
    j in p.finished || j in p.panicked
  }

  /** Every pushed job is in one place, and no job is anywhere else. */
  ghost predicate Placed(p: Pool) {
    && (forall j: Job | j in p.tasks || IsRunning(p, j) || Done(p, j) || j in p.cleared :: j < p.pushed)
    && (forall j: Job | j < p.pushed :: j in p.tasks || IsRunning(p, j) || Done(p, j) || j in p.cleared)
    && (forall j: Job | j in p.tasks :: !IsRunning(p, j) && !Done(p, j) && j !in p.cleared)
    && (forall j: Job | IsRunning(p, j) :: !Done(p, j) && j !in p.cleared)
    && (forall j: Job | Done(p, j) :: j !in p.cleared)
    && p.finished !! p.panicked
    && (forall v, w :: 0 <= v < w < |p.workers| && p.workers[v].Running? && p.workers[w].Running? ==>
          p.workers[v].job != p.workers[w].job)
  }

  /** The queue is in push order, and everything popped was pushed before everything queued. */
  ghost predicate Ordered(p: Pool) {
    && Increasing(p.tasks)
    && Increasing(p.popped)
    && (forall a, b :: 0 <= a < |p.popped| && 0 <= b < |p.tasks| ==> p.popped[a] < p.tasks[b])
    && (forall a :: 0 <= a < |p.popped| ==> p.popped[a] < p.pushed)
    && (forall a :: 0 <= a < |p.tasks| ==> p.tasks[a] < p.pushed)
  }

  /** What is popped is what runs or has run. */
  ghost predicate PoppedRan(p: Pool) {
    forall j: Job :: j in p.popped <==> IsRunning(p, j) || Done(p, j)
  }

  /** Workers leave only once stopping, and then nothing pushed before the stop is queued any more. */
  ghost predicate Stopping(p: Pool) {
    && (!p.stop <==> p.stopper.NotStopped?)
    && (p.stop ==> p.pushedBeforeStop <= p.pushed)
    && ((exists w :: 0 <= w < |p.workers| && p.workers[w].Exited?) ==>
          p.stop && forall j | j in p.tasks :: j >= p.pushedBeforeStop)
    && (p.stopper.Joining? ==>
          p.stopper.next <= |p.workers| && forall w :: 0 <= w < p.stopper.next ==> p.workers[w].Exited?)
    && (p.stopper.Returned? ==> forall w :: 0 <= w < |p.workers| ==> p.workers[w].Exited?)
  }

  ghost predicate OneHolder(p: Pool) {
    forall v, w :: 0 <= v < w < |p.workers| ==> !(HoldsMutex(p.workers[v]) && HoldsMutex(p.workers[w]))
  }

  ghost predicate Ok(p: Pool) {
    |p.workers| > 0 && OneHolder(p) && Placed(p) && Ordered(p) && PoppedRan(p) && Stopping(p)
  }

  // ---------- every step keeps it ----------

  predicate QuietEvent(p: Pool, e: Event)
    requires Enabled(p, e)
  {
    match e
    case Lock(_) => true
    case CheckStop(_) => true
    case PopOrWait(_) => p.paused || p.tasks == []
    case Wake(_) => true
    case Stop => true
    case Join => true
    case Pause => true
    case Resume => true
    case _ => false
  }

  /** Events that move no job leave the set of running jobs as it is. */
  lemma QuietKeepsRunning(p: Pool, e: Event, j: Job)
    requires Enabled(p, e) && QuietEvent(p, e)
    ensures IsRunning(Step(p, e), j) <==> IsRunning(p, j)
  {
    var q := Step(p, e);
    if w :| 0 <= w < |p.workers| && p.workers[w] == Running(j) {
      assert q.workers[w] == Running(j);
    }
    if w :| 0 <= w < |q.workers| && q.workers[w] == Running(j) {
      assert p.workers[w] == Running(j);
    }
  }

  lemma QuietKeepsPlaces(p: Pool, e: Event)
    requires Placed(p) && PoppedRan(p) && Enabled(p, e) && QuietEvent(p, e)
    ensures Placed(Step(p, e)) && PoppedRan(Step(p, e))
  {
    var q := Step(p, e);
    forall j: Job
      ensures IsRunning(q, j) <==> IsRunning(p, j)
      ensures Done(q, j) <==> Done(p, j)
    {
      QuietKeepsRunning(p, e, j);
    }
    hide IsRunning, Done;
    forall v, w | 0 <= v < w < |q.workers| && q.workers[v].Running? && q.workers[w].Running?
      ensures q.workers[v].job != q.workers[w].job
    {
      assert p.workers[v] == q.workers[v] && p.workers[w] == q.workers[w];
    }
  }

  lemma QuietKeepsHolder(p: Pool, e: Event)
    requires OneHolder(p) && Enabled(p, e) && QuietEvent(p, e)
    ensures OneHolder(Step(p, e))
  {}

  lemma QuietKeepsOrder(p: Pool, e: Event)
    requires Ordered(p) && Enabled(p, e) && QuietEvent(p, e)
    ensures Ordered(Step(p, e))
  {
    var q := Step(p, e);
    assert q.tasks == p.tasks && q.popped == p.popped && q.pushed == p.pushed;
    hide Step, Enabled, Increasing;
  }

  lemma QuietKeepsStop(p: Pool, e: Event)
    requires |p.workers| > 0 && Ordered(p) && Stopping(p) && Enabled(p, e) && QuietEvent(p, e)
    ensures |Step(p, e).workers| > 0 && Stopping(Step(p, e))
  {
    hide Increasing;
  }

  lemma QuietKeepsOk(p: Pool, e: Event)
    requires Ok(p) && Enabled(p, e) && QuietEvent(p, e)
    ensures Ok(Step(p, e))
  {
    hide Placed, PoppedRan, OneHolder, Ordered, Stopping, Step;
    QuietKeepsPlaces(p, e);
    QuietKeepsHolder(p, e);
    QuietKeepsOrder(p, e);
    QuietKeepsStop(p, e);
  }

  lemma PopKeepsPlaces(p: Pool, w: nat)
    requires Ok(p) && Enabled(p, PopOrWait(w)) && !p.paused && p.tasks != []
    ensures Placed(Step(p, PopOrWait(w))) && PoppedRan(Step(p, PopOrWait(w)))
  {
    var q, head := Step(p, PopOrWait(w)), p.tasks[0];
    forall j: Job
      ensures IsRunning(q, j) <==> IsRunning(p, j) || j == head
      ensures j in q.tasks <==> j in p.tasks && j != head
      ensures j in q.popped <==> j in p.popped || j == head
      ensures Done(q, j) <==> Done(p, j)
    {
      PopMovesHead(p, w, j);
    }
    assert head in p.tasks;
    forall v | 0 <= v < |q.workers| && v != w && q.workers[v].Running?
      ensures q.workers[v].job != head
    {
      assert p.workers[v] == q.workers[v];
      assert IsRunning(p, q.workers[v].job);
    }
    hide IsRunning, Done, Ordered, Stopping, OneHolder;
    assert Placed(q);
  }

  lemma PopKeepsStopping(p: Pool, w: nat)
    requires Ok(p) && Enabled(p, PopOrWait(w)) && !p.paused && p.tasks != []
    ensures var q := Step(p, PopOrWait(w)); |q.workers| > 0 && OneHolder(q) && Ordered(q) && Stopping(q)
  {
    hide Placed, PoppedRan;
    var q := Step(p, PopOrWait(w));
    forall j: Job | j in q.tasks
      ensures j in p.tasks
    {
    }
    forall v | 0 <= v < |q.workers| && q.workers[v].Exited?
      ensures p.workers[v].Exited?
    {
    }
  }

  lemma PopKeepsOk(p: Pool, w: nat)
    requires Ok(p) && Enabled(p, PopOrWait(w)) && !p.paused && p.tasks != []
    ensures Ok(Step(p, PopOrWait(w)))
  {
    PopKeepsPlaces(p, w);
    PopKeepsStopping(p, w);
    hide Placed, PoppedRan, OneHolder, Ordered, Stopping, Step;
  }

  lemma PopMovesHead(p: Pool, w: nat, j: Job)
    requires Ok(p) && Enabled(p, PopOrWait(w)) && !p.paused && p.tasks != []
    ensures var q := Step(p, PopOrWait(w));
            && (IsRunning(q, j) <==> IsRunning(p, j) || j == p.tasks[0])
            && (j in q.tasks <==> j in p.tasks && j != p.tasks[0])
            && (j in q.popped <==> j in p.popped || j == p.tasks[0])
  {
    var q := Step(p, PopOrWait(w));
    assert q.workers[w] == Running(p.tasks[0]);
    if v :| 0 <= v < |p.workers| && p.workers[v] == Running(j) {
      assert q.workers[v] == Running(j);
    }
    if v :| 0 <= v < |q.workers| && v != w && q.workers[v] == Running(j) {
      assert p.workers[v] == Running(j);
    }
    assert p.tasks == [p.tasks[0]] + q.tasks;
  }

  lemma EndKeepsOk(p: Pool, w: nat, e: Event)
    requires Ok(p) && (e == Finish(w) || e == Panic(w)) && Enabled(p, e)
    ensures Ok(Step(p, e))
  {
    var q, job := Step(p, e), p.workers[w].job;
    forall j: Job
      ensures IsRunning(q, j) <==> IsRunning(p, j) && j != job
      ensures Done(q, j) <==> Done(p, j) || j == job
    {
      EndMovesJob(p, w, e, j);
    }
    assert IsRunning(p, job);
    assert Placed(q);
    assert Stopping(q);
  }

  lemma EndMovesJob(p: Pool, w: nat, e: Event, j: Job)
    requires Ok(p) && (e == Finish(w) || e == Panic(w)) && Enabled(p, e)
    ensures var q, job := Step(p, e), p.workers[w].job;
            && (IsRunning(q, j) <==> IsRunning(p, j) && j != job)
            && (Done(q, j) <==> Done(p, j) || j == job)
  {
    var q := Step(p, e);
    if v :| 0 <= v < |p.workers| && p.workers[v] == Running(j) && v != w {
      assert q.workers[v] == Running(j);
    }
    if v :| 0 <= v < |q.workers| && q.workers[v] == Running(j) {
      assert p.workers[v] == Running(j);
    }
  }

  lemma EnqueueKeepsOk(p: Pool)
    requires Ok(p) && Enabled(p, Enqueue)
    ensures Ok(Step(p, Enqueue))
  {
    var q := Step(p, Enqueue);
    forall j: Job
      ensures IsRunning(q, j) <==> IsRunning(p, j)
      ensures Done(q, j) <==> Done(p, j)
      ensures j in q.tasks <==> j in p.tasks || j == p.pushed
    {
      assert q.workers == p.workers;
    }
    assert Placed(q);
    assert Stopping(q);
  }

  lemma ClearKeepsOk(p: Pool)
    requires Ok(p) && Enabled(p, Clear)
    ensures Ok(Step(p, Clear))
  {
    var q := Step(p, Clear);
    forall j: Job
      ensures IsRunning(q, j) <==> IsRunning(p, j)
      ensures Done(q, j) <==> Done(p, j)
    {
      assert q.workers == p.workers;
    }
    assert Placed(q);
  }

  lemma {:induction false} RunKeepsOk(threads: nat, events: seq<Event>)
    ensures Ok(After(threads, events))
  {
    if events == [] {
    } else {
      RunKeepsOk(threads, events[..|events| - 1]);
      var p, e := After(threads, events[..|events| - 1]), events[|events| - 1];
      if !Enabled(p, e) {
      } else if QuietEvent(p, e) {
        QuietKeepsOk(p, e);
      } else {
        match e
        case PopOrWait(w) => PopKeepsOk(p, w);
        case Finish(w) => EndKeepsOk(p, w, e);
        case Panic(w) => EndKeepsOk(p, w, e);
        case Enqueue => EnqueueKeepsOk(p);
        case Clear => ClearKeepsOk(p);
      }
    }
  }

  // ---------- main results ----------

  function Count(b: bool): nat {
    if b then 1 else 0
  }

  /** In every run a pushed job is in exactly one of five places, and runs on at most one worker. */
  lemma EveryJobIsInOnePlace(threads: nat, events: seq<Event>, j: Job)
    ensures var p := After(threads, events);
            Count(j in p.tasks) + Count(IsRunning(p, j)) + Count(j in p.finished) + Count(j in p.panicked)
            + Count(j in p.cleared) == Count(j < p.pushed)
    ensures var p := After(threads, events);
            forall v, w | 0 <= v < |p.workers| && 0 <= w < |p.workers| ::
              p.workers[v] == Running(j) && p.workers[w] == Running(j) ==> v == w
  {
    RunKeepsOk(threads, events);
  }

  /** Jobs are taken in the order in which they were pushed, and a queued job is behind all of them. */
  lemma PopsFollowPushOrder(threads: nat, events: seq<Event>)
    ensures var p := After(threads, events); Increasing(p.popped + p.tasks)
  {
    RunKeepsOk(threads, events);
  }

  /** The queue is only worked on by one thread at a time. */
  lemma MutualExclusion(threads: nat, events: seq<Event>)
    ensures OneHolder(After(threads, events))
  {
    RunKeepsOk(threads, events);
  }

  /** A panic takes the same worker back to the queue as a finished job does. */
  lemma PanicKeepsTheWorker(p: Pool, w: nat)
    requires Enabled(p, Panic(w))
    ensures Step(p, Panic(w)).workers == Step(p, Finish(w)).workers
    ensures Step(p, Panic(w)).workers[w].Starting?
  {}

  function Calm(e: Event): Event {
    if e.Panic? then Finish(e.w) else e
  }

  /** The same events, with every job that panics running to its end instead. */
  function Calmed(events: seq<Event>): (calm: seq<Event>)
    ensures |calm| == |events|
  {
    if events == [] then [] else Calmed(events[..|events| - 1]) + [Calm(events[|events| - 1])]
  }

  function WithoutPanics(p: Pool): Pool {
    p.(finished := p.finished + p.panicked, panicked := {})
  }

  lemma StepWithoutPanics(p: Pool, e: Event)
    requires Enabled(p, e)
    ensures Enabled(WithoutPanics(p), Calm(e))
    ensures Step(WithoutPanics(p), Calm(e)) == WithoutPanics(Step(p, e))
  {
    if e.Panic? {
      PanicKeepsTheWorker(p, e.w);
      assert p.finished + p.panicked + {p.workers[e.w].job} == p.finished + (p.panicked + {p.workers[e.w].job});
    } else if e.Finish? {
      assert p.finished + p.panicked + {p.workers[e.w].job} == p.finished + {p.workers[e.w].job} + p.panicked;
    }
  }

  /** No step reads whether a job panicked, so but for that label a run with panics is the run without them. */
  lemma {:induction false} PanicsAreIsolated(threads: nat, events: seq<Event>)
    ensures After(threads, Calmed(events)) == WithoutPanics(After(threads, events))
  {
    if events != [] {
      var before, e := events[..|events| - 1], events[|events| - 1];
      PanicsAreIsolated(threads, before);
      assert Calmed(events)[..|events| - 1] == Calmed(before);
      var p := After(threads, before);
      assert Enabled(WithoutPanics(p), Calm(e)) == Enabled(p, e);
      hide Step, Enabled, WithoutPanics;
      if Enabled(p, e) {
        StepWithoutPanics(p, e);
      }
    }
  }

  /** The pool has as many workers as it was given, and one if it was given none. */
  lemma {:induction false} WorkersAreAsMany(threads: nat, events: seq<Event>)
    ensures |After(threads, events).workers| == if threads == 0 then 1 else threads
  {
    if events != [] {
      WorkersAreAsMany(threads, events[..|events| - 1]);
    }
  }

  /** The last of the calls to pause and resume decides whether the pool is paused. */
  predicate PausedAfter(events: seq<Event>) {
    events != []
    && (match events[|events| - 1]
        case Pause => true
        case Resume => false
        case _ => PausedAfter(events[..|events| - 1]))
  }

  /** A paused pool starts no job, and a pool that is not paused starts the first in the queue when a worker looks. */
  lemma PopsExactlyUnlessPaused(threads: nat, events: seq<Event>, e: Event)
    ensures var p := After(threads, events);
            var q := After(threads, events + [e]);
            if !PausedAfter(events) && p.tasks != [] && e.PopOrWait? && Enabled(p, e) then
              q.popped == p.popped + [p.tasks[0]] && q.workers[e.w] == Running(p.tasks[0])
            else q.popped == p.popped
  {
    PausedExactly(threads, events);
    assert (events + [e])[..|events|] == events;
  }

  lemma {:induction false} PausedExactly(threads: nat, events: seq<Event>)
    ensures After(threads, events).paused <==> PausedAfter(events)
  {
    if events != [] {
      PausedExactly(threads, events[..|events| - 1]);
    }
  }

  /** The only step that removes a worker finds the stop flag set and the queue empty. */
  lemma WorkersLeaveOnlyWhenDone(p: Pool, e: Event, w: nat)
    requires Enabled(p, e) && w < |p.workers| && !p.workers[w].Exited? && Step(p, e).workers[w].Exited?
    ensures e == CheckStop(w) && p.stop && p.tasks == []
  {}

  /** When the stopping call returns, every job pushed before the flag was set has been run or cleared. */
  lemma StopDrainsTheQueue(threads: nat, events: seq<Event>, j: Job)
    requires After(threads, events).stopper.Returned? && j < After(threads, events).pushedBeforeStop
    ensures Done(After(threads, events), j) || j in After(threads, events).cleared
  {
    RunKeepsOk(threads, events);
    var p := After(threads, events);
    assert p.workers[0].Exited?;
  }

  // ---------- what a stopped pool leaves behind ----------

  predicate SomeAlive(p: Pool) {
    exists w :: 0 <= w < |p.workers| && !p.workers[w].Exited?
  }

  /** How many jobs were pushed while some worker had not exited yet. */
  function PushedAlive(threads: nat, events: seq<Event>): nat {
    if events == [] then 0
    else
      var before, e := events[..|events| - 1], events[|events| - 1];
      var p := After(threads, before);
      PushedAlive(threads, before) + Count(e.Enqueue? && Enabled(p, e) && SomeAlive(p))
  }

  /** `alive` jobs were pushed in time: only those run, and once the workers are gone the queue holds later ones. */
  ghost predicate LateOk(p: Pool, alive: nat) {
    && alive <= p.pushed
    && (SomeAlive(p) ==> alive == p.pushed)
    && (!SomeAlive(p) ==> forall j | j in p.tasks :: j >= alive)
    && (forall j: Job | Done(p, j) :: j < alive)
  }

  lemma WorkerStepKeepsLateOk(p: Pool, e: Event, w: nat, alive: nat)
    requires Ok(p) && LateOk(p, alive) && Enabled(p, e)
    requires w < |p.workers| && !p.workers[w].Exited? && Step(p, e).workers == p.workers[w := Step(p, e).workers[w]]
    requires e == Lock(w) || e == CheckStop(w) || e == PopOrWait(w) || e == Wake(w) || e == Finish(w) || e == Panic(w)
    ensures LateOk(Step(p, e), alive)
  {
    hide Ordered, PoppedRan, Stopping, OneHolder;
    assert SomeAlive(p);
    var q := Step(p, e);
    forall j: Job | Done(q, j)
      ensures j < p.pushed
    {
      if e.Finish? || e.Panic? {
        assert IsRunning(p, p.workers[w].job);
        assert Done(p, j) || j == p.workers[w].job;
      } else {
        assert Done(p, j);
      }
    }
    if !q.workers[w].Exited? {
      assert SomeAlive(q);
    }
  }

  lemma StepKeepsLateOk(p: Pool, e: Event, alive: nat)
    requires Ok(p) && LateOk(p, alive) && Enabled(p, e)
    ensures LateOk(Step(p, e), alive + Count(e.Enqueue? && SomeAlive(p)))
  {
    var q := Step(p, e);
    match e
    case Lock(w) => WorkerStepKeepsLateOk(p, e, w, alive);
    case CheckStop(w) => WorkerStepKeepsLateOk(p, e, w, alive);
    case PopOrWait(w) => WorkerStepKeepsLateOk(p, e, w, alive);
    case Wake(w) => WorkerStepKeepsLateOk(p, e, w, alive);
    case Finish(w) => WorkerStepKeepsLateOk(p, e, w, alive);
    case Panic(w) => WorkerStepKeepsLateOk(p, e, w, alive);
    case _ =>
      assert q.workers == p.workers && SomeAlive(q) == SomeAlive(p);
      assert forall j: Job :: Done(q, j) <==> Done(p, j);
  }

  lemma {:induction false} RunKeepsLateOk(threads: nat, events: seq<Event>)
    ensures LateOk(After(threads, events), PushedAlive(threads, events))
  {
    if events == [] {
      assert NewPool(threads).workers[0] == Starting;
    } else {
      var before, e := events[..|events| - 1], events[|events| - 1];
      RunKeepsLateOk(threads, before);
      RunKeepsOk(threads, before);
      var p := After(threads, before);
      hide LateOk, Ok, Step, Enabled, SomeAlive;
      if Enabled(p, e) {
        StepKeepsLateOk(p, e, PushedAlive(threads, before));
      }
    }
  }

  /**
    What the stopping call leaves: a job is still queued exactly when it was pushed after the last
    worker had exited and was not cleared, and all others that were not cleared have run.
   */
  lemma LeftInQueueExactly(threads: nat, events: seq<Event>, j: Job)
    requires After(threads, events).stopper.Returned? && j < After(threads, events).pushed
    ensures var p, alive := After(threads, events), PushedAlive(threads, events);
            && (j in p.tasks <==> j >= alive && j !in p.cleared)
            && (Done(p, j) <==> j < alive && j !in p.cleared)
  {
    RunKeepsOk(threads, events);
    RunKeepsLateOk(threads, events);
    var p := After(threads, events);
    hide After, PushedAlive;
    assert !SomeAlive(p) && !IsRunning(p, j);
  }

  lemma ReturnedStays(p: Pool, e: Event)
    requires Stopping(p) && p.stopper.Returned? && Enabled(p, e)
    ensures Step(p, e).stopper.Returned? && !SomeAlive(p) && Step(p, e).pushed >= p.pushed
  {}

  lemma RunIsStopping(threads: nat, events: seq<Event>)
    ensures Stopping(After(threads, events)) && |After(threads, events).workers| > 0
  {
    RunKeepsOk(threads, events);
    hide Placed, Ordered, PoppedRan, OneHolder, Stopping;
  }

  lemma {:induction false} ReturnedForGood(threads: nat, events: seq<Event>, more: seq<Event>)
    requires After(threads, events).stopper.Returned?
    ensures After(threads, events + more).stopper.Returned?
    ensures PushedAlive(threads, events + more) == PushedAlive(threads, events)
    ensures After(threads, events + more).pushed >= After(threads, events).pushed
    decreases |more|
  {
    hide Step, Enabled, SomeAlive, Stopping;
    if more == [] {
      assert events + more == events;
    } else {
      var before, e := events + more[..|more| - 1], more[|more| - 1];
      ReturnedForGood(threads, events, more[..|more| - 1]);
      assert (events + more)[..|events + more| - 1] == before && (events + more)[|events + more| - 1] == e;
      RunIsStopping(threads, before);
      if Enabled(After(threads, before), e) {
        ReturnedStays(After(threads, before), e);
      }
    }
  }

  /** ... and it stays there for good: in no continuation is it ever run, only cleared. */
  lemma LeftForGood(threads: nat, events: seq<Event>, more: seq<Event>, j: Job)
    requires After(threads, events).stopper.Returned? && j in After(threads, events).tasks
    ensures var p := After(threads, events + more); !Done(p, j) && (j in p.tasks || j in p.cleared)
  {
    RunKeepsOk(threads, events);
    assert j < After(threads, events).pushed;
    LeftInQueueExactly(threads, events, j);
    ReturnedForGood(threads, events, more);
    hide After, PushedAlive, Done;
    LeftInQueueExactly(threads, events + more, j);
  }

  /**
    The stopping call borrows the pool mutably, so nothing else is called on it until it returns:
    no job is pushed between the flag and the return.
   */
  predicate Exclusive(threads: nat, events: seq<Event>) {
    events == []
    || (Exclusive(threads, events[..|events| - 1])
        && !(events[|events| - 1].Enqueue? && After(threads, events[..|events| - 1]).stopper.Joining?))
  }

  /** The jobs that were pushed in time: before the flag if it is set, all of them otherwise. */
  function InTime(p: Pool): nat {
    if p.stop then p.pushedBeforeStop else p.pushed
  }

  lemma StepPushesInTime(p: Pool, e: Event)
    requires Stopping(p) && |p.workers| > 0 && Enabled(p, e) && !(e.Enqueue? && p.stopper.Joining?)
    ensures InTime(Step(p, e)) == InTime(p) + Count(e.Enqueue? && SomeAlive(p))
  {
    if !p.stop {
      assert !p.workers[0].Exited?;
    }
  }

  lemma {:induction false} PushedInTimeExactly(threads: nat, events: seq<Event>)
    requires Exclusive(threads, events)
    ensures PushedAlive(threads, events) == InTime(After(threads, events))
  {
    hide Step, Enabled, SomeAlive, Stopping;
    if events != [] {
      var before, e := events[..|events| - 1], events[|events| - 1];
      PushedInTimeExactly(threads, before);
      RunIsStopping(threads, before);
      hide InTime;
      if Enabled(After(threads, before), e) {
        StepPushesInTime(After(threads, before), e);
      }
    }
  }

  /** Under that rule a job is left in the queue exactly when it was pushed after the call and not cleared. */
  lemma ExclusiveStopExactly(threads: nat, events: seq<Event>, j: Job)
    requires Exclusive(threads, events)
    requires After(threads, events).stopper.Returned? && j < After(threads, events).pushed
    ensures var p := After(threads, events);
            && (j in p.tasks <==> j >= p.pushedBeforeStop && j !in p.cleared)
            && (Done(p, j) <==> j < p.pushedBeforeStop && j !in p.cleared)
  {
    LeftInQueueExactly(threads, events, j);
    PushedInTimeExactly(threads, events);
    RunKeepsOk(threads, events);
    hide Placed, Ordered, PoppedRan, OneHolder;
  }

  const LATE: seq<Event> := [Stop, Lock(0), CheckStop(0), Join, Join, Enqueue]

  /** A witness: a job pushed after the call has returned is left in the queue. */
  lemma LateJobsMayStayQueued()
    ensures var p := After(1, LATE); p.stopper.Returned? && p.tasks == [0] && p.workers == [Exited]
  {
    assert NewPool(1).workers == [Starting];
    var e1, e2, e3, e4, e5 := LATE[..1], LATE[..2], LATE[..3], LATE[..4], LATE[..5];
    assert e1[..0] == [] && e2[..1] == e1 && e3[..2] == e2 && e4[..3] == e3 && e5[..4] == e4 && LATE[..5] == e5;
    LateExit();
    var exited := After(1, e3);
    assert After(1, e4) == exited.(stopper := Joining(1));
    assert After(1, e5) == exited.(stopper := Returned);
  }

  lemma LateExit()
    ensures After(1, LATE[..3]) ==
            NewPool(1).(stop := true, stopper := Joining(0), workers := [Exited])
  {
    var e1, e2, e3 := LATE[..1], LATE[..2], LATE[..3];
    assert e1[..0] == [] && e2[..1] == e1 && e3[..2] == e2;
    assert NewPool(1).workers == [Starting];
    assert After(1, e1) == NewPool(1).(stop := true, stopper := Joining(0));
    assert After(1, e2) == After(1, e1).(workers := [Holding]);
  }
}
