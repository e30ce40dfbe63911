/** The callback queue between the socket tasks and the thread that owns the client, as a step
    relation. The owner runs connect, close and poll; each connection has a worker; socket tasks and
    workers enqueue callbacks tagged with the generation of their connection. */
module Transport {
  const MAX_PENDING: nat := 256

  datatype Entry = Entry(id: nat, generation: nat, openOnly: bool)

  /** A callback that ran, with the generation at that moment and whether a close() was in force. */
  datatype Execution = Execution(entry: Entry, generation: nat, closed: bool)

  /** The last close(): how many callbacks had been queued by then, the generation it closed, and
      whether a connect() since then failed before it took a generation. */
  datatype Closing = NeverClosed | Closed(queued: nat, generation: nat, refused: bool)

  /** Where the owner is inside connect(). */
  datatype Connecting = NotConnecting | Claimed | Opened | Tagged(generation: nat)

  /** Where the owner is inside poll(). */
  datatype Polling = NotPolling | FlagTaken | Draining

  datatype State = State(
    running: bool,            // connectionRunning_
    closeRequested: bool,
    shuttingDown: bool,
    generation: nat,          // connectionGeneration_
    pending: seq<Entry>,
    overflow: bool,           // pendingCallbackOverflow_
    connecting: Connecting,
    polling: Polling,
    batch: seq<Entry>,        // entries poll() has taken and not looked at yet
    bodies: multiset<nat>,    // generations of the connection workers now running
    enqueued: seq<Entry>,     // observer: everything ever queued
    executed: seq<Execution>, // observer: everything ever run
    closing: Closing,         // observer: the last close()
    unreported: nat,          // observer: drops since a poll last looked at the overflow flag
    errors: nat)              // observer: overflow errors reported by polls

  const INITIAL: State :=
    State(false, false, false, 0, [], false, NotConnecting, NotPolling, [], multiset{}, [], [], NeverClosed, 0, 0)

  datatype Step =
    | ConnectCall             // claim the right to connect, or return at once
    | ConnectOpen             // join the previous worker, clear the close request
    | ConnectTag              // take the next generation
    | ConnectSpawn            // start the worker
    | ConnectFail             // the thread could not be configured or created
    | CloseCall
    | ShutDown
    | PollFlag                // look at the overflow flag, report it
    | PollSwap                // take the queue
    | PollOne                 // look at the next taken entry
    | Enqueue(generation: nat, openOnly: bool)
    | WorkerEnds(generation: nat)

  /** The owner is free to act: it is not inside connect(). */
  predicate OwnerFree(s: State) {
    s.connecting.NotConnecting?
  }

  /** The last close() is in force: since then no generation was taken, and no connect() got as far
      as failing to take one. */
  predicate InForce(s: State) {
    s.closing.Closed? && s.closing.generation == s.generation && !s.closing.refused
  }

  predicate Runnable(s: State, e: Entry) {
    e.generation == s.generation && !s.shuttingDown && !(e.openOnly && s.closeRequested)
  }

  /** Whether a step can happen now. Any task of any connection started so far may enqueue. */
  predicate Enabled(s: State, step: Step) {
    match step
    case ConnectCall => OwnerFree(s)
    case ConnectOpen => s.connecting.Claimed? && s.bodies == multiset{}
    case ConnectTag => s.connecting.Opened?
    case ConnectSpawn => s.connecting.Tagged?
    case ConnectFail => s.connecting.Opened? || s.connecting.Tagged?
    case CloseCall => OwnerFree(s)
    case ShutDown => OwnerFree(s)
    case PollFlag => OwnerFree(s) && s.polling.NotPolling?
    case PollSwap => OwnerFree(s) && s.polling.FlagTaken?
    case PollOne => OwnerFree(s) && s.polling.Draining?
    case Enqueue(generation, _) => generation <= s.generation
    case WorkerEnds(generation) => generation in s.bodies
  }

  function Put(s: State, generation: nat, openOnly: bool): State {
    if |s.pending| >= MAX_PENDING then s.(overflow := true, unreported := s.unreported + 1)
    else
      var e := Entry(|s.enqueued|, generation, openOnly);
      s.(pending := s.pending + [e], enqueued := s.enqueued + [e])
  }

  function Next(s: State, step: Step): State
    requires Enabled(s, step)
  {
    match step
    case ConnectCall => if s.running then s else s.(running := true, connecting := Claimed)
    case ConnectOpen => s.(closeRequested := false, connecting := Opened)
    case ConnectTag => s.(generation := s.generation + 1, connecting := Tagged(s.generation + 1))
    case ConnectSpawn =>
      s.(bodies := s.bodies + multiset{s.connecting.generation}, connecting := NotConnecting)
    case ConnectFail =>
      s.(running := false, connecting := NotConnecting,
         closing := if s.connecting.Opened? && s.closing.Closed? then s.closing.(refused := true) else s.closing)
    case CloseCall => s.(closeRequested := true, closing := Closed(|s.enqueued|, s.generation, false))
    case ShutDown => s.(shuttingDown := true)
    case PollFlag =>
      s.(polling := FlagTaken, overflow := false, unreported := 0,
         errors := if s.overflow then s.errors + 1 else s.errors)
    case PollSwap => s.(polling := Draining, batch := s.pending, pending := [])
    case PollOne =>
      if s.batch == [] then s.(polling := NotPolling)
      else
        var e := s.batch[0];
        var rest := s.(batch := s.batch[1..]);
        if Runnable(s, e) then
          rest.(executed := s.executed + [Execution(e, s.generation, InForce(s))])
        else rest
    case Enqueue(generation, openOnly) => Put(s, generation, openOnly)
    case WorkerEnds(generation) => s.(bodies := s.bodies - multiset{generation}, running := false)
  }

  /** A run: steps that were not possible when their turn came are left out of it. */
  function Run(steps: seq<Step>): State {
    if steps == [] then INITIAL
    else
      var s := Run(steps[..|steps| - 1]);
      var step := steps[|steps| - 1];
      if Enabled(s, step) then Next(s, step) else s
  }

  // ----- Invariants -----------------------------------------------------------------------------

  /** Queued entries are the ones recorded, in the order they were enqueued. */
  predicate Ordered(entries: seq<Entry>, enqueued: seq<Entry>) {
    && (forall i :: 0 <= i < |entries| ==> entries[i].id < |enqueued| && enqueued[entries[i].id] == entries[i])
    && (forall i, j :: 0 <= i < j < |entries| ==> entries[i].id < entries[j].id)
  }

  predicate QueueSound(s: State) {
    && Ordered(s.batch + s.pending, s.enqueued)
    && |s.pending| <= MAX_PENDING && |s.batch| <= MAX_PENDING
    && (!s.polling.Draining? ==> s.batch == [])
  }

  predicate ExecutionsSound(s: State) {
    && (forall i :: 0 <= i < |s.executed| ==> ExecutionSound(s, s.executed[i]))
    && (forall i, j :: 0 <= i < j < |s.executed| ==>
          s.executed[i].entry.id < s.executed[j].entry.id
          && s.executed[i].generation <= s.executed[j].generation)
    && (forall i, j :: 0 <= i < |s.executed| && 0 <= j < |s.batch + s.pending| ==>
          s.executed[i].entry.id < (s.batch + s.pending)[j].id)
  }

  predicate ExecutionSound(s: State, x: Execution) {
    && x.entry.id < |s.enqueued| && s.enqueued[x.entry.id] == x.entry
    && x.entry.generation == x.generation <= s.generation
    && !(x.entry.openOnly && x.closed)
  }

  predicate WorkersSound(s: State) {
    && (s.connecting.NotConnecting? ==> |s.bodies| == if s.running then 1 else 0)
    && (!s.connecting.NotConnecting? ==> s.running && s.bodies == multiset{})
    && (s.overflow <==> s.unreported > 0)
  }

  /** The close request is the last close() being in force, except inside connect(), which withdraws
      it first. */
  predicate ClosingSound(s: State) {
    && (s.connecting.NotConnecting? || s.connecting.Claimed? ==> (s.closeRequested <==> InForce(s)))
    && (s.connecting.Opened? || s.connecting.Tagged? ==> !s.closeRequested)
    && (s.connecting.Tagged? && s.closing.Closed? ==> s.closing.generation < s.generation)
    && (forall i :: 0 <= i < |s.enqueued| ==> s.enqueued[i].generation <= s.generation)
    && (s.closing.Closed? ==>
          && s.closing.generation <= s.generation && s.closing.queued <= |s.enqueued|
          && forall i :: 0 <= i < s.closing.queued ==> s.enqueued[i].generation <= s.closing.generation)
  }

  predicate Inv(s: State) {
    QueueSound(s) && ExecutionsSound(s) && WorkersSound(s) && ClosingSound(s)
  }

  lemma PutSound(s: State, generation: nat, openOnly: bool)
    requires Inv(s) && generation <= s.generation
    ensures Inv(Put(s, generation, openOnly))
  {
    var t := Put(s, generation, openOnly);
    if |s.pending| < MAX_PENDING {
      var e := Entry(|s.enqueued|, generation, openOnly);
      assert t.batch + t.pending == (s.batch + s.pending) + [e];
    }
  }

  /** Running the oldest taken entry keeps the order of executions. */
  lemma ExecuteSound(s: State, t: State)
    requires Inv(s) && OwnerFree(s) && s.batch != [] && Runnable(s, s.batch[0])
    requires t == s.(batch := s.batch[1..], executed := s.executed + [Execution(s.batch[0], s.generation, InForce(s))])
    ensures ExecutionsSound(t)
  {
    var queue := s.batch + s.pending;
    assert queue[0] == s.batch[0];
    assert t.batch + t.pending == queue[1..];
    forall i | 0 <= i < |t.executed| ensures ExecutionSound(t, t.executed[i]) {
      if i < |s.executed| {
        assert ExecutionSound(s, s.executed[i]);
      }
    }
    forall i | 0 <= i < |s.executed|
      ensures s.executed[i].entry.id < s.batch[0].id && s.executed[i].generation <= s.generation
    {
      assert ExecutionSound(s, s.executed[i]);
      assert s.executed[i].entry.id < queue[0].id;
    }
  }

  /** Skipping it keeps everything. */
  lemma SkipSound(s: State, t: State)
    requires Inv(s) && s.batch != [] && t == s.(batch := s.batch[1..])
    ensures Inv(t)
  {
    var queue := s.batch + s.pending;
    assert t.batch + t.pending == queue[1..];
    assert s.polling.Draining?;
    forall i | 0 <= i < |t.executed| ensures ExecutionSound(t, t.executed[i]) {
      assert ExecutionSound(s, s.executed[i]);
    }
  }

  lemma PollOneSound(s: State)
    requires Inv(s) && Enabled(s, PollOne)
    ensures Inv(Next(s, PollOne))
  {
    if s.batch != [] {
      var skipped := s.(batch := s.batch[1..]);
      SkipSound(s, skipped);
      if Runnable(s, s.batch[0]) {
        ExecuteSound(s, Next(s, PollOne));
      }
    }
  }

  lemma NextSound(s: State, step: Step)
    requires Inv(s) && Enabled(s, step)
    ensures Inv(Next(s, step))
  {
    match step
    case Enqueue(generation, openOnly) => PutSound(s, generation, openOnly);
    case PollOne => PollOneSound(s);
    case PollSwap =>
      assert [] + s.pending == s.pending + [];
    case _ =>
      var t := Next(s, step);
      assert t.batch == s.batch && t.pending == s.pending && t.executed == s.executed;
      assert QueueSound(t);
  }

  lemma {:induction false} RunSound(steps: seq<Step>)
    ensures Inv(Run(steps))
    decreases |steps|
  {
    if steps != [] {
      RunSound(steps[..|steps| - 1]);
      var s := Run(steps[..|steps| - 1]);
      var step := steps[|steps| - 1];
      if Enabled(s, step) {
        NextSound(s, step);
      }
    }
  }

  // ----- Main results ---------------------------------------------------------------------------

  /** Over every interleaving the callbacks that run are a subsequence of those queued, in the order
      they were queued, and their generations never go back. */
  lemma CallbacksRunInOrder(steps: seq<Step>, i: nat, j: nat)
    requires i < j < |Run(steps).executed|
    ensures var s := Run(steps); var (a, b) := (s.executed[i], s.executed[j]);
      && a.entry.id < b.entry.id < |s.enqueued|
      && s.enqueued[a.entry.id] == a.entry && s.enqueued[b.entry.id] == b.entry
      && a.entry.generation <= b.entry.generation
  {
    RunSound(steps);
  }

  /** A callback only runs in the generation it was tagged with, and one that needs an open
      connection never runs while a close() is in force. */
  lemma CallbacksRunInTheirConnection(steps: seq<Step>, i: nat)
    requires i < |Run(steps).executed|
    ensures var x := Run(steps).executed[i];
      x.entry.generation == x.generation && (x.entry.openOnly ==> !x.closed)
  {
    RunSound(steps);
  }

  /** When a callback that needs an open connection and was queued before the last close() comes up,
      it runs if and only if it belongs to the connection that was closed, no generation was taken
      since, and some connect() since then failed before taking one: such a connect() has withdrawn
      the close request and leaves it withdrawn. */
  lemma CloseStopsCallbacksExactly(steps: seq<Step>)
    requires Enabled(Run(steps), PollOne) && Run(steps).batch != []
    requires var s := Run(steps); var e := s.batch[0];
      e.openOnly && !s.shuttingDown && s.closing.Closed? && e.id < s.closing.queued
    ensures var s := Run(steps); var e := s.batch[0];
      Next(s, PollOne).executed != s.executed
      <==> e.generation == s.closing.generation == s.generation && s.closing.refused
  {
    RunSound(steps);
    var s := Run(steps);
    assert (s.batch + s.pending)[0] == s.batch[0];
  }

  /** When a taken callback comes up, it runs if and only if it belongs to the current generation,
      there is no shutdown, and either it needs no open connection, whatever close() did, or no
      close() is in force. */
  lemma CallbacksRunExactly(steps: seq<Step>)
    requires Enabled(Run(steps), PollOne) && Run(steps).batch != []
    ensures var s := Run(steps); var e := s.batch[0];
      Next(s, PollOne) == s.(batch := s.batch[1..], executed := s.executed + ExecutionOf(s, e))
  {
    RunSound(steps);
  }

  /** What running a callback adds: nothing if it is of another generation, after a shutdown, and for
      one that needs an open connection while a close() is in force. */
  function ExecutionOf(s: State, e: Entry): seq<Execution> {
    if e.generation == s.generation && !s.shuttingDown && (e.openOnly ==> !InForce(s))
    then [Execution(e, s.generation, InForce(s))] else []
  }

  /** No owner call happens: only polling, enqueueing and the ends of workers. */
  predicate Unattended(step: Step) {
    step.PollFlag? || step.PollSwap? || step.PollOne? || step.Enqueue? || step.WorkerEnds?
  }

  predicate Waits(s: State, e: Entry) {
    e in s.batch || e in s.pending
  }

  ghost predicate HasRun(s: State, e: Entry) {
    exists i :: 0 <= i < |s.executed| && s.executed[i].entry == e
  }

  /** Nothing stands against running a callback. */
  predicate Welcome(s: State, e: Entry) {
    OwnerFree(s) && e.generation == s.generation && !s.shuttingDown && (e.openOnly ==> !s.closeRequested)
  }

  lemma FateStep(s: State, step: Step, e: Entry)
    requires Inv(s) && Enabled(s, step) && Unattended(step) && Welcome(s, e) && (Waits(s, e) || HasRun(s, e))
    ensures var t := Next(s, step); Welcome(t, e) && (Waits(t, e) || HasRun(t, e))
  {
    if step.PollOne? {
      FateOfPollOne(s, e);
    } else if HasRun(s, e) {
      assert Next(s, step).executed == s.executed;
    }
    hide Inv;
  }

  lemma FateOfPollOne(s: State, e: Entry)
    requires Enabled(s, PollOne) && Welcome(s, e) && (Waits(s, e) || HasRun(s, e))
    ensures var t := Next(s, PollOne); Welcome(t, e) && (Waits(t, e) || HasRun(t, e))
  {
    var t := Next(s, PollOne);
    if HasRun(s, e) {
      var i :| 0 <= i < |s.executed| && s.executed[i].entry == e;
      assert t.executed[i].entry == e;
    } else if s.batch != [] && s.batch[0] == e {
      assert t.executed[|s.executed|].entry == e;
    } else if s.batch != [] && e in s.batch {
      var i :| 0 <= i < |s.batch| && s.batch[i] == e;
      assert t.batch[i - 1] == e;
    }
    hide InForce;
  }

  /** In every run, a callback that waits in the current generation, with no shutdown and with no
      close() in force if it needs an open connection, is not lost: whatever is enqueued, polled or
      ended afterwards, it still waits or has run, until the owner acts. */
  lemma {:induction false} CallbacksAreNotLost(steps: seq<Step>, more: seq<Step>, e: Entry)
    requires var s := Run(steps);
      && OwnerFree(s) && Waits(s, e) && e.generation == s.generation && !s.shuttingDown
      && (e.openOnly ==> !InForce(s))
    requires forall i :: 0 <= i < |more| ==> Unattended(more[i])
    ensures var t := Run(steps + more); Welcome(t, e) && (Waits(t, e) || HasRun(t, e))
    decreases |more|
  {
    RunSound(steps);
    if more == [] {
      assert steps + more == steps;
    } else {
      var (front, step) := (more[..|more| - 1], more[|more| - 1]);
      assert forall i :: 0 <= i < |front| ==> front[i] == more[i];
      CallbacksAreNotLost(steps, front, e);
      RunMore(steps, more);
      RunSound(steps + front);
      hide Run, Next, Inv, Enabled, InForce, Welcome, Waits, HasRun;
      if Enabled(Run(steps + front), step) {
        FateStep(Run(steps + front), step, e);
      }
    }
  }

  lemma RunMore(steps: seq<Step>, more: seq<Step>)
    requires more != []
    ensures var s := Run(steps + more[..|more| - 1]); var step := more[|more| - 1];
      Run(steps + more) == if Enabled(s, step) then Next(s, step) else s
  {
    RunStep(steps + more[..|more| - 1], more[|more| - 1]);
    assert steps + more == steps + more[..|more| - 1] + [more[|more| - 1]];
  }

  function Repeat(n: nat): seq<Step> {
    if n == 0 then [] else Repeat(n - 1) + [PollOne]
  }

  /** The executions of the runnable ones among some entries. */
  function Executions(s: State, entries: seq<Entry>): seq<Execution> {
    if entries == [] then []
    else Executions(s, entries[..|entries| - 1]) + ExecutionOf(s, entries[|entries| - 1])
  }

  lemma {:induction false} PollTaken(steps: seq<Step>, n: nat)
    requires Enabled(Run(steps), PollOne) && n <= |Run(steps).batch|
    ensures var s := Run(steps);
      Run(steps + Repeat(n)) == s.(batch := s.batch[n..], executed := s.executed + Executions(s, s.batch[..n]))
    decreases n
  {
    var s := Run(steps);
    if n == 0 {
      assert steps + Repeat(0) == steps && s.batch[0..] == s.batch && s.executed + [] == s.executed;
      assert s.batch[..0] == [];
    } else {
      PollTaken(steps, n - 1);
      hide Run, Next, InForce;
      var before := steps + Repeat(n - 1);
      assert steps + Repeat(n) == before + [PollOne];
      RunStep(before, PollOne);
      CallbacksRunExactly(before);
      var t := Run(before);
      assert t.batch[1..] == s.batch[n..] && t.batch[0] == s.batch[n - 1];
      assert ExecutionOf(t, t.batch[0]) == ExecutionOf(s, s.batch[n - 1]) by { SameOne(t, s, t.batch[0]); }
      hide ExecutionOf;
      ExecutionsMore(s, s.batch, n);
    }
  }

  /** A poll that nothing interferes with takes everything that is queued and runs, in order, exactly
      the callbacks of the current generation that need no open connection or find no close() in
      force. */
  lemma PollRunsAll(steps: seq<Step>)
    requires Enabled(Run(steps), PollFlag)
    ensures var s := Run(steps);
      var t := Run(steps + [PollFlag, PollSwap] + Repeat(|s.pending|) + [PollOne]);
      t.pending == [] && t.batch == [] && t.polling.NotPolling? && t.executed == s.executed + Executions(s, s.pending)
  {
    var s := Run(steps);
    PollTakes(steps);
    var taken := steps + [PollFlag, PollSwap];
    var u := Run(taken);
    PollTaken(taken, |s.pending|);
    RunStep(taken + Repeat(|s.pending|), PollOne);
    hide Run, Repeat;
    assert u.batch[..|s.pending|] == s.pending && u.batch[|s.pending|..] == [];
    SameExecutions(s, u, s.pending);
    hide Executions;
  }

  lemma PollTakes(steps: seq<Step>)
    requires Enabled(Run(steps), PollFlag)
    ensures var s := Run(steps);
      Run(steps + [PollFlag, PollSwap])
      == s.(polling := Draining, overflow := false, unreported := 0, errors := if s.overflow then s.errors + 1 else s.errors,
            batch := s.pending, pending := [])
  {
    RunStep(steps, PollFlag);
    RunStep(steps + [PollFlag], PollSwap);
    hide Run;
    assert steps + [PollFlag] + [PollSwap] == steps + [PollFlag, PollSwap];
  }

  lemma ExecutionsMore(s: State, entries: seq<Entry>, n: nat)
    requires 0 < n <= |entries|
    ensures s.executed + Executions(s, entries[..n])
         == s.executed + Executions(s, entries[..n - 1]) + ExecutionOf(s, entries[n - 1])
  {
    assert entries[..n][..n - 1] == entries[..n - 1];
    hide ExecutionOf;
  }

  lemma SameOne(s: State, t: State, e: Entry)
    requires s.generation == t.generation && s.shuttingDown == t.shuttingDown && s.closing == t.closing
    ensures ExecutionOf(s, e) == ExecutionOf(t, e)
  {
  }

  lemma {:induction false} SameExecutions(s: State, t: State, entries: seq<Entry>)
    requires s.generation == t.generation && s.shuttingDown == t.shuttingDown && s.closing == t.closing
    ensures Executions(s, entries) == Executions(t, entries)
    decreases |entries|
  {
    if entries != [] {
      SameExecutions(s, t, entries[..|entries| - 1]);
    }
  }

  /** In every run a callback is queued exactly if fewer than 256 are, and then it is the last. */
  lemma QueuedExactly(steps: seq<Step>, generation: nat, openOnly: bool)
    requires generation <= Run(steps).generation
    ensures var s := Run(steps); var t := Run(steps + [Enqueue(generation, openOnly)]);
      if |s.pending| < 256
      then t.pending == s.pending + [Entry(|s.enqueued|, generation, openOnly)] && t.overflow == s.overflow
      else t.pending == s.pending && t.overflow
  {
    RunStep(steps, Enqueue(generation, openOnly));
  }

  /** A connection with a callback queued is closed, the next connect() fails before it takes a
      generation, and a poll follows. */
  const CLOSED_THEN_REFUSED: seq<Step> :=
    [ConnectCall, ConnectOpen, ConnectTag, ConnectSpawn, Enqueue(1, true), CloseCall, WorkerEnds(1),
     ConnectCall, ConnectOpen, ConnectFail, PollFlag, PollSwap, PollOne]

  /** The callback of the closed connection then runs. */
  lemma ClosedCallbackRuns()
    ensures var s := Run(CLOSED_THEN_REFUSED);
      s.closing == Closed(1, 1, true) && s.executed == [Execution(Entry(0, 1, true), 1, false)]
  {
    hide Run;
    var steps, s := CloseWithCallback();
    steps, s := Follow(steps, s, ConnectCall);
    steps, s := Follow(steps, s, ConnectOpen);
    steps, s := Follow(steps, s, ConnectFail);
    steps, s := Follow(steps, s, PollFlag);
    steps, s := Follow(steps, s, PollSwap);
    assert s.batch == [Entry(0, 1, true)];
    steps, s := Follow(steps, s, PollOne);
    assert steps == CLOSED_THEN_REFUSED;
  }

  lemma CloseWithCallback() returns (steps: seq<Step>, s: State)
    ensures steps == CLOSED_THEN_REFUSED[..7] && s == Run(steps)
    ensures s == INITIAL.(closeRequested := true, generation := 1, pending := [Entry(0, 1, true)],
                          enqueued := [Entry(0, 1, true)], closing := Closed(1, 1, false))
  {
    RunNothing();
    hide Run;
    steps, s := Follow([], INITIAL, ConnectCall);
    steps, s := Follow(steps, s, ConnectOpen);
    steps, s := Follow(steps, s, ConnectTag);
    steps, s := Follow(steps, s, ConnectSpawn);
    steps, s := Follow(steps, s, Enqueue(1, true));
    steps, s := Follow(steps, s, CloseCall);
    steps, s := Follow(steps, s, WorkerEnds(1));
  }

  lemma RunNothing()
    ensures Run([]) == INITIAL
  {
  }

  lemma Follow(steps: seq<Step>, s: State, step: Step) returns (more: seq<Step>, t: State)
    requires s == Run(steps) && Enabled(s, step)
    ensures more == steps + [step] && t == Next(s, step) == Run(more)
  {
    more, t := steps + [step], Next(s, step);
    RunStep(steps, step);
  }

  lemma RunStep(steps: seq<Step>, step: Step)
    ensures var s := Run(steps); Run(steps + [step]) == if Enabled(s, step) then Next(s, step) else s
  {
    assert (steps + [step])[..|steps|] == steps;
  }

  /** At most one connection worker runs at any time, and both queues stay bounded. */
  lemma OneWorkerBoundedQueue(steps: seq<Step>)
    ensures var s := Run(steps);
      |s.bodies| <= 1 && |s.pending| <= MAX_PENDING && |s.batch| <= MAX_PENDING
  {
    RunSound(steps);
  }

  /** No drop goes unnoticed: whenever callbacks were dropped since a poll last looked, the next poll
      reports an error; and a poll reports nothing otherwise. */
  lemma DropsAreReported(steps: seq<Step>)
    requires Enabled(Run(steps), PollFlag)
    ensures var s := Run(steps);
      Next(s, PollFlag).errors == s.errors + (if s.unreported > 0 then 1 else 0)
  {
    RunSound(steps);
  }
}
