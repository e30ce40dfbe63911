/** Reporting overflow drops and underflows to the bridge while other threads keep changing the
    pending count. The reporter holds its lock twice, once to take a snapshot and once to subtract
    it, and sends in between; new troubles and resets may fall anywhere. */
module BufferEvents {
  import opened Session

  datatype Phase = Waiting | Snapshotted(snap: Pending) | Told(snap: Pending)

  datatype Step =
    | Occur(streamId: string, amount: nat)  // refused pushes or underflows of a stream
    | Reset                                 // the output context is dropped
    | Snapshot
    | BuildFails
    | SendFails
    | SendSucceeds
    | Subtract

  /** The shared record and the reporter's position, with an observer's counts per stream. `blurred`
      are the streams whose pending count was ever thrown away, saturated or replaced. */
  datatype System = System(pending: Pending, phase: Phase, occurred: map<string, nat>,
                           told: map<string, nat>, blurred: set<string>)

  function Count(m: map<string, nat>, id: string): nat {
    if id in m then m[id] else 0
  }

  function PendingFor(y: System, id: string): nat {
    if y.pending.streamId == id then y.pending.packets else 0
  }

  const QUIET: System := System(NOTHING_PENDING, Waiting, map[], map[], {})

  /** Troubles of a stream join the pending count, which saturates and only ever counts one stream. */
  function Noted(p: Pending, id: string, amount: nat): Pending {
    var before := if p.streamId == id then p.packets else 0;
    Pending(id, if before + amount < MAX_REPORTED then before + amount else MAX_REPORTED)
  }

  /** This is what the session does on a refused push and on underflows. */
  lemma SessionNotes(t: Troubles, id: string, added: nat)
    requires t.overflow.packets <= MAX_REPORTED
    ensures NoteOverflow(t, id).overflow == Noted(t.overflow, id, 1)
    ensures NoteUnderrun(t, id, added).underrun == Noted(t.underrun, id, added)
  {
  }

  function Next(y: System, step: Step): System {
    match step
    case Occur(id, amount) =>
      if id == "" || amount == 0 then y
      else
        var replaced := if y.pending.streamId != id then {y.pending.streamId} else {};
        var saturated := if PendingFor(y, id) + amount > MAX_REPORTED then {id} else {};
        y.(pending := Noted(y.pending, id, amount), occurred := y.occurred[id := Count(y.occurred, id) + amount],
           blurred := y.blurred + replaced + saturated)
    case Reset => y.(pending := NOTHING_PENDING, blurred := y.blurred + {y.pending.streamId})
    case Snapshot =>
      if !y.phase.Waiting? || y.pending.streamId == "" || y.pending.packets == 0 then y
      else y.(phase := Snapshotted(y.pending))
    case BuildFails =>
      if !y.phase.Snapshotted? then y
      else if y.pending.streamId == y.phase.snap.streamId then
        y.(phase := Waiting, pending := NOTHING_PENDING, blurred := y.blurred + {y.pending.streamId})
      else y.(phase := Waiting)
    case SendFails => if y.phase.Snapshotted? then y.(phase := Waiting) else y
    case SendSucceeds =>
      if !y.phase.Snapshotted? then y
      else
        var snap := y.phase.snap;
        y.(phase := Told(snap), told := y.told[snap.streamId := Count(y.told, snap.streamId) + snap.packets])
    case Subtract =>
      if !y.phase.Told? then y
      else
        var snap := y.phase.snap;
        if y.pending.streamId != snap.streamId then y.(phase := Waiting)
        else if y.pending.packets <= snap.packets then y.(phase := Waiting, pending := NOTHING_PENDING)
        else y.(phase := Waiting, pending := y.pending.(packets := y.pending.packets - snap.packets))
  }

  function NextAll(y: System, steps: seq<Step>): System
    decreases |steps|
  {
    if steps == [] then y else NextAll(Next(y, steps[0]), steps[1..])
  }

  /** How far the books of one stream may be apart at each point of the reporter. */
  predicate Bounded(y: System, id: string) {
    var (told, pending, occurred) := (Count(y.told, id), PendingFor(y, id), Count(y.occurred, id));
    match y.phase
    case Snapshotted(snap) =>
      if snap.streamId != id then told + pending <= occurred
      else (pending >= snap.packets && told + pending <= occurred) || told + snap.packets + pending <= occurred
    case Told(snap) =>
      if snap.streamId != id then told + pending <= occurred
      else (pending >= snap.packets && told - snap.packets + pending <= occurred && told <= occurred)
           || told + pending <= occurred
    case Waiting => told + pending <= occurred
  }

  predicate Exact(y: System, id: string) {
    var (told, pending, occurred) := (Count(y.told, id), PendingFor(y, id), Count(y.occurred, id));
    if y.phase.Told? && y.phase.snap.streamId == id then
      told + pending == occurred + y.phase.snap.packets && pending >= y.phase.snap.packets
    else
      told + pending == occurred
      && (y.phase.Snapshotted? && y.phase.snap.streamId == id ==> pending >= y.phase.snap.packets)
  }

  predicate Books(y: System, id: string) {
    && id != ""
    && (y.pending.streamId == "" ==> y.pending.packets == 0)
    && y.pending.packets <= MAX_REPORTED
    && (!y.phase.Waiting? ==> y.phase.snap.streamId != "" && y.phase.snap.packets > 0)
    && Bounded(y, id)
    && (id !in y.blurred ==> Exact(y, id))
  }

  lemma StepKeepsBooks(y: System, step: Step, id: string)
    requires Books(y, id)
    ensures Books(Next(y, step), id)
  {
    match step
    case Occur(other, amount) => OccurKeepsBooks(y, other, amount, id);
    case Subtract => SubtractKeepsBooks(y, id);
    case _ =>
  }

  lemma OccurKeepsBooks(y: System, other: string, amount: nat, id: string)
    requires Books(y, id)
    ensures Books(Next(y, Occur(other, amount)), id)
  {
  }

  lemma SubtractKeepsBooks(y: System, id: string)
    requires Books(y, id)
    ensures Books(Next(y, Subtract), id)
  {
  }

  lemma {:induction false} RunKeepsBooks(y: System, steps: seq<Step>, id: string)
    requires Books(y, id)
    ensures Books(NextAll(y, steps), id)
    decreases |steps|
  {
    if steps != [] {
      StepKeepsBooks(y, steps[0], id);
      RunKeepsBooks(Next(y, steps[0]), steps[1..], id);
    }
  }

  /** Over every interleaving, what is reported for a stream never exceeds what occurred. */
  lemma ReportsNeverExceedDrops(steps: seq<Step>, id: string)
    requires id != ""
    ensures var y := NextAll(QUIET, steps); Count(y.told, id) <= Count(y.occurred, id)
  {
    RunKeepsBooks(QUIET, steps, id);
  }

  /** And for a stream whose pending count was never dropped, saturated or replaced, nothing is
      lost: between reports, what was told and what is pending are together exactly what occurred. */
  lemma ReportsLoseNothing(steps: seq<Step>, id: string)
    requires var y := NextAll(QUIET, steps); id != "" && id !in y.blurred && y.phase.Waiting?
    ensures var y := NextAll(QUIET, steps);
      Count(y.told, id) + PendingFor(y, id) == Count(y.occurred, id)
  {
    RunKeepsBooks(QUIET, steps, id);
  }

  /** A report that goes out tells the bridge all that was pending when it began, and leaves pending
      exactly what occurred since, if nothing else changed the count meanwhile. */
  lemma ReportTellsAll(y: System, amount: nat)
    requires y.phase.Waiting? && y.pending.streamId != "" && 0 < y.pending.packets
    requires y.pending.packets + amount <= MAX_REPORTED
    ensures var id := y.pending.streamId;
      var t := NextAll(y, [Snapshot, Occur(id, amount), SendSucceeds, Subtract]);
      && Count(t.told, id) == Count(y.told, id) + y.pending.packets
      && PendingFor(t, id) == amount && t.phase.Waiting?
  {
    var id := y.pending.streamId;
    var (y1, steps) := (Next(y, Snapshot), [Occur(id, amount), SendSucceeds, Subtract]);
    assert [Snapshot, Occur(id, amount), SendSucceeds, Subtract][1..] == steps;
    assert steps[1..] == [SendSucceeds, Subtract] && [SendSucceeds, Subtract][1..] == [Subtract] && [Subtract][1..] == [];
    var y2 := Next(y1, Occur(id, amount));
    assert NextAll(y1, steps) == NextAll(y2, [SendSucceeds, Subtract]);
    assert NextAll(y2, [SendSucceeds, Subtract]) == NextAll(Next(y2, SendSucceeds), [Subtract]);
  }

  /** A report nothing interferes with is the report the session model makes in one step. */
  lemma UninterruptedReport(cfg: Config, s: State, y: System, attempt: Attempt)
    requires y.phase.Waiting? && MaySendEvent(cfg, s)
    ensures var outcome := match attempt case BuildFailed => [BuildFails] case SendFailed => [SendFails]
                                         case Sent => [SendSucceeds, Subtract];
      NextAll(y, [Snapshot] + outcome).pending == ReportPending(cfg, s, y.pending, attempt).0
  {
    var y1 := Next(y, Snapshot);
    match attempt
    case BuildFailed =>
      assert ([Snapshot] + [BuildFails])[1..] == [BuildFails];
      assert NextAll(y1, [BuildFails]) == Next(y1, BuildFails);
    case SendFailed =>
      assert ([Snapshot] + [SendFails])[1..] == [SendFails];
      assert NextAll(y1, [SendFails]) == Next(y1, SendFails);
    case Sent =>
      assert ([Snapshot] + [SendSucceeds, Subtract])[1..] == [SendSucceeds, Subtract];
      assert [SendSucceeds, Subtract][1..] == [Subtract];
      assert NextAll(Next(y1, SendSucceeds), [Subtract]) == Next(Next(y1, SendSucceeds), Subtract);
  }
}
