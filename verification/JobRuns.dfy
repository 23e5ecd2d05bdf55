/** Every interleaving of workers, cancellations, failures, duplicate deliveries and
    restarts over the job table. `process_job` is a program whose every database
    access is one atomic step. */
module JobRuns {
  import opened Wrappers
  import opened JobStatuses

  /** Where a worker is between two atomic steps of `run_once`/`process_job`. */
  datatype Pc =
    // before the claim
    | Fetched          // dequeued; about to read the row
    | Claiming         // read `queued`; about to claim
    | Recheck          // lost the claim; about to reread
    | Quarantine       // the row cannot be decoded; about to fail it while queued
    | RawCheck         // that missed; about to read the raw status
    | Repair           // the raw status is corrupt; about to fail it
    | Requeue          // transient failure; about to put the id back
    // after the claim
    | Claimed          // about to reread and register for cancellation
    | Checking         // about to look for an early cancel
    | Starting         // about to move `preparing` to `running`
    | BailOut          // that missed; about to finalize, inside the generator's handler
    | Generating       // the generator is running
    | Stopped          // it raised GenerationCancelled; about to finalize
    | Crashed          // something in there raised; about to look for a cancel
    | MarkingFailed    // about to record that failure
    | Wrapping         // the generator returned; about to look for a cancel
    | Posting          // about to move `running` to `postprocessing`
    | Succeeding       // about to commit success
    | Missed           // that missed; about to reread
    | Finalizing       // about to turn `cancel_requested` into `cancelled`
    | Resolving        // an exception after the claim; about to finalize
    | Rereading        // nothing to finalize; about to reread
    | GivingUp         // about to record the failure, last resort
  {
    predicate Owner() {
      !Fetched? && !Claiming? && !Recheck? && !Quarantine? && !RawCheck? && !Repair? && !Requeue?
    }

    /** Owns the job and has not entered its generator yet. */
    predicate BeforeGenerator() { Claimed? || Checking? || Starting? }
  }

  /** What the outside decides about one step: storage faults (an update may have
      committed before its reread raises), an undecodable row, or how the
      generator ends. */
  datatype Choice =
    | Fine
    | Fault(committed: bool)
    | Undecodable
    | GeneratorRaises
    | GeneratorStops
  {
    predicate Raises() { !Fine? }
    predicate Commits() { !Fault? || committed }
  }

  /** Effect of one step: where the worker goes (`None`: `run_once` returned), the
      row it leaves, and whether it put the id back or entered the generator. */
  datatype Effect = Effect(next: Option<Pc>, row: Row, requeues: bool, enters: bool)

  function Go(pc: Pc, row: Row): Effect { Effect(Some(pc), row, false, false) }

  function Return(row: Row): Effect { Effect(None, row, false, false) }

  /** A guarded update inside `process_job`: the row changes if the UPDATE matches
      and commits; then hit, miss or exception decide where to go. */
  function Update(row: Row, expected: set<Status>, target: Status, ch: Choice,
                  hit: Option<Pc>, miss: Option<Pc>, raised: Option<Pc>): Effect {
    var after := if ch.Commits() then CompareAndSet(row, expected, target) else row;
    Effect(if ch.Raises() then raised else if Matches(row, expected, target) then hit else miss, after, false, false)
  }

  predicate Is(row: Row, st: Status) { row == Some(st) }

  predicate ReadsAsStopping(row: Row) { row.Some? && row.value.Stopping() }

  /** A failing read before the claim: an undecodable row is quarantined, anything
      else is put back. */
  function PreClaimFailure(row: Row, ch: Choice): Effect {
    Go(if ch.Undecodable? && row.Some? then Quarantine else Requeue, row)
  }

  function StepOf(pc: Pc, row: Row, ch: Choice): Effect {
    match pc
    case Fetched =>
      if ch.Raises() || (row.Some? && row.value.Corrupt?) then
        PreClaimFailure(row, if row.Some? && row.value.Corrupt? && !ch.Fault? then Undecodable else ch)
      else if Is(row, Queued) then Go(Claiming, row)
      else Return(row)
    case Claiming =>
      if ch.Raises() then Go(Requeue, row)
      else Update(row, {Queued}, Preparing, ch, Some(Claimed), Some(Recheck), Some(Requeue))
    case Recheck =>
      if ch.Raises() then PreClaimFailure(row, ch) else Return(row)
    case Quarantine =>
      if ch.Raises() then Go(Requeue, row)
      else Update(row, {Queued}, Failed, ch, None, Some(RawCheck), Some(Requeue))
    case RawCheck =>
      if ch.Raises() then Go(Requeue, row)
      else if row.Some? && row.value.Corrupt? then Go(Repair, row)
      else Return(row)
    case Repair =>
      if ch.Raises() then Go(Requeue, row) else Return(RepairCorrupt(row))
    case Requeue => Effect(None, row, true, false)

    case Claimed => if ch.Raises() || row.None? then Go(Resolving, row) else Go(Checking, row)
    case Checking =>
      if ch.Raises() then Go(Resolving, row)
      else if ReadsAsStopping(row) then Go(Finalizing, row)
      else Go(Starting, row)
    case Starting =>
      var e := Update(row, {Preparing}, Running, ch, Some(Generating), Some(BailOut), Some(Crashed));
      e.(enters := e.next == Some(Generating))
    case BailOut => Update(row, {CancelRequested}, Cancelled, ch, None, None, Some(Crashed))
    case Generating =>
      (match ch
       case GeneratorStops => Go(Stopped, row)
       case Fine => Go(Wrapping, row)
       case _ => Go(Crashed, row))
    case Stopped => Update(row, {CancelRequested}, Cancelled, ch, None, None, Some(Resolving))
    case Crashed =>
      if ch.Raises() then Go(Resolving, row)
      else if ReadsAsStopping(row) then Go(Finalizing, row)
      else Go(MarkingFailed, row)
    case MarkingFailed => Update(row, ACTIVE, Failed, ch, None, None, Some(Resolving))
    case Wrapping =>
      if ch.Raises() then Go(Resolving, row)
      else if ReadsAsStopping(row) then Go(Finalizing, row)
      else Go(Posting, row)
    case Posting => Update(row, {Running}, Postprocessing, ch, Some(Succeeding), Some(Finalizing), Some(Resolving))
    case Succeeding => Update(row, {Postprocessing}, Succeeded, ch, None, Some(Missed), Some(Resolving))
    case Missed =>
      if ch.Raises() then Go(Resolving, row)
      else if Is(row, CancelRequested) then Go(Finalizing, row)
      else Return(row)
    case Finalizing => Update(row, {CancelRequested}, Cancelled, ch, None, None, Some(Resolving))
    case Resolving => Update(row, {CancelRequested}, Cancelled, ch, None, Some(Rereading), Some(GivingUp))
    case Rereading =>
      if ch.Raises() then Go(GivingUp, row)
      else if row.Some? && row.value.Terminal() then Return(row)
      else Go(GivingUp, row)
    case GivingUp => Update(row, ACTIVE, Failed, ch, None, None, None)
  }

  // ----------------------------------------------------------------- system

  datatype Worker = Worker(job: string, pc: Pc)

  datatype System = System(
    rows: map<string, Status>,
    pending: set<string>,          // ids in the in-memory queue
    workers: map<nat, Worker>,
    exposed: set<string>,          // ids enqueued since the last restart
    entered: multiset<string>)     // generator entries, ever

  datatype Step =
    | Create(job: string)                          // insert if absent
    | Enqueue(job: string)
    | Dequeue(worker: nat, job: string)
    | Act(worker: nat, choice: Choice)
    | Cancel(job: string, seen: Status)            // one turn of the cancel loop
    | Fail(job: string, expected: set<Status>)     // mark failed, quarantine, recovery
    | Finalize(job: string)                        // recovery of a requested cancel
    | RepairRow(job: string)
    | Restart

  function RowOf(s: System, id: string): Row {
    if id in s.rows then Some(s.rows[id]) else None
  }

  function WithRow(s: System, id: string, row: Row): System {
    if row.Some? then s.(rows := s.rows[id := row.value]) else s
  }

  predicate Enabled(s: System, step: Step) {
    match step
    case Enqueue(id) => id in s.rows
    case Dequeue(w, id) => w !in s.workers && id in s.pending
    case Act(w, _) => w in s.workers
    case Fail(_, expected) => expected <= ACTIVE
    case _ => true
  }

  /** The status a cancel aims at from the status it read; `None`: nothing to do. */
  function CancelTarget(seen: Status): Option<Status> {
    match seen
    case Queued => Some(Cancelled)
    case Preparing => Some(CancelRequested)
    case Running => Some(CancelRequested)
    case Postprocessing => Some(CancelRequested)
    case _ => None
  }

  function AfterAct(s: System, w: nat, e: Effect): System
    requires w in s.workers
  {
    var id := s.workers[w].job;
    var t := WithRow(s, id, e.row);
    t.(pending := if e.requeues then t.pending + {id} else t.pending,
       entered := if e.enters then t.entered + multiset{id} else t.entered,
       workers := if e.next.Some? then t.workers[w := Worker(id, e.next.value)] else t.workers - {w})
  }

  function Apply(s: System, step: Step): System
    requires Enabled(s, step)
  {
    match step
    case Create(id) => if id in s.rows then s else s.(rows := s.rows[id := Queued])
    case Enqueue(id) => s.(pending := s.pending + {id}, exposed := s.exposed + {id})
    case Dequeue(w, id) => s.(pending := s.pending - {id}, workers := s.workers[w := Worker(id, Fetched)])
    case Act(w, ch) => AfterAct(s, w, StepOf(s.workers[w].pc, RowOf(s, s.workers[w].job), ch))
    case Cancel(id, seen) =>
      var target := CancelTarget(seen);
      if target.Some? then WithRow(s, id, CompareAndSet(RowOf(s, id), {seen}, target.value)) else s
    case Fail(id, expected) => WithRow(s, id, CompareAndSet(RowOf(s, id), expected, Failed))
    case Finalize(id) => WithRow(s, id, CompareAndSet(RowOf(s, id), {CancelRequested}, Cancelled))
    case RepairRow(id) => WithRow(s, id, RepairCorrupt(RowOf(s, id)))
    case Restart => s.(pending := {}, workers := map[], exposed := {})
  }

  /** A process that has just started over whatever rows the database holds. */
  ghost predicate Initial(s: System) {
    s.pending == {} && s.workers == map[] && s.exposed == {} && s.entered == multiset{}
  }

  ghost predicate Run(s: System, steps: seq<Step>, s': System)
    decreases |steps|
  {
    if steps == [] then s' == s
    else Enabled(s, steps[0]) && Run(Apply(s, steps[0]), steps[1..], s')
  }

  // -------------------------------------------------------------- invariant

  /** What a worker's position says about its row, whatever others do. */
  ghost predicate PcOk(pc: Pc, row: Row) {
    match pc
    case Fetched => true
    case Claiming => row.Some?
    case Recheck => row.Some? && !row.value.Queued?
    case Quarantine => row.Some?
    case RawCheck => row.Some? && !row.value.Queued?
    case Repair => row.Some? && !row.value.Queued?
    case Requeue => true
    case _ => row.Some? && OwnerOk(pc, row.value)
  }

  ghost predicate OwnerOk(pc: Pc, st: Status) {
    || st.CancelRequested? || st.Terminal()
    || (match pc
        case Claimed => st.Preparing?
        case Checking => st.Preparing?
        case Starting => st.Preparing?
        case Generating => st.Running?
        case Stopped => st.Running?
        case Wrapping => st.Running?
        case Posting => st.Running?
        case Crashed => st.Preparing? || st.Running?
        case MarkingFailed => st.Preparing? || st.Running?
        case Succeeding => st.Postprocessing?
        case Resolving => st.Preparing? || st.Running? || st.Postprocessing?
        case Rereading => st.Preparing? || st.Running? || st.Postprocessing?
        case GivingUp => st.Preparing? || st.Running? || st.Postprocessing?
        case _ => false)
  }

  ghost predicate WorkersOk(s: System) {
    forall w :: w in s.workers ==> PcOk(s.workers[w].pc, RowOf(s, s.workers[w].job))
  }

  /** No two workers own one job. */
  ghost predicate OneOwner(s: System) {
    forall v, w :: v in s.workers && w in s.workers && v != w && s.workers[v].pc.Owner() && s.workers[w].pc.Owner()
      ==> s.workers[v].job != s.workers[w].job
  }

  /** A job's generator was entered at most once, not at all while the row is
      queued, and not yet while its owner is still on the way there. */
  ghost predicate EntryOk(s: System, id: string) {
    && s.entered[id] <= 1
    && (s.entered[id] == 1 ==> id in s.rows && !s.rows[id].Queued? && !s.rows[id].Corrupt?)
  }

  ghost predicate EntriesOk(s: System) {
    && (forall id :: EntryOk(s, id))
    && (forall w :: w in s.workers && s.workers[w].pc.BeforeGenerator() ==> s.entered[s.workers[w].job] == 0)
  }

  /** Some worker holds the id and has not claimed it. */
  ghost predicate InHand(s: System, id: string) {
    exists w :: w in s.workers && s.workers[w].job == id && !s.workers[w].pc.Owner()
  }

  /** An enqueued id whose row is still queued is in the queue or in hand. */
  ghost predicate NothingLost(s: System) {
    forall id :: id in s.exposed ==> id in s.rows && (Is(RowOf(s, id), Queued) ==> id in s.pending || InHand(s, id))
  }

  ghost predicate Inv(s: System) {
    WorkersOk(s) && OneOwner(s) && EntriesOk(s) && NothingLost(s)
  }
}
