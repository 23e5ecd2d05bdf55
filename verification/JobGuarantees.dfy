/** What holds of jobs over whole runs, whatever workers, cancels, faults, duplicate
    deliveries and restarts are interleaved. */
module JobGuarantees {
  import opened Wrappers
  import opened JobStatuses
  import opened JobRuns
  import opened JobProofs

  /** A generator is entered at most once for a job, over any run with duplicate
      deliveries, requeues, racing workers, cancels and restarts. */
  lemma GeneratorEnteredOnce(s0: System, steps: seq<Step>, s: System, id: string)
    requires Initial(s0) && Run(s0, steps, s)
    ensures s.entered[id] <= 1
    ensures s.entered[id] == 1 ==> id in s.rows && !s.rows[id].Queued?
  {
    InitialInv(s0);
    RunKeepsInv(s0, steps, s);
    assert EntryOk(s, id);
  }

  /** Over a run, a row only moves along the transition table. */
  lemma {:induction false} RunFollowsTable(s0: System, steps: seq<Step>, s: System, id: string)
    requires Inv(s0) && Run(s0, steps, s) && id in s0.rows
    ensures id in s.rows && CanBecome(s0.rows[id], s.rows[id])
    decreases |steps|
  {
    hide Inv, Apply, CanBecome;
    if steps == [] {
      EdgeBecomes(s.rows[id], s.rows[id]);
    } else {
      var s1 := Apply(s0, steps[0]);
      StepChangesByEdges(s0, steps[0], id) by { InvWorkers(s0); }
      StepKeepsInv(s0, steps[0]);
      RunFollowsTable(s1, steps[1..], s, id);
      EdgeBecomes(s0.rows[id], s1.rows[id]);
      BecomesTransitively(s0.rows[id], s1.rows[id], s.rows[id]);
    }
  }

  lemma InvWorkers(s: System)
    requires Inv(s)
    ensures WorkersOk(s)
  {
  }

  lemma EdgeBecomes(a: Status, b: Status)
    requires Edge(a, b)
    ensures CanBecome(a, b)
  {
  }

  /** A terminal job stays as it is, and a job seen cancelled or asked to cancel is
      never reported as a success later. */
  lemma OutcomesAreFinal(s0: System, steps: seq<Step>, s: System, id: string)
    requires Inv(s0) && Run(s0, steps, s) && id in s0.rows
    ensures id in s.rows
    ensures s0.rows[id].Terminal() ==> s.rows[id] == s0.rows[id]
    ensures s0.rows[id].Stopping() ==> s.rows[id] != Succeeded
    ensures s.rows[id] == Queued ==> s0.rows[id] == Queued
  {
    RunFollowsTable(s0, steps, s, id);
    TableContract(s0.rows[id], s.rows[id]);
  }

  // ------------------------------------------------------------ the queue

  /** Under arbitrary faults: when `run_once` is through with an id it dequeued, the
      id is pending again, or its row is missing or no longer queued. */
  lemma ReturnKeepsWork(s: System, w: nat, ch: Choice)
    requires Inv(s) && w in s.workers && w !in Apply(s, Act(w, ch)).workers
    ensures var t, id := Apply(s, Act(w, ch)), s.workers[w].job;
      id in t.pending || RowOf(t, id) != Some(Queued)
  {
    hide StepOf, PcOk, RowEdge;
    var id := s.workers[w].job;
    ActFrame(s, w, ch);
    StepKeepsWork(s.workers[w].pc, RowOf(s, id), ch);
    StepFollowsTable(s.workers[w].pc, RowOf(s, id), ch);
    EdgeKeepsRow(RowOf(s, id), StepOf(s.workers[w].pc, RowOf(s, id), ch).row);
  }

  /** At every moment of every run: an enqueued job that is still queued is in the
      queue or in the hands of a worker that has not claimed it. */
  lemma QueueLosesNothing(s0: System, steps: seq<Step>, s: System, id: string)
    requires Initial(s0) && Run(s0, steps, s) && id in s.exposed
    ensures id in s.rows && (s.rows[id] == Queued ==> id in s.pending || InHand(s, id))
  {
    InitialInv(s0);
    RunKeepsInv(s0, steps, s);
  }

  // --------------------------------------------------------- how workers end

  /** Steps a delivery still has before it, at most. */
  function Fuel(pc: Pc): nat {
    match pc
    case Fetched => 14
    case Claiming => 13
    case Recheck => 5
    case Quarantine => 4
    case RawCheck => 3
    case Repair => 2
    case Requeue => 1
    case Claimed => 12
    case Checking => 11
    case Starting => 10
    case BailOut => 6
    case Generating => 9
    case Stopped => 4
    case Crashed => 5
    case MarkingFailed => 4
    case Wrapping => 8
    case Posting => 7
    case Succeeding => 6
    case Missed => 5
    case Finalizing => 4
    case Resolving => 3
    case Rereading => 2
    case GivingUp => 1
  }

  lemma StepDescends(pc: Pc, row: Row, ch: Choice)
    ensures var e := StepOf(pc, row, ch);
      e.next.Some? ==> Fuel(e.next.value) < Fuel(pc)
  {
  }

  function ActsOf(steps: seq<Step>, w: nat): nat {
    if steps == [] then 0
    else (if steps[0].Act? && steps[0].worker == w then 1 else 0) + ActsOf(steps[1..], w)
  }

  /** No delivery goes on for ever: a worker still busy with the id it holds has
      taken fewer than fourteen steps for it, whatever others did meanwhile. */
  lemma {:induction false} DeliveriesEnd(s0: System, steps: seq<Step>, s: System, w: nat)
    requires Run(s0, steps, s) && w in s0.workers
    requires forall i :: 0 <= i < |steps| ==> !(steps[i].Dequeue? && steps[i].worker == w)
    requires w in s.workers
    ensures ActsOf(steps, w) + Fuel(s.workers[w].pc) <= Fuel(s0.workers[w].pc)
    ensures s.workers[w].job == s0.workers[w].job
    decreases |steps|
  {
    hide StepOf, Fuel;
    if steps != [] {
      var s1 := Apply(s0, steps[0]);
      if w in s1.workers {
        FuelDrops(s0, steps[0], w);
        DeliveriesEnd(s1, steps[1..], s, w);
      } else {
        GoneStaysGone(s1, steps[1..], s, w);
      }
    }
  }

  lemma FuelDrops(s: System, step: Step, w: nat)
    requires Enabled(s, step) && w in s.workers && w in Apply(s, step).workers
    ensures Apply(s, step).workers[w].job == s.workers[w].job
    ensures if step.Act? && step.worker == w then Fuel(Apply(s, step).workers[w].pc) < Fuel(s.workers[w].pc)
            else Apply(s, step).workers[w] == s.workers[w]
  {
    hide StepOf, Fuel;
    if step.Act? {
      var v := step.worker;
      ActFrame(s, v, step.choice);
      StepDescends(s.workers[v].pc, RowOf(s, s.workers[v].job), step.choice);
    }
  }

  lemma {:induction false} GoneStaysGone(s0: System, steps: seq<Step>, s: System, w: nat)
    requires Run(s0, steps, s) && w !in s0.workers
    requires forall i :: 0 <= i < |steps| ==> !(steps[i].Dequeue? && steps[i].worker == w)
    ensures w !in s.workers
    decreases |steps|
  {
    hide StepOf;
    if steps != [] {
      assert w !in Apply(s0, steps[0]).workers;
      GoneStaysGone(Apply(s0, steps[0]), steps[1..], s, w);
    }
  }

  /** The two ways a claimed job is left unfinished: the generator raised
      GenerationCancelled for a job nobody cancelled, or the very last attempt to
      record a failure could not be written. */
  predicate LeftOpen(pc: Pc, row: Row, ch: Choice) {
    || (pc.Stopped? && Is(row, Running) && ch.Fine?)
    || (pc.GivingUp? && ch == Fault(false) && row.Some? && !row.value.Terminal())
  }

  lemma StepEndsTerminal(pc: Pc, row: Row, ch: Choice)
    requires PcOk(pc, row) && pc.Owner() && StepOf(pc, row, ch).next.None?
    ensures var after := StepOf(pc, row, ch).row;
      after.Some? && (after.value.Terminal() <==> !LeftOpen(pc, row, ch))
  {
  }

  /** `process_job` leaves a job it claimed terminal, exactly unless one of the two
      cases of `LeftOpen` applies. */
  lemma ReturnIsTerminal(s: System, w: nat, ch: Choice)
    requires Inv(s) && w in s.workers && s.workers[w].pc.Owner() && w !in Apply(s, Act(w, ch)).workers
    ensures var id := s.workers[w].job;
      var after := RowOf(Apply(s, Act(w, ch)), id);
      after.Some? && (after.value.Terminal() <==> !LeftOpen(s.workers[w].pc, RowOf(s, id), ch))
  {
    hide StepOf, PcOk, LeftOpen;
    ActFrame(s, w, ch);
    StepEndsTerminal(s.workers[w].pc, RowOf(s, s.workers[w].job), ch);
  }

  // ------------------------------------------------------ nobody is stranded

  predicate InProgress(row: Row) {
    row.Some? && row.value in {Preparing, Running, Postprocessing, CancelRequested}
  }

  ghost predicate Owned(s: System, id: string) {
    exists w :: w in s.workers && s.workers[w].job == id && s.workers[w].pc.Owner()
  }

  /** Every job in progress has a worker that will finish it. */
  ghost predicate NoneStranded(s: System) {
    forall id :: InProgress(RowOf(s, id)) ==> Owned(s, id)
  }

  /** A worker that stopped because of a cancellation had one to stop for. */
  ghost predicate StopsHaveCause(s: System) {
    forall w :: w in s.workers && s.workers[w].pc.Stopped? ==> !Is(RowOf(s, s.workers[w].job), Running)
  }

  /** The rely condition on one step: a generator raises GenerationCancelled only
      when its job is being cancelled or is over, the last-resort write does not
      fail without effect, and the process is not restarted. */
  predicate Polite(s: System, step: Step) {
    && !step.Restart?
    && (step.Act? && step.worker in s.workers ==>
          var pc, row := s.workers[step.worker].pc, RowOf(s, s.workers[step.worker].job);
          && (pc.Generating? && step.choice.GeneratorStops? ==> !Is(row, Running))
          && (pc.GivingUp? ==> step.choice != Fault(false)))
  }

  ghost predicate PoliteRun(s: System, steps: seq<Step>, s': System)
    decreases |steps|
  {
    if steps == [] then s' == s
    else Enabled(s, steps[0]) && Polite(s, steps[0]) && PoliteRun(Apply(s, steps[0]), steps[1..], s')
  }

  ghost predicate Settled(s: System) { Inv(s) && NoneStranded(s) && StopsHaveCause(s) }

  lemma PoliteStepKeepsCauses(s: System, step: Step)
    requires Inv(s) && StopsHaveCause(s) && Enabled(s, step) && Polite(s, step)
    ensures StopsHaveCause(Apply(s, step))
  {
    hide StepOf, PcOk, RowEdge;
    var t := Apply(s, step);
    forall w | w in t.workers && t.workers[w].pc.Stopped? ensures !Is(RowOf(t, t.workers[w].job), Running) {
      if w in s.workers {
        var id := s.workers[w].job;
        StepChangesByEdges(s, step, id);
        if step.Act? && step.worker != w {
          ActFrame(s, step.worker, step.choice);
          StoppedRow(s, step.worker, w, step.choice);
        } else if step.Act? {
          ActFrame(s, w, step.choice);
          OnlyGeneratingStops(s.workers[w].pc, RowOf(s, id), step.choice);
          assert PcOk(s.workers[w].pc, RowOf(s, id));
        } else if Outside(step) {
          OutsideChanges(s, step, id);
          StoppedIsSome(RowOf(s, id)) by { assert PcOk(s.workers[w].pc, RowOf(s, id)); }
        }
      }
    }
  }

  lemma StoppedIsSome(row: Row)
    requires PcOk(Stopped, row)
    ensures row.Some?
  {
  }

  lemma OnlyGeneratingStops(pc: Pc, row: Row, ch: Choice)
    ensures StepOf(pc, row, ch).next == Some(Stopped) ==> pc == Generating && ch == GeneratorStops && StepOf(pc, row, ch).row == row
  {
  }

  /** Another worker's step does not touch the row of a stopped one. */
  lemma StoppedRow(s: System, v: nat, w: nat, ch: Choice)
    requires Inv(s) && v in s.workers && w in s.workers && v != w && s.workers[w].pc.Stopped?
    ensures RowOf(Apply(s, Act(v, ch)), s.workers[w].job) == RowOf(s, s.workers[w].job)
  {
    hide StepOf, RowEdge, PcOk;
    ActFrame(s, v, ch);
    assert PcOk(s.workers[w].pc, RowOf(s, s.workers[w].job)) && PcOk(s.workers[v].pc, RowOf(s, s.workers[v].job));
    OwnersRow(s.workers[w].pc, RowOf(s, s.workers[w].job));
    StepOwnership(s.workers[v].pc, RowOf(s, s.workers[v].job), ch);
  }

  lemma PoliteStepStrandsNobody(s: System, step: Step)
    requires Settled(s) && Enabled(s, step) && Polite(s, step)
    ensures NoneStranded(Apply(s, step))
  {
    hide StepOf, PcOk, RowEdge;
    var t := Apply(s, step);
    forall id | InProgress(RowOf(t, id)) ensures Owned(t, id) {
      if step.Act? {
        ActStrandsNobody(s, step.worker, step.choice, id);
      } else if Outside(step) {
        OutsideNeverStarts(s, step, id);
        OutsideChanges(s, step, id);
      } else {
        assert RowOf(t, id) == RowOf(s, id);
        var w :| w in s.workers && s.workers[w].job == id && s.workers[w].pc.Owner();
        assert t.workers[w] == s.workers[w];
      }
    }
  }

  lemma OutsideNeverStarts(s: System, step: Step, id: string)
    requires Outside(step) && Enabled(s, step) && InProgress(RowOf(Apply(s, step), id))
    ensures InProgress(RowOf(s, id))
  {
  }

  lemma ActStrandsNobody(s: System, w: nat, ch: Choice, id: string)
    requires Settled(s) && w in s.workers && Polite(s, Act(w, ch))
    requires InProgress(RowOf(Apply(s, Act(w, ch)), id))
    ensures Owned(Apply(s, Act(w, ch)), id)
  {
    hide StepOf, PcOk, RowEdge;
    var t := Apply(s, Act(w, ch));
    var pc, row := s.workers[w].pc, RowOf(s, s.workers[w].job);
    ActFrame(s, w, ch);
    assert PcOk(pc, row);
    StepFollowsTable(pc, row, ch);
    EdgeKeepsRow(row, StepOf(pc, row, ch).row);
    if id == s.workers[w].job {
      OwnerStays(pc, row, ch);
      if pc.Owner() || !InProgress(row) {
        assert w in t.workers && t.workers[w].job == id && t.workers[w].pc.Owner();
      } else {
        var v :| v in s.workers && s.workers[v].job == id && s.workers[v].pc.Owner();
        assert v != w && t.workers[v] == s.workers[v];
      }
    } else {
      var v :| v in s.workers && s.workers[v].job == id && s.workers[v].pc.Owner();
      assert t.workers[v] == s.workers[v];
    }
  }

  /** A job in progress after a worker's step: the worker is its owner, or it was in
      progress before and the worker never owned it. */
  lemma OwnerStays(pc: Pc, row: Row, ch: Choice)
    requires PcOk(pc, row) && InProgress(StepOf(pc, row, ch).row)
    requires pc.Stopped? ==> !Is(row, Running)
    requires pc.GivingUp? ==> ch != Fault(false)
    ensures pc.Owner() || !InProgress(row) ==> StepOf(pc, row, ch).next.Some? && StepOf(pc, row, ch).next.value.Owner()
  {
  }

  /** Rely/guarantee for workers: started with nothing in progress, and with cancels,
      failures, faults and duplicate deliveries at any moment, no job is ever in
      progress without a worker that owns it; so a job no worker owns is queued,
      terminal or corrupt, and none is left in `cancel_requested`. */
  lemma {:induction false} NobodyIsStranded(s0: System, steps: seq<Step>, s: System)
    requires Settled(s0) && PoliteRun(s0, steps, s)
    ensures Settled(s)
    decreases |steps|
  {
    hide Inv, NoneStranded, StopsHaveCause, Apply, Polite;
    if steps != [] {
      PoliteStepStrandsNobody(s0, steps[0]);
      PoliteStepKeepsCauses(s0, steps[0]);
      StepKeepsInv(s0, steps[0]);
      NobodyIsStranded(Apply(s0, steps[0]), steps[1..], s);
    }
  }

  /** A fresh process over rows that are queued, terminal or corrupt is settled. */
  lemma FreshStartIsSettled(s: System)
    requires Initial(s) && forall id :: !InProgress(RowOf(s, id))
    ensures Settled(s)
  {
    InitialInv(s);
  }

  /** Without the rely condition the guarantee fails: a generator that raises
      GenerationCancelled on its own leaves the job `running` with no worker. */
  lemma UnaskedStopStrands(id: string)
    ensures exists s0, steps, s ::
      Initial(s0) && Run(s0, steps, s) && RowOf(s0, id) == Some(Queued)
      && RowOf(s, id) == Some(Running) && s.workers == map[] && s.pending == {}
  {
    hide StepOf, Apply, Enabled;
    var s0 := System(map[id := Queued], {}, map[], {}, multiset{});
    var s1 := s0.(pending := {id}, exposed := {id});
    var s2, s3, s4 := At(id, Fetched, Queued), At(id, Claiming, Queued), At(id, Claimed, Preparing);
    var s5, s6, s7 := At(id, Checking, Preparing), At(id, Starting, Preparing), At(id, Generating, Running);
    var s8, s9 := At(id, Stopped, Running), System(map[id := Running], {}, map[], {id}, multiset{id});
    Delivered(id);
    UndisturbedClaim();
    UndisturbedStart();
    ActAt(id, Fetched, Queued, Fine);
    ActAt(id, Claiming, Queued, Fine);
    ActAt(id, Claimed, Preparing, Fine);
    ActAt(id, Checking, Preparing, Fine);
    ActAt(id, Starting, Preparing, Fine);
    ActAt(id, Generating, Running, GeneratorStops);
    LastAct(id);
    var steps := [Enqueue(id), Dequeue(0, id), Act(0, Fine), Act(0, Fine), Act(0, Fine), Act(0, Fine), Act(0, Fine),
      Act(0, GeneratorStops), Act(0, Fine)];
    TraceIsRun([s0, s1, s2, s3, s4, s5, s6, s7, s8, s9], steps);
  }

  /** One worker, one job: the state while the worker is at `pc`. */
  function At(id: string, pc: Pc, st: Status): System {
    System(map[id := st], {}, map[0 := Worker(id, pc)], {id}, if st.Running? then multiset{id} else multiset{})
  }

  lemma Delivered(id: string)
    ensures var s0 := System(map[id := Queued], {}, map[], {}, multiset{});
      var s1 := s0.(pending := {id}, exposed := {id});
      && Enabled(s0, Enqueue(id)) && Apply(s0, Enqueue(id)) == s1
      && Enabled(s1, Dequeue(0, id)) && Apply(s1, Dequeue(0, id)) == At(id, Fetched, Queued)
  {
  }

  lemma UndisturbedClaim()
    ensures StepOf(Fetched, Some(Queued), Fine) == Go(Claiming, Some(Queued))
    ensures StepOf(Claiming, Some(Queued), Fine) == Go(Claimed, Some(Preparing))
    ensures StepOf(Claimed, Some(Preparing), Fine) == Go(Checking, Some(Preparing))
  {
  }

  lemma UndisturbedStart()
    ensures StepOf(Checking, Some(Preparing), Fine) == Go(Starting, Some(Preparing))
    ensures StepOf(Starting, Some(Preparing), Fine) == Go(Generating, Some(Running)).(enters := true)
    ensures StepOf(Generating, Some(Running), GeneratorStops) == Go(Stopped, Some(Running))
    ensures StepOf(Stopped, Some(Running), Fine) == Return(Some(Running))
  {
  }

  lemma ActAt(id: string, pc: Pc, st: Status, ch: Choice)
    requires var e := StepOf(pc, Some(st), ch);
      e.next.Some? && e.row.Some? && !e.requeues && e.enters == (e.row.value.Running? && !st.Running?)
    requires st.Running? ==> StepOf(pc, Some(st), ch).row == Some(st)
    ensures var e := StepOf(pc, Some(st), ch);
      Enabled(At(id, pc, st), Act(0, ch)) && Apply(At(id, pc, st), Act(0, ch)) == At(id, e.next.value, e.row.value)
  {
    hide StepOf;
  }

  lemma LastAct(id: string)
    ensures Enabled(At(id, Stopped, Running), Act(0, Fine))
    ensures Apply(At(id, Stopped, Running), Act(0, Fine)) == System(map[id := Running], {}, map[], {id}, multiset{id})
  {
    assert map[0 := Worker(id, Stopped)] - {0} == map[];
  }

  lemma {:induction false} TraceIsRun(trace: seq<System>, steps: seq<Step>)
    requires |trace| == |steps| + 1
    requires forall i :: 0 <= i < |steps| ==> Enabled(trace[i], steps[i]) && Apply(trace[i], steps[i]) == trace[i + 1]
    ensures Run(trace[0], steps, trace[|steps|])
    decreases |steps|
  {
    hide Enabled, Apply;
    if steps != [] {
      TraceIsRun(trace[1..], steps[1..]);
    }
  }
}
