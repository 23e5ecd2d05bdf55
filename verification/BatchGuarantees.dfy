/** What holds of batches over whole runs: every interleaving of creation, stage
    materialization, reconciliation, cancellation, repaired rows, completion, read
    and write faults, and restarts. */
module BatchGuarantees {
  import opened Wrappers
  import opened JobStatuses
  import opened BatchRuns
  import StartupRecovery
  import opened BatchProofs
  import opened BatchSteps

  /** Before the first batch: job rows may exist, in any condition. */
  ghost predicate Initial(s: System) {
    && s.files == map[] && s.threads == map[] && s.lock.None? && s.pending == {} && s.handed == multiset{} && s.cleared == {}
    && s.home == map[] && s.persisted == {} && s.done == {} && s.known == {} && s.missed == {}
    && s.rows.Keys <= s.issued && CorruptOk(s)
  }

  lemma InitialInv(s: System)
    requires Initial(s)
    ensures Inv(s)
  {
  }

  // ----------------------------------------------------- step facts, for runs

  /** Steps that are neither the world's, nor plain, nor about one item. */
  ghost predicate WritingStep(step: Step) { !OutsideStep(step) && !PlainStep(step) && !step.Walk? }

  /** The files of one step: untouched, or rewritten by the lock holder. */
  lemma StepFiles(s: System, step: Step)
    requires Inv(s) && Enabled(s, step)
    ensures var t := Apply(s, step); t.files == s.files || Loud(s, t)
  {
    hide Apply, Enabled, Loud, Inv, RowsEvolve;
    if OutsideStep(step) {
      OutsideIsQuiet(s, step);
    } else if PlainStep(step) {
      PlainIsQuiet(s, step);
    } else if step.Walk? {
      WalkIsQuiet(s, step.t, step.minted);
    } else {
      WritingFiles(s, step);
    }
  }

  lemma WritingFiles(s: System, step: Step)
    requires Inv(s) && Enabled(s, step) && WritingStep(step)
    ensures var t := Apply(s, step); t.files == s.files || Loud(s, t)
  {
    hide HomesOk, KnownOk, LockOk, CorruptOk, FileEvolves, CanAdvance, SeesOwner, AfterRead, ThreadsOk;
    if step.Save? {
      SaveIsLoud(s, step.t);
    } else if step.Read? && (s.threads[step.t].op.Create? || s.threads[step.t].op.Delete?) {
      CreationIsLoud(s, step.t, step.failing, step.listed, step.owner);
    }
  }

  lemma CreationIsLoud(s: System, w: nat, failing: set<string>, listed: bool, owner: string)
    requires Inv(s) && Enabled(s, Read(w, failing, listed, owner))
    requires s.threads[w].op.Create? || s.threads[w].op.Delete?
    ensures Loud(s, Apply(s, Read(w, failing, listed, owner)))
  {
    hide KnownOk, LockOk, CorruptOk;
    var t := Apply(s, Read(w, failing, listed, owner));
    assert PcOk(s, s.threads[w]);
    forall b | b in t.files ensures FileEvolves(s, b, t.files[b]) {
      if b in s.files { SameFile(s, b); }
    }
  }

  /** Nothing is forgotten, and a new file has a batch id nobody used. */
  ghost predicate Remembers(s: System, t: System) {
    && s.rows.Keys <= t.rows.Keys && s.done <= t.done && s.known <= t.known && s.used <= t.used
    && (forall b :: b in t.files && b !in s.files ==> b !in s.used)
  }

  lemma StepRows(s: System, step: Step)
    requires Inv(s) && Enabled(s, step)
    ensures Remembers(s, Apply(s, step))
  {
    hide Apply, Enabled, Inv, CanBecome;
    if OutsideStep(step) {
      OutsideIsQuiet(s, step);
    } else if PlainStep(step) {
      PlainIsQuiet(s, step);
    } else if step.Walk? {
      WalkIsQuiet(s, step.t, step.minted);
    } else {
      WritingRemembers(s, step);
    }
  }

  lemma WritingRemembers(s: System, step: Step)
    requires Inv(s) && Enabled(s, step) && WritingStep(step)
    ensures Remembers(s, Apply(s, step))
  {
    hide HomesOk, KnownOk, LockOk, CorruptOk, CanAdvance, SeesOwner, AfterRead;
    if step.Save? {
      assert PcOk(s, s.threads[step.t]);
    }
  }

  /** Outcomes are final: what is over stays over, as it is. */
  lemma StepKeepsOutcomes(s: System, step: Step, j: string)
    requires Inv(s) && Enabled(s, step) && Over(s, j)
    ensures Over(Apply(s, step), j) && Apply(s, step).rows[j] == s.rows[j]
  {
    hide KnownOk, LockOk, ThreadsOk, RowsEvolve, OnlyRows, CanAdvance, SeesOwner, AfterRead, RecoveredRows, CorruptOk;
    if OutsideStep(step) {
      OutsideIsQuiet(s, step);
      assert RowsEvolve(s, Apply(s, step));
      OverStable(s, Apply(s, step), j);
    }
  }

  /** One step, seen from a batch that exists before and after it. */
  lemma StepGrows(s: System, step: Step, b: string)
    requires Inv(s) && Enabled(s, step) && b in s.files && b in Apply(s, step).files
    ensures Grows(s.known, s.files[b], Apply(s, step).files[b])
  {
    hide Inv, Apply;
    StepFiles(s, step);
    if Apply(s, step).files != s.files {
      assert FileEvolves(s, b, Apply(s, step).files[b]);
    }
  }

  lemma StepOwners(s: System, step: Step, b: string, j: string)
    requires Inv(s) && Enabled(s, step) && j in s.rows && b in Apply(s, step).files && Owns(Apply(s, step).files[b], j)
    ensures b in s.files && Owns(s.files[b], j)
  {
    hide Inv, Apply, Owns;
    StepFiles(s, step);
    if Apply(s, step).files != s.files {
      NoNewOwner(s, Apply(s, step), b, j);
    }
  }

  /** Batch ids are not reused: a deleted batch does not come back. */
  lemma {:induction false} FileWasThere(s: System, steps: seq<Step>, s': System, b: string)
    requires Inv(s) && Run(s, steps, s') && b in s.used && b in s'.files
    ensures b in s.files
    decreases |steps|
  {
    hide Inv, Apply, Enabled;
    if steps != [] {
      StepRows(s, steps[0]);
      StepKeepsInv(s, steps[0]);
      FileWasThere(Apply(s, steps[0]), steps[1..], s', b);
    }
  }

  lemma {:induction false} OwnerWasOwner(s: System, steps: seq<Step>, s': System, b: string, j: string)
    requires Inv(s) && Run(s, steps, s') && j in s.rows && b in s'.files && Owns(s'.files[b], j)
    ensures b in s.files && Owns(s.files[b], j)
    decreases |steps|
  {
    hide Inv, Apply, Enabled, Owns;
    if steps != [] {
      StepRows(s, steps[0]);
      StepKeepsInv(s, steps[0]);
      OwnerWasOwner(Apply(s, steps[0]), steps[1..], s', b, j);
      StepOwners(s, steps[0], b, j);
    }
  }

  // ------------------------------------------------------------ cancellation

  /** This restart finds the job's item recorded as over while its row is queued. */
  ghost predicate StaleRestart(s: System, step: Step, j: string) {
    step.Restart? && s.files.Keys !! step.failing && StartupRecovery.Stale(DiskOf(s, step.failing, step.skipped), j)
  }

  /** Who makes a job pending: a section of the batch service under the lock, at a
      moment when no owner of it is being cancelled; the creation of a job that is no
      batch's child; a worker that was handed the id; or the sweep of a restart that
      could read every batch. An unreadable batch or an uncertain owner never does. */
  lemma ExposureIsAuthorized(s: System, step: Step, j: string)
    requires Inv(s) && Enabled(s, step) && j in Apply(s, step).pending && j !in s.pending
    ensures j in s.rows || step == Requeue(j)
    ensures match step
      case Enqueue(t) =>
        s.threads[t] == Exposing(j) && s.lock == Some(t) && forall b :: b in s.files && Owns(s.files[b], j) ==> !s.files[b].cancelling
      case EnqueueOther(k) => k == j && forall b :: b in s.files ==> !Owns(s.files[b], j)
      case Requeue(k) => k == j && j in s.handed
      case Restart(failing, skipped) => s.files.Keys !! failing && RecoveredRows(s, failing, skipped)[j].Queued?
      case _ => false
  {
    hide Inv, Apply, Enabled, RecoveredRows, Owns;
    FourWays(s, step, j);
    match step
    case Enqueue(t) => EnqueueIsClear(s, t, j);
    case EnqueueOther(k) => OthersHaveNoOwner(s, k);
    case Restart(failing, skipped) => RecoveredKeys(s, failing, skipped);
    case _ =>
  }

  lemma FourWays(s: System, step: Step, j: string)
    requires Enabled(s, step) && j in Apply(s, step).pending && j !in s.pending
    ensures match step
      case Enqueue(t) => t in s.threads && s.threads[t] == Exposing(j) && j in s.rows
      case EnqueueOther(k) => k == j && j in s.rows
      case Requeue(k) => k == j && j in s.handed
      case Restart(failing, skipped) =>
        s.files.Keys !! failing && j in RecoveredRows(s, failing, skipped) && RecoveredRows(s, failing, skipped)[j].Queued?
      case _ => false
  {
    hide CanAdvance, SeesOwner, AfterRead, RecoveredRows, MayStart, Owns, Settles;
  }

  lemma EnqueueIsClear(s: System, t: nat, j: string)
    requires Inv(s) && t in s.threads && s.threads[t] == Exposing(j)
    ensures s.lock == Some(t) && Clear(s, j)
  {
    assert PcOk(s, s.threads[t]);
  }

  lemma OthersHaveNoOwner(s: System, j: string)
    requires Inv(s) && Enabled(s, EnqueueOther(j))
    ensures forall b :: b in s.files ==> !Owns(s.files[b], j)
  {
    forall b | b in s.files ensures !Owns(s.files[b], j) {
      if Owns(s.files[b], j) { OwnerHome(s, b, j); }
    }
  }

  lemma RecoveredKeys(s: System, failing: set<string>, skipped: set<string>)
    ensures RecoveredRows(s, failing, skipped).Keys == s.rows.Keys
  {
    hide DiskOf;
  }

  /** Exactly when does a child of a batch whose cancellation is durable become
      pending? When the worker that was handed it puts it back, or at a restart that
      finds it stale; never otherwise. */
  lemma CancelledChildBecomesPending(s: System, step: Step, b: string, j: string)
    requires Inv(s) && Enabled(s, step) && j !in s.pending
    requires b in s.files && s.files[b].cancelling && Owns(s.files[b], j)
    ensures j in Apply(s, step).pending <==> step == Requeue(j) || StaleRestart(s, step, j)
  {
    hide Inv, Apply, Enabled, StaleRestart, Owns;
    if step.Restart? {
      RestartSweeps(s, step, b, j);
    } else if j in Apply(s, step).pending {
      ExposureIsAuthorized(s, step, j);
    } else {
      OnlyRestartsAreStale(s, step, j);
      RequeueAdds(s, j);
    }
    OnlyRestartsAreStale(s, step, j);
  }

  lemma OnlyRestartsAreStale(s: System, step: Step, j: string)
    ensures StaleRestart(s, step, j) ==> step.Restart?
  {
  }

  lemma RequeueAdds(s: System, j: string)
    ensures Enabled(s, Requeue(j)) ==> j in Apply(s, Requeue(j)).pending
  {
  }

  /** The sweep of a restart picks up a child of a cancelling batch if and only if it
      is stale. */
  lemma RestartSweeps(s: System, step: Step, b: string, j: string)
    requires Inv(s) && Enabled(s, step) && step.Restart?
    requires b in s.files && s.files[b].cancelling && Owns(s.files[b], j)
    ensures j in Apply(s, step).pending <==> StaleRestart(s, step, j)
  {
    hide LockOk, ThreadsOk, KnownOk;
    var failing, skipped := step.failing, step.skipped;
    var d := DiskOf(s, failing, skipped);
    OwnerHome(s, b, j);
    if s.files.Keys !! failing {
      ChildOnDisk(s, failing, skipped, b, j);
      RecoveredEvolves(s, failing, skipped);
      if j in d.rows {
        StaleByRecovery(d, j);
      }
    }
  }

  lemma ChildOnDisk(s: System, failing: set<string>, skipped: set<string>, b: string, j: string)
    requires HomesOk(s) && b in s.files && s.files[b].cancelling && Owns(s.files[b], j) && b !in failing
    ensures var d := DiskOf(s, failing, skipped); j in d.children && d.children[j].batch == b && b in d.cancelling
  {
    var i :| 0 <= i < |s.files[b].items| && s.files[b].items[i].job == Some(j);
    assert AtHome(s.home, b, s.files[b]);
    assert s.home[j] == (b, i);
    assert Readable(s, failing, j);
  }

  /** After a pass over readable files, a decodable child of a cancelling batch is
      queued if and only if it was stale. */
  lemma StaleByRecovery(d: StartupRecovery.Disk, j: string)
    requires StartupRecovery.WellFormed(d) && j in d.rows && j in d.children && d.children[j].batch in d.cancelling
    ensures StartupRecovery.Recovered(d, j, true).Queued? <==> StartupRecovery.Stale(d, j)
    ensures StartupRecovery.Stale(d, j) ==> j !in d.poison
  {
  }

  /** Waiting in the queue or in the hands of a worker that has not claimed it. */
  ghost predicate InCirculation(s: System, j: string) { j in s.pending || j in s.handed }

  /** No restart of the run finds this job stale. */
  ghost predicate NeverStale(s: System, steps: seq<Step>, s': System, j: string)
    requires Run(s, steps, s')
    decreases |steps|
  {
    steps != [] ==> !StaleRestart(s, steps[0], j) && NeverStale(Apply(s, steps[0]), steps[1..], s', j)
  }

  /** From the moment a batch's cancellation is durable, for as long as the batch
      exists: a child that is not in circulation never gets into it, over any run in
      which no restart finds it stale. */
  lemma {:induction false} CancelledChildrenStayHidden(s: System, steps: seq<Step>, s': System, b: string, j: string)
    requires Inv(s) && Run(s, steps, s') && b in s.files && s.files[b].cancelling && b in s'.files
    requires Owns(s'.files[b], j) && !InCirculation(s, j) && NeverStale(s, steps, s', j)
    ensures !InCirculation(s', j)
    decreases |steps|
  {
    hide Inv, Apply, Enabled, Owns, Grows, StaleRestart;
    if steps != [] {
      var s1 := Apply(s, steps[0]);
      StepKeepsInv(s, steps[0]);
      StepRows(s, steps[0]);
      BatchIdUsed(s, b);
      FileWasThere(s1, steps[1..], s', b);
      StepGrows(s, steps[0], b);
      GrowsKeepsFlag(s.known, s.files[b], s1.files[b]);
      if j in s1.handed { HandedWasPending(s, steps[0], j); }
      if j in s1.pending {
        ExposureIsAuthorized(s, steps[0], j);
        OwnerWasOwner(s1, steps[1..], s', b, j);
        StepOwners(s, steps[0], b, j);
        CancelledChildBecomesPending(s, steps[0], b, j);
        RequeueNeedsHand(s, j);
      }
      CancelledChildrenStayHidden(s1, steps[1..], s', b, j);
    }
  }

  lemma HandedWasPending(s: System, step: Step, j: string)
    requires Enabled(s, step) && j in Apply(s, step).handed
    ensures InCirculation(s, j)
  {
    hide AfterRead, CanAdvance, SeesOwner, RecoveredRows;
  }

  lemma RequeueNeedsHand(s: System, j: string)
    ensures Enabled(s, Requeue(j)) ==> j in s.handed
  {
  }

  lemma GrowsKeepsFlag(known: set<string>, a: Batch, b: Batch)
    requires Grows(known, a, b) && a.cancelling
    ensures b.cancelling
  {
  }

  lemma BatchIdUsed(s: System, b: string)
    requires Inv(s) && b in s.files
    ensures b in s.used
  {
  }

  /** A batch whose cancellation is durable has no item that could still get a child:
      every item without one is over. */
  lemma CancelledBatchIsClosed(s: System, b: string)
    requires Inv(s) && b in s.files && s.files[b].cancelling
    ensures forall i :: 0 <= i < |s.files[b].items| && s.files[b].items[i].job.None? ==> Finished(s.files[b].items[i])
  {
    assert Closed(s.files[b], |s.files[b].items|);
  }

  // ------------------------------------------------------------- child ids

  /** Distinct items never share a child id. */
  lemma ChildIdsAreDistinct(s: System, b: string, i: nat, c: string, k: nat)
    requires Inv(s) && b in s.files && c in s.files && i < |s.files[b].items| && k < |s.files[c].items|
    requires s.files[b].items[i].job.Some? && s.files[b].items[i].job == s.files[c].items[k].job
    ensures b == c && i == k
  {
    assert AtHome(s.home, b, s.files[b]) && AtHome(s.home, c, s.files[c]);
  }

  /** Over a run, as long as the batch exists: the cancellation flag and every child
      id stay, items are only appended; and a batch being cancelled gains no stage,
      no item and no child id. */
  lemma {:induction false} BatchOnlyGrows(s: System, steps: seq<Step>, s': System, b: string)
    requires Inv(s) && Run(s, steps, s') && b in s.files && b in s'.files
    ensures Grows(s.known, s.files[b], s'.files[b])
    decreases |steps|
  {
    hide Inv, Apply, Enabled, Grows;
    if steps == [] {
      GrowsReflexive(s.known, s.files[b]);
    } else {
      var s1 := Apply(s, steps[0]);
      StepKeepsInv(s, steps[0]);
      StepRows(s, steps[0]);
      BatchIdUsed(s, b);
      FileWasThere(s1, steps[1..], s', b);
      StepGrows(s, steps[0], b);
      BatchOnlyGrows(s1, steps[1..], s', b);
      GrowsTransitive(s.known, s1.known, s.files[b], s1.files[b], s'.files[b]);
    }
  }

  lemma GrowsReflexive(known: set<string>, a: Batch)
    ensures Grows(known, a, a)
  {
  }

  lemma GrowsTransitive(known: set<string>, more: set<string>, a: Batch, b: Batch, c: Batch)
    requires known <= more && Grows(known, a, b) && Grows(more, b, c)
    ensures Grows(known, a, c)
  {
    forall i | 0 <= i < |a.items| ensures ItemGrows(known, a.items[i], c.items[i]) {
      assert ItemGrows(known, a.items[i], b.items[i]) && ItemGrows(more, b.items[i], c.items[i]);
    }
  }

  /** How many steps of a run insert the row of this job. */
  ghost function Insertions(s: System, steps: seq<Step>, s': System, j: string): nat
    requires Run(s, steps, s')
    decreases |steps|
  {
    if steps == [] then 0
    else
      var s1 := Apply(s, steps[0]);
      (if j !in s.rows && j in s1.rows then 1 else 0) + Insertions(s1, steps[1..], s', j)
  }

  /** An id gets at most one row, ever, and none if it has one already. */
  lemma {:induction false} OneRowPerChild(s: System, steps: seq<Step>, s': System, j: string)
    requires Inv(s) && Run(s, steps, s')
    ensures Insertions(s, steps, s', j) <= (if j in s.rows then 0 else 1)
    decreases |steps|
  {
    hide Inv, Apply, Enabled;
    if steps != [] {
      StepRows(s, steps[0]);
      StepKeepsInv(s, steps[0]);
      OneRowPerChild(Apply(s, steps[0]), steps[1..], s', j);
    }
  }

  // ------------------------------------------------------------ completion

  /** Completion, once recorded, stays, and the job's outcome does not change; every
      item that is this job carries it, now and later, unless the outcome was missed. */
  lemma {:induction false} CompletionIsSound(s: System, steps: seq<Step>, s': System, j: string)
    requires Inv(s) && Run(s, steps, s') && j in s.done
    ensures j in s'.done && j in s.rows && s.rows[j].Terminal() && j in s'.rows && s'.rows[j] == s.rows[j]
    ensures j !in s.missed ==> forall b :: b in s'.files ==> Carries(s'.files[b], j, s.rows[j])
    decreases |steps|
  {
    hide Inv, Apply, Enabled;
    DoneIsOver(s, j);
    if j !in s.missed { DoneIsKnown(s, j); }
    if steps != [] {
      StepRows(s, steps[0]);
      StepKeepsOutcomes(s, steps[0], j);
      StepKeepsInv(s, steps[0]);
      if j in s.known {
        KnownStays(Apply(s, steps[0]), steps[1..], s', j);
      }
      CompletionIsSound(Apply(s, steps[0]), steps[1..], s', j);
    }
  }

  lemma DoneIsOver(s: System, j: string)
    requires Inv(s) && j in s.done
    ensures Over(s, j) && (j in s.known || j in s.missed)
  {
    assert Taught(s, j);
  }

  /** An outcome that was copied once is carried from then on. */
  lemma {:induction false} KnownStays(s: System, steps: seq<Step>, s': System, j: string)
    requires Inv(s) && Run(s, steps, s') && j in s.known
    ensures Over(s, j) && forall b :: b in s'.files ==> Carries(s'.files[b], j, s.rows[j])
    decreases |steps|
  {
    hide Inv, Apply, Enabled;
    KnownCarries(s, j);
    if steps != [] {
      StepRows(s, steps[0]);
      StepKeepsOutcomes(s, steps[0], j);
      StepKeepsInv(s, steps[0]);
      KnownStays(Apply(s, steps[0]), steps[1..], s', j);
    }
  }

  /** Every item of the batch that is this job has this outcome. */
  ghost predicate Carries(batch: Batch, j: string, outcome: Status) {
    forall i :: 0 <= i < |batch.items| && batch.items[i].job == Some(j) ==> batch.items[i].status == Some(outcome)
  }

  lemma KnownCarries(s: System, j: string)
    requires Inv(s) && j in s.known
    ensures Over(s, j) && forall b :: b in s.files ==> Carries(s.files[b], j, s.rows[j])
  {
    assert Known(s, j);
    forall b | b in s.files ensures Carries(s.files[b], j, s.rows[j]) {
      assert Reflected(s.files[b], j, s.rows[j], |s.files[b].items|);
    }
  }

  lemma DoneIsKnown(s: System, j: string)
    requires Inv(s) && j in s.done && j !in s.missed
    ensures Over(s, j) && forall b :: b in s.files ==> Carries(s.files[b], j, s.rows[j])
  {
    assert Taught(s, j);
    KnownCarries(s, j);
  }

  /** When a reconciliation reflects the status of a row: exactly unless the row is
      undecodable and its status is neither failed nor cancelled nor recorded already. */
  lemma RecomputeReflects(s: System, item: Item)
    requires item.job.Some? && item.job.value in s.rows
    ensures var st := s.rows[item.job.value];
      Recomputed(s, item).status == Some(st) <==>
        item.job.value !in s.poison || st.Failed? || st.Cancelled? || item.status == Some(st)
  {
  }

  /** Exactly which step misses an outcome: the visit of a converging reconciliation to
      the job's own item, when the row has become undecodable, its status is succeeded
      and the item does not carry it. */
  lemma MissedExactly(s: System, step: Step, j: string)
    requires Inv(s) && Enabled(s, step) && j !in s.missed
    ensures j in Apply(s, step).missed <==> step.Walk? && Unlucky(s, s.threads[step.t], j)
  {
    hide Apply, Enabled, Inv, RowsEvolve, AfterRead;
    if OutsideStep(step) {
      OutsideIsQuiet(s, step);
    } else if PlainStep(step) {
      PlainIsQuiet(s, step);
    } else if step.Walk? {
      WalkMisses(s, step.t, step.minted, j);
    } else {
      WritingMissesNothing(s, step);
    }
  }

  /** About to visit the item of this job, whose success cannot be read any more. */
  ghost predicate Unlucky(s: System, pc: Pc, j: string) {
    && pc.Walking? && pc.op == ReconcileChild(j, true) && pc.k < |pc.rec.items| && pc.rec.items[pc.k].job == Some(j)
    && j in s.poison && j in s.rows && s.rows[j].Succeeded? && pc.rec.items[pc.k].status != Some(Succeeded)
  }

  lemma WalkMisses(s: System, w: nat, minted: string, j: string)
    requires Inv(s) && Enabled(s, Walk(w, minted)) && j !in s.missed
    ensures j in Apply(s, Walk(w, minted)).missed <==> Unlucky(s, s.threads[w], j)
  {
    hide HomesOk, KnownOk, LockOk, CorruptOk, CopyOk, Recomputed;
    var pc := s.threads[w];
    assert PcOk(s, pc);
    var item := pc.rec.items[pc.k];
    if item.job.Some? && item.job.value in s.rows { RecomputeReflects(s, item); }
  }

  lemma WritingMissesNothing(s: System, step: Step)
    requires Enabled(s, step) && WritingStep(step)
    ensures Apply(s, step).missed == s.missed
  {
    hide AfterRead, CanAdvance, SeesOwner;
  }
}
