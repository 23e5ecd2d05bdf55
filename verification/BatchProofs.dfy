/** The invariant of the batch system is kept by every step of every thread. */
module BatchProofs {
  import opened Wrappers
  import opened JobStatuses
  import opened BatchRuns
  import StartupRecovery

  // ------------------------------------------------------- what may change

  /** Rows only move along the table; a new row has an id that was persisted, or one
      nobody had generated. */
  ghost predicate RowsEvolve(s: System, t: System) {
    && (forall j :: j in s.rows ==> j in t.rows && CanBecome(s.rows[j], t.rows[j]))
    && (forall j :: j in t.rows && j !in s.rows ==> j in s.persisted || j !in s.issued)
  }

  /** Generated ids are remembered; new ones are new. */
  ghost predicate HomesEvolve(s: System, t: System) {
    && s.issued <= t.issued
    && (forall j :: j in s.home ==> j in t.home && t.home[j] == s.home[j])
  }

  /** A step that leaves every batch file alone. */
  ghost predicate Quiet(s: System, t: System) {
    RowsEvolve(s, t) && HomesEvolve(s, t) && t.files == s.files && t.persisted == s.persisted && t.known == s.known && s.missed <= t.missed
  }

  lemma OverStable(s: System, t: System, j: string)
    requires Over(s, j) && RowsEvolve(s, t)
    ensures Over(t, j) && t.rows[j] == s.rows[j]
  {
  }

  lemma CopyStable(s: System, t: System, b: string, rec: Batch)
    requires CopyOk(s, b, rec) && Quiet(s, t) && s.home.Keys <= s.issued
    ensures CopyOk(t, b, rec)
  {
  }

  lemma QuietKeepsPc(s: System, t: System, pc: Pc)
    requires PcOk(s, pc) && Quiet(s, t) && s.home.Keys <= s.issued
    ensures PcOk(t, pc)
  {
    hide RowsEvolve, CopyOk;
    match pc
    case Want(op) => WantStable(s, t, pc);
    case Held(op) => WantStable(s, t, pc);
    case Walking(op, b, rec, k) =>
      WantStable(s, t, pc);
      CopyStable(s, t, b, rec);
      if op.ReconcileChild? && op.converging { OverStable(s, t, op.job); }
    case Saving(op, b, rec) =>
      CopyStable(s, t, b, rec);
      if op.ReconcileChild? && op.converging { OverStable(s, t, op.job); }
    case Listing(jobs, _, _, _) =>
      forall j | j in jobs ensures Over(t, j) {
        OverStable(s, t, j);
      }
    case Leaving(lesson) => if lesson.Settled? { OverStable(s, t, lesson.job); }
    case Knows(j) => OverStable(s, t, j);
    case _ =>
  }

  lemma WantStable(s: System, t: System, pc: Pc)
    requires (pc.Want? || pc.Held? || pc.Walking?) && WantOk(s, pc.op)
    requires RowsEvolve(s, t) && HomesEvolve(s, t)
    ensures WantOk(t, pc.op)
  {
    if pc.op.ReconcileChild? && pc.op.converging {
      OverStable(s, t, pc.op.job);
    }
  }

  lemma QuietKeepsKnown(s: System, t: System)
    requires KnownOk(s) && Quiet(s, t) && t.done == s.done
    ensures KnownOk(t)
  {
    hide RowsEvolve;
    forall j | j in t.done ensures Taught(t, j) {
      assert Taught(s, j);
      OverStable(s, t, j);
    }
    forall j | j in t.known ensures Known(t, j) {
      assert Known(s, j);
      OverStable(s, t, j);
    }
  }

  lemma QuietKeepsHomes(s: System, t: System)
    requires HomesOk(s) && Quiet(s, t) && t.used == s.used
    requires t.home.Keys <= t.issued && t.rows.Keys <= t.issued
    ensures HomesOk(t)
  {
  }

  /** A step that only moves thread `w`, if any, and changes no file. */
  lemma QuietStep(s: System, t: System, w: Option<nat>)
    requires Inv(s) && Quiet(s, t) && t.done == s.done && t.used == s.used
    requires t.home.Keys <= t.issued && t.rows.Keys <= t.issued
    requires forall v :: v in t.threads && Some(v) != w ==> v in s.threads && t.threads[v] == s.threads[v]
    requires w.Some? && w.value in t.threads ==> PcOk(t, t.threads[w.value])
    ensures HomesOk(t) && ThreadsOk(t) && KnownOk(t)
  {
    hide PcOk, Known, Over, HomesEvolve;
    QuietKeepsHomes(s, t);
    QuietKeepsKnown(s, t);
    forall v | v in t.threads ensures PcOk(t, t.threads[v]) {
      if Some(v) != w {
        assert PcOk(s, s.threads[v]);
        QuietKeepsPc(s, t, s.threads[v]);
      }
    }
  }

  lemma RowsSame(s: System, t: System)
    requires t.rows == s.rows && t.poison == s.poison && HomesEvolve(s, t)
    requires t.files == s.files && t.persisted == s.persisted && t.known == s.known && s.missed <= t.missed
    ensures Quiet(s, t)
  {
  }

  // --------------------------------------------------------------- the lock

  lemma StepKeepsLock(s: System, step: Step)
    requires LockOk(s) && Enabled(s, step)
    ensures LockOk(Apply(s, step))
  {
    hide Apply, LockOk, Enabled;
    if InsideStep(step) { InsideKeepsLock(s, step); } else { OtherKeepsLock(s, step); }
  }

  /** Steps only the lock holder takes. */
  ghost predicate InsideStep(step: Step) {
    step.Read? || step.Walk? || step.Finish? || step.Raise? || step.Save? || step.Enqueue? || step.Release?
  }

  lemma InsideKeepsLock(s: System, step: Step)
    requires LockOk(s) && Enabled(s, step) && InsideStep(step)
    ensures LockOk(Apply(s, step))
  {
    hide AfterRead, FilesAfterRead, ApplyWalk, CanAdvance, SeesOwner, MayStart, Certain, Sees, Settles, Ids, LearntBy, LessonOf, NewItems;
    if step.Read? {
      ReadStaysInside(s, s.threads[step.t].op, step.failing, step.listed, step.owner);
    } else if step.Walk? {
      WalkStaysInside(s, step.t, step.minted);
    }
  }

  lemma OtherKeepsLock(s: System, step: Step)
    requires LockOk(s) && Enabled(s, step) && !InsideStep(step)
    ensures LockOk(Apply(s, step))
  {
    hide AfterRead, FilesAfterRead, ApplyWalk, CanAdvance, SeesOwner, MayStart, Certain, Sees, Settles, Ids, LearntBy, LessonOf, NewItems;
  }

  lemma ReadStaysInside(s: System, op: Op, failing: set<string>, listed: bool, owner: string)
    ensures InSection(AfterRead(s, op, failing, listed, owner)) && !AfterRead(s, op, failing, listed, owner).Held?
    ensures !AfterRead(s, op, failing, listed, owner).Saving?
  {
  }

  lemma WalkStaysInside(s: System, t: nat, minted: string)
    requires Enabled(s, Walk(t, minted))
    ensures var r := ApplyWalk(s, t, minted);
      && r.lock == s.lock && r.threads.Keys == s.threads.Keys && r.threads[t].Walking?
      && (forall v :: v in s.threads && v != t ==> r.threads[v] == s.threads[v])
  {
  }

  lemma StepKeepsCorrupt(s: System, step: Step)
    requires CorruptOk(s) && Enabled(s, step)
    ensures CorruptOk(Apply(s, step))
  {
    hide AfterRead, FilesAfterRead, CanAdvance, SeesOwner, MayStart, Certain, RecoveredRows, DiskOf;
    if step.Restart? { RecoveredEvolves(s, step.failing, step.skipped); }
  }

  // ------------------------------------------------------------ quiet steps

  /** Steps of the world outside: rows, the queue, restarts. */
  ghost predicate OutsideStep(step: Step) {
    step.InsertChild? || step.InsertOther? || step.MoveRow? || step.RepairRow? || step.SpoilRow?
    || step.PreCheck? || step.EnqueueOther? || step.Dequeue? || step.Requeue? || step.LetGo? || step.Restart?
  }

  /** Recovery of a row follows the table, for every row it can read. */
  lemma RecoveredEvolves(s: System, failing: set<string>, skipped: set<string>)
    requires CorruptOk(s) && skipped <= s.poison
    ensures StartupRecovery.WellFormed(DiskOf(s, failing, skipped))
    ensures var rows := RecoveredRows(s, failing, skipped);
      rows.Keys == s.rows.Keys && forall j :: j in s.rows ==> CanBecome(s.rows[j], rows[j]) && (rows[j].Corrupt? ==> rows[j] == s.rows[j])
  {
    hide Readable;
    var d := DiskOf(s, failing, skipped);
    forall j | j in s.rows && j in d.rows
      ensures CanBecome(s.rows[j], StartupRecovery.Recovered(d, j, s.files.Keys !! failing))
    {
      StartupRecovery.RecoveryFollowsTable(d, j, s.files.Keys !! failing);
    }
  }

  lemma OutsideRows(s: System, step: Step)
    requires HomesOk(s) && Enabled(s, step) && OutsideStep(step) && !step.Restart?
    ensures RowsEvolve(s, Apply(s, step))
  {
    hide RowsEvolve, CanBecome, HomesOk, AfterRead, ApplyWalk, CanAdvance, SeesOwner, RecoveredRows, Owns;
    KeysIssued(s);
    if step.MoveRow? { EdgeIsPath(s.rows[step.job], step.to); }
    OneRowEvolves(s, Apply(s, step), step.job);
  }

  lemma EdgeIsPath(a: Status, b: Status)
    requires Edge(a, b)
    ensures CanBecome(a, b)
  {
  }

  lemma OneRowEvolves(s: System, t: System, j: string)
    requires t.rows == s.rows || (j in t.rows && t.rows == s.rows[j := t.rows[j]])
    requires j in s.rows && t.rows != s.rows ==> CanBecome(s.rows[j], t.rows[j])
    requires j !in s.rows && j in t.rows ==> j in s.persisted || j !in s.issued
    ensures RowsEvolve(s, t)
  {
  }

  lemma OutsideRest(s: System, step: Step)
    requires HomesOk(s) && Enabled(s, step) && OutsideStep(step) && !step.Restart?
    ensures OnlyRows(s, Apply(s, step))
  {
    hide HomesOk, AfterRead, ApplyWalk, CanAdvance, SeesOwner, RecoveredRows, Owns;
    KeysIssued(s);
  }

  /** Files, ids and outcomes as they were; no thread moved, some may be gone. */
  ghost predicate OnlyRows(s: System, t: System) {
    && t.home == s.home && s.issued <= t.issued && t.files == s.files && t.persisted == s.persisted && t.known == s.known && t.missed == s.missed
    && t.done == s.done && t.used == s.used && t.home.Keys <= t.issued && t.rows.Keys <= t.issued
    && (forall v :: v in t.threads ==> v in s.threads && t.threads[v] == s.threads[v])
  }

  lemma RestartRows(s: System, failing: set<string>, skipped: set<string>)
    requires HomesOk(s) && CorruptOk(s) && skipped <= s.poison
    ensures var t := Apply(s, Restart(failing, skipped)); RowsEvolve(s, t) && OnlyRows(s, t)
  {
    hide HomesOk, RecoveredRows;
    KeysIssued(s);
    RecoveredEvolves(s, failing, skipped);
  }

  lemma OutsideIsQuiet(s: System, step: Step)
    requires Inv(s) && Enabled(s, step) && OutsideStep(step)
    ensures Quiet(s, Apply(s, step)) && OnlyRows(s, Apply(s, step))
  {
    hide Apply, Enabled, RowsEvolve, HomesOk, ThreadsOk, KnownOk, LockOk, CorruptOk;
    if step.Restart? {
      RestartIsEnabled(s, step.failing, step.skipped);
      RestartRows(s, step.failing, step.skipped);
    } else {
      OutsideRows(s, step);
      OutsideRest(s, step);
    }
  }

  lemma RestartIsEnabled(s: System, failing: set<string>, skipped: set<string>)
    ensures Enabled(s, Restart(failing, skipped)) <==> skipped <= s.poison
  {
  }

  lemma OutsideKeeps(s: System, step: Step)
    requires Inv(s) && Enabled(s, step) && OutsideStep(step)
    ensures var t := Apply(s, step); HomesOk(t) && ThreadsOk(t) && KnownOk(t)
  {
    hide Quiet, PcOk, Inv, Apply, HomesOk, ThreadsOk, KnownOk;
    OutsideIsQuiet(s, step);
    var t := Apply(s, step);
    QuietStep(s, t, None);
  }

  /** Thread steps that touch no file, no row and learn nothing. */
  ghost predicate PlainStep(step: Step) {
    || step.Start? || step.Acquire? || step.Finish? || step.Raise? || (step.Save? && !step.written)
    || step.Enqueue? || step.Release? || step.ListPending? || step.ScanFile? || step.EndPass?
  }

  lemma PlainIsQuiet(s: System, step: Step)
    requires Enabled(s, step) && PlainStep(step)
    ensures var t := Apply(s, step);
      && t.rows == s.rows && t.poison == s.poison && t.home == s.home && t.issued == s.issued && t.files == s.files
      && t.persisted == s.persisted && t.known == s.known && t.missed == s.missed && t.done == s.done && t.used == s.used
      && (forall v :: v in t.threads && v != step.t ==> v in s.threads && t.threads[v] == s.threads[v])
  {
  }

  lemma PlainPcOk(s: System, step: Step)
    requires Inv(s) && Enabled(s, step) && PlainStep(step)
    ensures var t := Apply(s, step); step.t in t.threads ==> PcOk(t, t.threads[step.t])
  {
    hide Apply, Enabled, PcOk, Inv;
    if step.Finish? {
      FinishOk(s, step.t, step.added);
    } else if step.ScanFile? {
      ScanOk(s, step.t, step.b, step.readable);
    } else if step.Start? || step.Acquire? {
      EnteringOk(s, step);
    } else if step.Release? || step.ListPending? {
      LeavingOk(s, step);
    } else {
      EmptyHanded(s, step);
    }
  }

  lemma EnteringOk(s: System, step: Step)
    requires Inv(s) && Enabled(s, step) && (step.Start? || step.Acquire?)
    ensures var t := Apply(s, step); step.t in t.threads ==> PcOk(t, t.threads[step.t])
  {
    hide CopyOk, Converging, Owns, HomesOk, KnownOk, LockOk;
    if step.Acquire? { assert PcOk(s, s.threads[step.t]); }
  }

  lemma LeavingOk(s: System, step: Step)
    requires Inv(s) && Enabled(s, step) && (step.Release? || step.ListPending?)
    ensures var t := Apply(s, step); step.t in t.threads ==> PcOk(t, t.threads[step.t])
  {
    hide CopyOk, Converging, Owns, HomesOk, KnownOk, LockOk;
    if step.Release? { assert PcOk(s, s.threads[step.t]); }
  }

  /** An exception, a failed save or an exposure leaves with nothing learnt. */
  lemma EmptyHanded(s: System, step: Step)
    requires Enabled(s, step) && (step.Raise? || step.Save? || step.Enqueue? || step.EndPass?)
    requires step.Save? ==> !step.written
    ensures var t := Apply(s, step); step.t in t.threads ==> PcOk(t, t.threads[step.t])
  {
  }

  lemma FinishOk(s: System, w: nat, added: nat)
    requires Inv(s) && Enabled(s, Finish(w, added))
    ensures PcOk(Apply(s, Finish(w, added)), Apply(s, Finish(w, added)).threads[w])
  {
    hide HomesOk, KnownOk, LockOk, CorruptOk;
    assert PcOk(s, s.threads[w]);
  }

  lemma ScanOk(s: System, w: nat, b: string, readable: bool)
    requires Inv(s) && Enabled(s, ScanFile(w, b, readable))
    ensures PcOk(Apply(s, ScanFile(w, b, readable)), Apply(s, ScanFile(w, b, readable)).threads[w])
  {
    hide CanAdvance, HomesOk, KnownOk, LockOk, CorruptOk;
    var t, pc := Apply(s, ScanFile(w, b, readable)), s.threads[w];
    var q := t.threads[w];
    assert PcOk(s, pc);
    forall j | j in q.jobs ensures Over(t, j) && (q.reliable ==> forall c :: c in t.files && Owns(t.files[c], j) ==> c in q.todo || j in q.owned) {
      assert Over(s, j);
      if q.reliable {
        forall c | c in t.files && Owns(t.files[c], j) ensures c in q.todo || j in q.owned {
          if c == b {
            var i :| 0 <= i < |s.files[b].items| && s.files[b].items[i].job == Some(j);
            assert j in Ids(s.files[b]);
          }
        }
      }
    }
  }

  lemma PlainKeeps(s: System, step: Step)
    requires Inv(s) && Enabled(s, step) && PlainStep(step)
    ensures var t := Apply(s, step); HomesOk(t) && ThreadsOk(t) && KnownOk(t)
  {
    hide PcOk, Apply, Enabled, ThreadsOk, KnownOk, LockOk, CorruptOk;
    PlainIsQuiet(s, step);
    PlainPcOk(s, step);
    RowsSame(s, Apply(s, step));
    QuietStep(s, Apply(s, step), Some(step.t));
  }

  // ------------------------------------------------------------ walking

  lemma WalkIsQuiet(s: System, w: nat, minted: string)
    requires Inv(s) && Enabled(s, Walk(w, minted))
    ensures var t := Apply(s, Walk(w, minted));
      && w in s.threads && s.threads[w].Walking? && w in t.threads && t.threads[w].Walking? && t.threads[w].op == s.threads[w].op
      && t.threads[w].rec.cancelling == s.threads[w].rec.cancelling
      && Quiet(s, t) && t.done == s.done && t.used == s.used && t.home.Keys <= t.issued && t.rows.Keys <= t.issued
      && (forall v :: v in t.threads && v != w ==> v in s.threads && t.threads[v] == s.threads[v])
  {
    hide PcOk, KnownOk, LockOk;
  }

  /** One item later, the working copy is still a later version of the file. */
  lemma WalkedGrows(s: System, op: Op, x: Item, y: Item, minted: string)
    requires KnownOk(s) && ItemGrows(s.known, x, y)
    requires x.job.Some? && x.job.value in s.known ==> Over(s, x.job.value) && x.status == Some(s.rows[x.job.value])
    ensures ItemGrows(s.known, x, WalkedItem(s, op, y, minted))
    ensures y.job.Some? ==> WalkedItem(s, op, y, minted).job == y.job
  {
    hide KnownOk;
  }

  lemma KnownItem(s: System, b: string, i: nat)
    requires KnownOk(s) && b in s.files && i < |s.files[b].items|
    ensures var x := s.files[b].items[i];
      x.job.Some? && x.job.value in s.known ==> Over(s, x.job.value) && x.status == Some(s.rows[x.job.value])
  {
    var x := s.files[b].items[i];
    if x.job.Some? && x.job.value in s.known {
      assert Known(s, x.job.value);
      assert Reflected(s.files[b], x.job.value, s.rows[x.job.value], |s.files[b].items|);
    }
  }

  lemma WalkedCopy(s: System, w: nat, minted: string)
    requires Inv(s) && Enabled(s, Walk(w, minted))
    ensures var t := Apply(s, Walk(w, minted)); CopyOk(t, t.threads[w].b, t.threads[w].rec)
  {
    hide KnownOk, LockOk, CorruptOk, Recomputed, CancelIntent, CancelIntentRows, HomesOk;
    var t, pc := Apply(s, Walk(w, minted)), s.threads[w];
    var base, rec := s.files[pc.b], pc.rec;
    var rec' := t.threads[w].rec;
    assert PcOk(s, pc);
    WalkIsQuiet(s, w, minted);
    var item, item' := rec.items[pc.k], rec'.items[pc.k];
    if pc.k < |base.items| {
      KnownItem(s, pc.b, pc.k);
      WalkedGrows(s, pc.op, base.items[pc.k], item, minted);
    }
    assert forall i :: 0 <= i < |rec.items| && i != pc.k ==> rec'.items[i] == rec.items[i];
    WalkedJob(s, pc.op, item, minted);
    FreshId(s, minted);
    CopyStable(s, t, pc.b, rec) by { KeysIssued(s); }
  }

  lemma KeysIssued(s: System)
    requires HomesOk(s)
    ensures s.home.Keys <= s.issued && s.rows.Keys <= s.issued && s.persisted <= s.issued
  {
  }

  lemma FreshId(s: System, minted: string)
    requires HomesOk(s) && minted !in s.issued
    ensures minted !in s.rows && minted !in s.persisted && minted !in s.home
  {
  }

  lemma WalkedJob(s: System, op: Op, y: Item, minted: string)
    ensures var z := WalkedItem(s, op, y, minted);
      if op.Assign? && NeedsId(y, op.stage) then z.job == Some(minted) else z.job == y.job
  {
  }

  lemma WalkedConverging(s: System, w: nat, minted: string)
    requires Inv(s) && Enabled(s, Walk(w, minted))
    ensures var t := Apply(s, Walk(w, minted)); Converging(t, t.threads[w].op, t.threads[w].b, t.threads[w].rec, t.threads[w].k)
  {
    hide KnownOk, LockOk, CorruptOk, HomesOk, CopyOk, CancelIntent, CancelIntentRows;
    var t, pc := Apply(s, Walk(w, minted)), s.threads[w];
    assert PcOk(s, pc);
    if pc.op.ReconcileChild? && pc.op.converging {
      WalkIsQuiet(s, w, minted);
      OverStable(s, t, pc.op.job);
    }
  }

  lemma WalkKeeps(s: System, w: nat, minted: string)
    requires Inv(s) && Enabled(s, Walk(w, minted))
    ensures var t := Apply(s, Walk(w, minted)); HomesOk(t) && ThreadsOk(t) && KnownOk(t)
  {
    hide PcOk, Quiet, ThreadsOk, KnownOk, LockOk, CorruptOk, HomesOk, CopyOk, Converging, Apply, Enabled;
    WalkIsQuiet(s, w, minted);
    var t := Apply(s, Walk(w, minted));
    WalkedCopy(s, w, minted);
    WalkedConverging(s, w, minted);
    StillUnhindered(s, w, minted);
    StillWanted(s, w, minted);
    WalkingPc(t, t.threads[w]);
    QuietStep(s, t, Some(w));
  }

  lemma StillUnhindered(s: System, w: nat, minted: string)
    requires ThreadsOk(s) && Enabled(s, Walk(w, minted))
    ensures var t := Apply(s, Walk(w, minted)); Unhindered(t.threads[w].op, t.threads[w].rec, t.threads[w].k)
  {
    var pc := s.threads[w];
    assert PcOk(s, pc);
    hide CopyOk, Converging, Owns, CancelIntentRows;
    var item := pc.rec.items[pc.k];
    WalkedCloses(s, pc.op, item, minted);
    assert Unhindered(pc.op, pc.rec, pc.k);
  }

  /** A cancellation closes the item it visits; other work closes nothing and opens
      nothing. */
  lemma WalkedCloses(s: System, op: Op, y: Item, minted: string)
    ensures var z := WalkedItem(s, op, y, minted);
      && (op.Cancel? && z.job.None? ==> Finished(z))
      && (!op.Assign? && y.job.None? && Finished(y) ==> z.job.None? && Finished(z))
      && (!op.Assign? ==> z.job == y.job)
  {
  }

  lemma StillWanted(s: System, w: nat, minted: string)
    requires Inv(s) && Enabled(s, Walk(w, minted))
    ensures WantOk(Apply(s, Walk(w, minted)), s.threads[w].op)
  {
    hide CopyOk, Converging, HomesOk, KnownOk, LockOk, CorruptOk, RowsEvolve;
    WalkIsQuiet(s, w, minted);
    assert PcOk(s, s.threads[w]);
    WantStable(s, Apply(s, Walk(w, minted)), s.threads[w]);
  }

  lemma WalkingPc(t: System, pc: Pc)
    requires pc.Walking? && WantOk(t, pc.op) && CopyOk(t, pc.b, pc.rec) && Converging(t, pc.op, pc.b, pc.rec, pc.k) && Unhindered(pc.op, pc.rec, pc.k)
    ensures PcOk(t, pc)
  {
  }
}
