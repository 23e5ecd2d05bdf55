/** The invariant of the job system is kept by every step, and so by every run. */
module JobProofs {
  import opened Wrappers
  import opened JobStatuses
  import opened JobRuns

  /** The change one row may undergo in one step. */
  ghost predicate RowEdge(a: Row, b: Row) {
    if a.None? then b.None? || b == Some(Queued) else b.Some? && Edge(a.value, b.value)
  }

  // --------------------------------------------------------- one worker step

  /** Each atomic step of a worker follows the table and leaves the worker where
      its next position is justified. */
  lemma StepFollowsTable(pc: Pc, row: Row, ch: Choice)
    requires PcOk(pc, row)
    ensures var e := StepOf(pc, row, ch);
      && (row.None? ==> e.row.None?) && RowEdge(row, e.row)
      && (e.next.Some? ==> PcOk(e.next.value, e.row))
      && (e.row.Some? && e.row.value.Corrupt? ==> e.row == row)
  {
    hide StepOf, PcOk;
    if pc.Owner() { OwnerFollowsTable(pc, row, ch); } else { ClaimFollowsTable(pc, row, ch); }
  }

  lemma OwnerFollowsTable(pc: Pc, row: Row, ch: Choice)
    requires PcOk(pc, row) && pc.Owner()
    ensures var e := StepOf(pc, row, ch);
      row.Some? && RowEdge(row, e.row) && !e.row.value.Corrupt? && (e.next.Some? ==> PcOk(e.next.value, e.row))
  {
  }

  lemma ClaimFollowsTable(pc: Pc, row: Row, ch: Choice)
    requires PcOk(pc, row) && !pc.Owner()
    ensures var e := StepOf(pc, row, ch);
      && (row.None? ==> e.row.None?) && RowEdge(row, e.row)
      && (e.next.Some? ==> PcOk(e.next.value, e.row))
      && (e.row.Some? && e.row.value.Corrupt? ==> e.row == row)
  {
  }

  /** Ownership begins with the claim of a queued row, and only there; the generator
      is entered by an owner that was on its way to it. */
  lemma StepOwnership(pc: Pc, row: Row, ch: Choice)
    requires PcOk(pc, row)
    ensures var e := StepOf(pc, row, ch);
      && (e.next.Some? && e.next.value.Owner() && !pc.Owner() ==> row == Some(Queued) && e.next.value == Claimed && !e.enters)
      && (e.enters ==> pc.BeforeGenerator() && e.next == Some(Generating) && e.row == Some(Running))
      && (e.next.Some? && e.next.value.BeforeGenerator() && pc.Owner() ==> pc.BeforeGenerator() && !e.enters)
      && (!pc.Owner() && row.Some? && !row.value.Queued? && !row.value.Corrupt? ==> e.row == row)
  {
  }

  /** A worker that lets go of an unclaimed id put it back, or its row is not queued. */
  lemma StepKeepsWork(pc: Pc, row: Row, ch: Choice)
    requires PcOk(pc, row)
    ensures var e := StepOf(pc, row, ch);
      (e.next.None? || e.next.value.Owner()) && !e.requeues ==> e.row != Some(Queued)
  {
  }

  /** What a worker knows survives what others do to its row: an owner's row is only
      ever cancelled or failed by others, an unclaimed one follows the table. */
  lemma KnowledgeIsStable(pc: Pc, a: Row, b: Row)
    requires PcOk(pc, a) && RowEdge(a, b)
    requires pc.Owner() ==> a == b || b.value in {CancelRequested, Cancelled, Failed}
    ensures PcOk(pc, b)
  {
  }

  // ------------------------------------------------------- steps of the system

  /** The rest of the world: cancel, fail, finalize, repair, create. */
  ghost predicate Outside(step: Step) {
    step.Create? || step.Cancel? || step.Fail? || step.Finalize? || step.RepairRow?
  }

  /** What each step of the rest of the world does to a row, and when it may come. */
  lemma OutsideExact(s: System, step: Step, id: string)
    requires Enabled(s, step) && !step.Act?
    ensures RowOf(Apply(s, step), id) ==
      match step
      case Create(j) => if j == id && id !in s.rows then Some(Queued) else RowOf(s, id)
      case Cancel(j, seen) =>
        if j != id || RowOf(s, id) != Some(seen) then RowOf(s, id)
        else if seen == Queued then Some(Cancelled)
        else if seen in {Preparing, Running, Postprocessing} then Some(CancelRequested) else RowOf(s, id)
      case Fail(j, expected) => if j == id && id in s.rows && s.rows[id] in expected then Some(Failed) else RowOf(s, id)
      case Finalize(j) => if j == id && RowOf(s, id) == Some(CancelRequested) then Some(Cancelled) else RowOf(s, id)
      case RepairRow(j) => if j == id && id in s.rows && s.rows[id].Corrupt? then Some(Failed) else RowOf(s, id)
      case _ => RowOf(s, id)
  {
  }

  /** The queue and the workers: enqueueing adds an id, dequeueing hands it to a free
      worker at its first read, a restart forgets both, nothing else touches them. */
  lemma QueueStepsExact(s: System, step: Step)
    requires Enabled(s, step) && !step.Act?
    ensures var t := Apply(s, step);
      && t.pending == (match step case Enqueue(j) => s.pending + {j} case Dequeue(_, j) => s.pending - {j} case Restart => {} case _ => s.pending)
      && t.workers == (match step case Dequeue(w, j) => s.workers[w := Worker(j, Fetched)] case Restart => map[] case _ => s.workers)
      && t.exposed == (match step case Enqueue(j) => s.exposed + {j} case Restart => {} case _ => s.exposed)
      && t.entered == s.entered
    ensures step.Dequeue? ==> step.job in s.pending && step.worker !in s.workers
  {
  }

  /** Creations, cancels, failures, repairs and restarts may come at any time. */
  lemma OutsideIsFree(s: System, id: string, seen: Status)
    ensures Enabled(s, Create(id)) && Enabled(s, Cancel(id, seen)) && Enabled(s, Fail(id, ACTIVE))
    ensures Enabled(s, Finalize(id)) && Enabled(s, RepairRow(id)) && Enabled(s, Restart)
  {
  }

  lemma OutsideChanges(s: System, step: Step, id: string)
    requires Outside(step) && Enabled(s, step)
    ensures var a, b := RowOf(s, id), RowOf(Apply(s, step), id);
      && RowEdge(a, b) && (a.Some? ==> a == b || b.value in {CancelRequested, Cancelled, Failed})
      && (b.Some? && b.value.Corrupt? ==> a == b)
    ensures var t := Apply(s, step);
      t.pending == s.pending && t.workers == s.workers && t.exposed == s.exposed && t.entered == s.entered
  {
  }

  lemma ActFrame(s: System, w: nat, ch: Choice)
    requires w in s.workers
    ensures var t, id := Apply(s, Act(w, ch)), s.workers[w].job;
      var e := StepOf(s.workers[w].pc, RowOf(s, id), ch);
      && (forall k :: k != id ==> RowOf(t, k) == RowOf(s, k))
      && ((RowOf(s, id).Some? ==> e.row.Some?) ==> RowOf(t, id) == e.row || (e.row.None? && RowOf(t, id).None?))
      && (forall v :: v != w ==> (v in t.workers <==> v in s.workers) && (v in s.workers ==> t.workers[v] == s.workers[v]))
      && (w in t.workers <==> e.next.Some?) && (e.next.Some? ==> t.workers[w] == Worker(id, e.next.value))
      && t.exposed == s.exposed && t.entered == (if e.enters then s.entered + multiset{id} else s.entered)
      && t.pending == (if e.requeues then s.pending + {id} else s.pending)
  {
    hide StepOf;
  }

  /** Every row, in every step, changes along an edge of the table or not at all. */
  lemma StepChangesByEdges(s: System, step: Step, id: string)
    requires WorkersOk(s) && Enabled(s, step)
    ensures RowEdge(RowOf(s, id), RowOf(Apply(s, step), id))
  {
    hide StepOf;
    match step
    case Act(w, ch) =>
      ActFrame(s, w, ch);
      StepFollowsTable(s.workers[w].pc, RowOf(s, s.workers[w].job), ch);
    case Enqueue(_) =>
    case Dequeue(_, _) =>
    case Restart =>
    case _ => OutsideChanges(s, step, id);
  }

  lemma StepKeepsWorkers(s: System, step: Step)
    requires Inv(s) && Enabled(s, step)
    ensures WorkersOk(Apply(s, step))
  {
    hide StepOf, PcOk, RowEdge;
    var t := Apply(s, step);
    if step.Act? {
      var w, ch := step.worker, step.choice;
      ActFrame(s, w, ch);
      ActKeepsOthers(s, w, ch);
    } else if Outside(step) {
      forall v | v in t.workers ensures PcOk(t.workers[v].pc, RowOf(t, t.workers[v].job)) {
        OutsideChanges(s, step, s.workers[v].job);
        OutsideIsHarmless(s.workers[v].pc, RowOf(s, s.workers[v].job), RowOf(t, s.workers[v].job));
      }
    } else if step.Dequeue? {
      assert PcOk(Fetched, RowOf(t, step.job)) by { FetchedIsOk(RowOf(t, step.job)); }
      forall v | v in t.workers ensures PcOk(t.workers[v].pc, RowOf(t, t.workers[v].job)) {
        assert v == step.worker || t.workers[v] == s.workers[v];
      }
    } else {
      forall v | v in t.workers ensures PcOk(t.workers[v].pc, RowOf(t, t.workers[v].job)) {
        assert t.workers[v] == s.workers[v];
      }
    }
  }

  lemma FetchedIsOk(row: Row)
    ensures PcOk(Fetched, row)
  {
  }

  lemma OutsideIsHarmless(pc: Pc, a: Row, b: Row)
    requires PcOk(pc, a) && RowEdge(a, b)
    requires a.Some? ==> a == b || b.value in {CancelRequested, Cancelled, Failed}
    ensures PcOk(pc, b)
  {
    KnowledgeIsStable(pc, a, b);
  }

  /** A worker's own step moves it to a justified position and leaves every other
      worker's knowledge true. */
  lemma ActKeepsOthers(s: System, w: nat, ch: Choice)
    requires WorkersOk(s) && OneOwner(s) && w in s.workers
    ensures WorkersOk(Apply(s, Act(w, ch)))
  {
    hide StepOf, PcOk, RowEdge;
    var t, id := Apply(s, Act(w, ch)), s.workers[w].job;
    var pc, row := s.workers[w].pc, RowOf(s, id);
    var e := StepOf(pc, row, ch);
    assert PcOk(pc, row);
    ActFrame(s, w, ch);
    StepFollowsTable(pc, row, ch);
    EdgeKeepsRow(row, e.row);
    forall v | v in t.workers ensures PcOk(t.workers[v].pc, RowOf(t, t.workers[v].job)) {
      if v != w && s.workers[v].job == id {
        assert PcOk(s.workers[v].pc, row);
        SharedRow(pc, s.workers[v].pc, row, ch);
      }
    }
  }

  lemma EdgeKeepsRow(a: Row, b: Row)
    requires RowEdge(a, b)
    ensures a.Some? ==> b.Some?
  {
  }

  /** Two workers hold the same id and not both own it: one's step leaves the
      other's knowledge true. */
  lemma SharedRow(pc: Pc, other: Pc, row: Row, ch: Choice)
    requires PcOk(pc, row) && PcOk(other, row) && !(pc.Owner() && other.Owner())
    ensures PcOk(other, StepOf(pc, row, ch).row)
  {
    hide StepOf;
    StepFollowsTable(pc, row, ch);
    StepOwnership(pc, row, ch);
    KnowledgeIsStable(other, row, StepOf(pc, row, ch).row);
  }

  lemma OwnersRow(pc: Pc, row: Row)
    requires PcOk(pc, row) && pc.Owner()
    ensures row.Some? && !row.value.Queued? && !row.value.Corrupt?
  {
  }

  lemma StepKeepsOneOwner(s: System, step: Step)
    requires Inv(s) && Enabled(s, step)
    ensures OneOwner(Apply(s, step))
  {
    hide StepOf, PcOk;
    var t := Apply(s, step);
    if step.Act? {
      var w, ch := step.worker, step.choice;
      var pc, id := s.workers[w].pc, s.workers[w].job;
      ActFrame(s, w, ch);
      StepOwnership(pc, RowOf(s, id), ch);
      forall v | v in t.workers && v != w && t.workers[v].pc.Owner() && w in t.workers && t.workers[w].pc.Owner()
        ensures t.workers[v].job != id
      {
        OwnersRow(s.workers[v].pc, RowOf(s, s.workers[v].job));
        assert v in s.workers && s.workers[v].pc.Owner();
      }
    } else if Outside(step) {
      OutsideChanges(s, step, "");
    } else if step.Dequeue? {
      forall v | v in t.workers && t.workers[v].pc.Owner() ensures v in s.workers && s.workers[v] == t.workers[v] {
      }
    }
  }

  lemma StepKeepsEntries(s: System, step: Step)
    requires Inv(s) && Enabled(s, step)
    ensures EntriesOk(Apply(s, step))
  {
    hide StepOf, PcOk, RowEdge;
    var t := Apply(s, step);
    if step.Act? {
      ActKeepsEntries(s, step.worker, step.choice);
    } else if Outside(step) {
      forall id ensures EntryOk(t, id) {
        assert EntryOk(s, id);
        OutsideChanges(s, step, id);
        SettledStays(RowOf(s, id), RowOf(t, id));
      }
      OutsideChanges(s, step, "");
      assert forall w :: w in t.workers ==> t.workers[w] == s.workers[w];
    } else {
      forall id ensures EntryOk(t, id) {
        assert EntryOk(s, id);
      }
      assert forall w :: w in t.workers && t.workers[w].pc.BeforeGenerator() ==> w in s.workers && t.workers[w] == s.workers[w];
    }
  }

  lemma SettledStays(a: Row, b: Row)
    requires RowEdge(a, b) && (b.Some? && b.value.Corrupt? ==> a == b)
    ensures a.Some? && !a.value.Queued? && !a.value.Corrupt? ==> b.Some? && !b.value.Queued? && !b.value.Corrupt?
  {
  }

  lemma ActKeepsEntries(s: System, w: nat, ch: Choice)
    requires Inv(s) && w in s.workers
    ensures EntriesOk(Apply(s, Act(w, ch)))
  {
    hide StepOf, PcOk, RowEdge;
    var t, id := Apply(s, Act(w, ch)), s.workers[w].job;
    var pc, row := s.workers[w].pc, RowOf(s, id);
    var e := StepOf(pc, row, ch);
    ActFrame(s, w, ch);
    StepOwnership(pc, row, ch);
    StepFollowsTable(pc, row, ch);
    EdgeKeepsRow(row, e.row);
    SettledStays(row, e.row);
    forall k ensures EntryOk(t, k) {
      assert EntryOk(s, k) && EntryOk(s, id);
      assert RowOf(t, k) == (if k == id then e.row else RowOf(s, k));
    }
    forall v | v in t.workers && t.workers[v].pc.BeforeGenerator() ensures t.entered[t.workers[v].job] == 0 {
      assert EntryOk(s, id);
      if v != w && e.enters {
        assert s.workers[v].pc.Owner() && pc.Owner();
      }
    }
  }

  lemma StepKeepsNothingLost(s: System, step: Step)
    requires Inv(s) && Enabled(s, step)
    ensures NothingLost(Apply(s, step))
  {
    hide StepOf, PcOk, RowEdge;
    var t := Apply(s, step);
    forall id | id in t.exposed ensures id in t.rows && (Is(RowOf(t, id), Queued) ==> id in t.pending || InHand(t, id)) {
      StepChangesByEdges(s, step, id);
      EdgeToQueued(RowOf(s, id), RowOf(t, id));
      if Is(RowOf(t, id), Queued) && id !in t.pending {
        if step.Act? {
          ActKeepsHand(s, step.worker, step.choice, id);
        } else if step.Dequeue? && step.job == id {
          assert t.workers[step.worker] == Worker(id, Fetched);
        } else {
          var w :| w in s.workers && s.workers[w].job == id && !s.workers[w].pc.Owner();
          if Outside(step) { OutsideChanges(s, step, id); }
          assert w in t.workers && t.workers[w] == s.workers[w];
        }
      }
    }
  }

  lemma EdgeToQueued(a: Row, b: Row)
    requires RowEdge(a, b)
    ensures a.Some? ==> b.Some? && (b == Some(Queued) ==> a == b)
  {
  }

  lemma ActKeepsHand(s: System, w: nat, ch: Choice, id: string)
    requires Inv(s) && w in s.workers && id in s.exposed && Is(RowOf(s, id), Queued)
    requires var t := Apply(s, Act(w, ch)); Is(RowOf(t, id), Queued) && id !in t.pending
    ensures InHand(Apply(s, Act(w, ch)), id)
  {
    hide StepOf, PcOk, RowEdge;
    var t := Apply(s, Act(w, ch));
    var pc, row := s.workers[w].pc, RowOf(s, s.workers[w].job);
    ActFrame(s, w, ch);
    StepFollowsTable(pc, row, ch);
    EdgeKeepsRow(row, StepOf(pc, row, ch).row);
    StepKeepsWork(pc, row, ch);
    var v :| v in s.workers && s.workers[v].job == id && !s.workers[v].pc.Owner();
    assert v in t.workers && t.workers[v].job == id && !t.workers[v].pc.Owner();
  }

  // ------------------------------------------------------------------ runs

  lemma StepKeepsInv(s: System, step: Step)
    requires Inv(s) && Enabled(s, step)
    ensures Inv(Apply(s, step))
  {
    StepKeepsWorkers(s, step);
    StepKeepsOneOwner(s, step);
    StepKeepsEntries(s, step);
    StepKeepsNothingLost(s, step);
  }

  lemma {:induction false} RunKeepsInv(s: System, steps: seq<Step>, s': System)
    requires Inv(s) && Run(s, steps, s')
    ensures Inv(s')
    decreases |steps|
  {
    hide Inv, Apply;
    if steps != [] {
      StepKeepsInv(s, steps[0]);
      RunKeepsInv(Apply(s, steps[0]), steps[1..], s');
    }
  }

  lemma InitialInv(s: System)
    requires Initial(s)
    ensures Inv(s)
  {
  }
}
