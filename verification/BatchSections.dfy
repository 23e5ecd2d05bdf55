/** The steps of the batch system one by one: what each writes, who may take it, and
    that whoever holds the lock can always go on to release it. */
module BatchSections {
  import opened Wrappers
  import opened JobStatuses
  import opened BatchRuns
  import StartupRecovery

  // ------------------------------------------------------------ one item

  /** What a cancellation makes of an item: cancelled, unless it has a child that is
      over by its record, or one whose row exists and is not both undecodable and still
      queued. Nothing but its status ever changes. */
  lemma CancelIntentExact(s: System, item: Item)
    ensures var r := CancelIntent(s, item);
      && r.job == item.job && r.stage == item.stage && r.status in {item.status, Some(Cancelled)}
      && (r.status == Some(Cancelled) <==>
            || item.status == Some(Cancelled)
            || item.job.None?
            || (item.status !in {Some(Succeeded), Some(Failed)}
                && (item.job.value in s.rows ==> item.job.value in s.poison && s.rows[item.job.value] == Queued)))
  {
  }

  /** A row that cannot be decoded and would still run, of an item that is not over. */
  predicate Uncancelled(s: System, item: Item, j: string) {
    item.status !in {Some(Succeeded), Some(Failed), Some(Cancelled)} && j in s.poison && j in s.rows && s.rows[j] == Queued
  }

  /** The only row it changes is such a queued one, which it cancels with the item. */
  lemma CancelIntentRow(s: System, item: Item)
    ensures var rows := CancelIntentRows(s, item);
      && rows.Keys == s.rows.Keys
      && forall k :: k in s.rows ==> rows[k] == if item.job == Some(k) && Uncancelled(s, item, k) then Cancelled else s.rows[k]
  {
  }

  /** Which items get a child id: those of the stage without one that are not over. */
  lemma AssignExact(s: System, b: string, stage: nat, item: Item, minted: string)
    ensures WalkedItem(s, Assign(b, stage), item, minted) ==
      if item.stage == stage && item.job == None && item.status !in {Some(Succeeded), Some(Failed), Some(Cancelled)}
      then Item(Some(minted), item.stage, item.status) else item
  {
  }

  /** A reconciliation copies statuses and nothing else. */
  lemma ReconcileExact(s: System, op: Op, item: Item, minted: string)
    requires op.Reconcile? || op.ReconcileChild?
    ensures var r := WalkedItem(s, op, item, minted);
      && r.job == item.job && r.stage == item.stage
      && r.status ==
           if item.job.Some? && item.job.value in s.rows
              && (item.job.value !in s.poison || s.rows[item.job.value] in {Failed, Cancelled})
           then Some(s.rows[item.job.value]) else item.status
  {
  }

  // ------------------------------------------------------- what each step writes

  /** Asking, taking the lock when it is free, raising and releasing it; only a lesson
      outlives the section, and only to be recorded as completion or dropped. */
  lemma LockSteps(s: System, t: nat, op: Op)
    ensures Enabled(s, Start(t, op)) ==> Apply(s, Start(t, op)) == s.(threads := s.threads[t := Want(op)])
    ensures Enabled(s, Acquire(t)) ==> s.lock == None && s.threads[t].Want?
    ensures Enabled(s, Acquire(t)) ==> Apply(s, Acquire(t)) == s.(lock := Some(t), threads := s.threads[t := Held(s.threads[t].op)])
    ensures Enabled(s, Raise(t)) ==> Apply(s, Raise(t)) == s.(threads := s.threads[t := Leaving(Nothing)])
    ensures Enabled(s, Release(t)) ==> s.threads[t].Leaving?
    ensures Enabled(s, Release(t)) ==>
      Apply(s, Release(t)) ==
        match s.threads[t].lesson
        case Nothing => s.(lock := None, threads := s.threads - {t})
        case Settled(j) => s.(lock := None, threads := s.threads[t := Knows(j)])
  {
  }

  lemma CompletionSteps(s: System, t: nat, j: string)
    ensures Enabled(s, MarkDone(t)) ==>
      s.threads[t].Knows? && Apply(s, MarkDone(t)) == s.(done := s.done + {s.threads[t].job}, threads := s.threads - {t})
    ensures Enabled(s, MarkByIndex(t, j)) ==> Apply(s, MarkByIndex(t, j)) == s.(done := s.done + {j}, known := s.known + {j})
    ensures Enabled(s, EndPass(t)) ==> Apply(s, EndPass(t)) == s.(threads := s.threads - {t})
  {
  }

  /** A listing starts with every file and no owner; each file it reads adds the ids it
      owns, and one it cannot read makes it unreliable. */
  lemma ListingSteps(s: System, t: nat, jobs: set<string>, b: string, readable: bool, j: string)
    ensures Enabled(s, ListPending(t, jobs)) ==>
      Apply(s, ListPending(t, jobs)) == s.(threads := s.threads[t := Listing(jobs, s.files.Keys, {}, true)])
    ensures Enabled(s, ScanFile(t, b, readable)) ==>
      var pc, t' := s.threads[t], Apply(s, ScanFile(t, b, readable));
      var pc' := t'.threads[t];
      && t' == s.(threads := s.threads[t := pc'])
      && pc'.Listing? && pc'.jobs == pc.jobs && pc'.todo == pc.todo - {b}
      && pc'.reliable == (pc.reliable && readable && b in s.files)
      && (j in pc'.owned <==> j in pc.owned || (readable && b in s.files && Owns(s.files[b], j)))
  {
  }

  /** The first look: a creation or deletion is written at once, else the copy, exposure
      or lesson it leads to; a lesson is learnt unless the outcome was missed. */
  lemma ReadStep(s: System, t: nat, failing: set<string>, listed: bool, owner: string)
    requires Enabled(s, Read(t, failing, listed, owner))
    ensures var op, s' := s.threads[t].op, Apply(s, Read(t, failing, listed, owner));
      var pc := AfterRead(s, op, failing, listed, owner);
      s' == s.(threads := s.threads[t := pc],
               files := match op case Create(b, batch) => s.files[b := batch] case Delete(b) => s.files - {b} case _ => s.files,
               used := if op.Create? then s.used + {op.b} else s.used,
               known := if pc.Leaving? && pc.lesson.Settled? && pc.lesson.job !in s.missed then s.known + {pc.lesson.job} else s.known)
  {
    hide AfterRead;
  }

  /** One item of a walk: it alone changes in the copy; an id is generated exactly for
      an item that gets one. */
  lemma WalkStep(s: System, t: nat, minted: string)
    requires Enabled(s, Walk(t, minted))
    ensures var pc, s' := s.threads[t], Apply(s, Walk(t, minted));
      var x, y := pc.rec.items[pc.k], WalkedItem(s, pc.op, pc.rec.items[pc.k], minted);
      s' == s.(threads := s.threads[t := Walking(pc.op, pc.b, pc.rec.(items := pc.rec.items[pc.k := y]), pc.k + 1)],
               rows := if pc.op.Cancel? then CancelIntentRows(s, x) else s.rows,
               home := if pc.op.Assign? && y.job != x.job then s.home[minted := (pc.b, pc.k)] else s.home,
               issued := if pc.op.Assign? && y.job != x.job then s.issued + {minted} else s.issued,
               missed := s'.missed)
  {
    hide CancelIntentRows, CancelIntent, Recomputed;
  }

  /** The end of a walk, with so many new pending items of the next stage. */
  lemma FinishStep(s: System, t: nat, added: nat)
    requires Enabled(s, Finish(t, added))
    ensures var pc, s' := s.threads[t], Apply(s, Finish(t, added));
      var pc' := s'.threads[t];
      && s' == s.(threads := s.threads[t := pc'])
      && pc'.Saving? && pc'.op == pc.op && pc'.b == pc.b && pc'.rec.cancelling == pc.rec.cancelling && pc'.rec.stages == pc.rec.stages
      && pc.rec.items <= pc'.rec.items && |pc'.rec.items| == |pc.rec.items| + added
      && pc'.rec.stage == (if added > 0 then pc.rec.stage + 1 else pc.rec.stage)
      && forall i :: |pc.rec.items| <= i < |pc'.rec.items| ==> pc'.rec.items[i] == Item(None, pc.rec.stage + 1, None)
  {
    hide CanAdvance;
  }

  /** A save puts the copy in place or fails as a whole; only a written one teaches, and
      only a converging reconciliation. */
  lemma SaveStep(s: System, t: nat, written: bool, j: string)
    requires Enabled(s, Save(t, written))
    ensures var pc, s' := s.threads[t], Apply(s, Save(t, written));
      var teaches := written && pc.op.ReconcileChild? && pc.op.converging;
      && s' == s.(files := if written then s.files[pc.b := pc.rec] else s.files,
                  threads := s.threads[t := Leaving(if teaches then Settled(pc.op.job) else Nothing)],
                  persisted := s'.persisted,
                  known := if teaches && pc.op.job !in s.missed then s.known + {pc.op.job} else s.known)
      && (j in s'.persisted <==> j in s.persisted || (written && Owns(pc.rec, j)))
  {
  }

  /** An id enters the queue by an exposure, if its row is readable and not cancelled. */
  lemma EnqueueStep(s: System, t: nat)
    requires Enabled(s, Enqueue(t))
    ensures var k := s.threads[t].job;
      Apply(s, Enqueue(t)) ==
        s.(threads := s.threads[t := Leaving(Nothing)],
           pending := if k in s.rows && s.rows[k] != Cancelled && k !in s.poison then s.pending + {k} else s.pending)
  {
  }

  /** It leaves with a worker, which puts it back or lets go of it. */
  lemma HandSteps(s: System, j: string)
    ensures j in s.pending ==> Enabled(s, Dequeue(j)) && Apply(s, Dequeue(j)) == s.(pending := s.pending - {j}, handed := s.handed + multiset{j})
    ensures j in s.handed ==> Enabled(s, Requeue(j)) && Apply(s, Requeue(j)) == s.(pending := s.pending + {j}, handed := s.handed - multiset{j})
    ensures j in s.handed ==> Enabled(s, LetGo(j)) && Apply(s, LetGo(j)) == s.(handed := s.handed - multiset{j})
  {
  }

  /** Rows appear queued: a child's when its batch was seen live, another job's under an
      id nobody has, and then that job may be enqueued. */
  lemma InsertionSteps(s: System, j: string)
    ensures j in s.persisted && j in s.cleared ==>
      Enabled(s, InsertChild(j)) && Apply(s, InsertChild(j)) == s.(rows := if j in s.rows then s.rows else s.rows[j := Queued])
    ensures j !in s.issued ==>
      Enabled(s, InsertOther(j)) && Apply(s, InsertOther(j)) == s.(rows := s.rows[j := Queued], issued := s.issued + {j})
    ensures j in s.rows && j !in s.home ==> Enabled(s, EnqueueOther(j)) && Apply(s, EnqueueOther(j)) == s.(pending := s.pending + {j})
  {
  }

  /** Rows move along the table, and become undecodable and decodable again. */
  lemma RowSteps(s: System, j: string, to: Status)
    requires j in s.rows
    ensures Edge(s.rows[j], to) ==> Enabled(s, MoveRow(j, to)) && Apply(s, MoveRow(j, to)) == s.(rows := s.rows[j := to])
    ensures !s.rows[j].Corrupt? ==> Enabled(s, RepairRow(j)) && Apply(s, RepairRow(j)) == s.(poison := s.poison - {j})
    ensures Enabled(s, SpoilRow(j)) && Apply(s, SpoilRow(j)) == s.(poison := s.poison + {j})
  {
    hide Edge;
  }

  /** A look at a live batch clears its children for insertion. */
  lemma PreCheckStep(s: System, b: string, j: string)
    ensures Enabled(s, PreCheck(b, j)) <==>
      b in s.files && !s.files[b].cancelling && exists i :: 0 <= i < |s.files[b].items| && s.files[b].items[i].job == Some(j)
    ensures Enabled(s, PreCheck(b, j)) ==> Apply(s, PreCheck(b, j)) == s.(cleared := s.cleared + {j})
  {
  }

  /** The status a row has after a restart: as the recovery leaves it, or as it was where
      its quarantine failed. */
  function RestartedAs(s: System, failing: set<string>, skipped: set<string>, j: string): Status
    requires j in s.rows
  {
    if j in skipped then s.rows[j]
    else StartupRecovery.Recovered(DiskOf(s, failing, skipped), j, forall b :: b in s.files ==> b !in failing)
  }

  lemma RestartedRow(s: System, failing: set<string>, skipped: set<string>, j: string)
    requires j in s.rows
    ensures RecoveredRows(s, failing, skipped)[j] == RestartedAs(s, failing, skipped, j)
  {
    assert (s.files.Keys !! failing) == (forall b :: b in s.files ==> b !in failing);
  }

  /** A new process: no lock, no threads, nothing in hand; rows as recovery leaves them,
      and the queued ones pending if every batch could be read. */
  lemma RestartStep(s: System, failing: set<string>, skipped: set<string>, j: string)
    requires skipped <= s.poison
    ensures Enabled(s, Restart(failing, skipped))
    ensures var s' := Apply(s, Restart(failing, skipped));
      && s' == s.(lock := None, threads := map[], handed := multiset{}, cleared := {}, rows := s'.rows, pending := s'.pending)
      && s'.rows.Keys == s.rows.Keys
      && (j in s.rows ==> s'.rows[j] == RestartedAs(s, failing, skipped, j))
      && (j in s'.pending <==> (forall b :: b in s.files ==> b !in failing) && j in s.rows && s'.rows[j] == Queued && j !in s.poison)
  {
    hide DiskOf, RestartedAs;
    if j in s.rows { RestartedRow(s, failing, skipped, j); }
  }

  /** What recovery finds: every row that is not skipped, the children of every batch it
      can read with what is recorded for them, and which of these are being cancelled. */
  lemma DiskExact(s: System, failing: set<string>, skipped: set<string>, b: string, i: nat, j: string)
    requires HomesOk(s) && Enabled(s, Restart(failing, skipped))
    ensures var d := DiskOf(s, failing, skipped);
      && (j in d.rows <==> j in s.rows && j !in skipped) && (j in d.rows ==> d.rows[j] == s.rows[j])
      && (j in d.poison <==> j in s.poison && j !in skipped)
      && (b in d.cancelling <==> b in s.files && b !in failing && s.files[b].cancelling)
      && (b in s.files && b !in failing && i < |s.files[b].items| && s.files[b].items[i].job == Some(j) ==>
            j in d.children && d.children[j] == StartupRecovery.Child(b, s.files[b].items[i].status))
      && (j in d.children ==> d.children[j].batch in s.files && d.children[j].batch !in failing && Owns(s.files[d.children[j].batch], j))
  {
    if b in s.files { assert AtHome(s.home, b, s.files[b]); }
  }

  // ------------------------------------------------------------ threads

  /** Some file a scan can read owns the job. */
  ghost predicate OwnerInSight(s: System, failing: set<string>, listed: bool, j: string) {
    listed && exists b, i :: b in s.files && b !in failing && 0 <= i < |s.files[b].items| && s.files[b].items[i].job == Some(j)
  }

  lemma SightIsExact(s: System, failing: set<string>, listed: bool, j: string)
    ensures SeesOwner(s, failing, listed, j) <==> OwnerInSight(s, failing, listed, j)
    ensures Certain(s, failing, listed) <==> listed && forall b :: b in s.files ==> b !in failing
  {
    if OwnerInSight(s, failing, listed, j) {
      var b, i :| b in s.files && b !in failing && 0 <= i < |s.files[b].items| && s.files[b].items[i].job == Some(j);
      assert Sees(s, failing, listed, b, j);
    }
  }

  /** What follows the first look: an exposure exactly for a queued job whose owner was
      seen and is not being cancelled, or that certainly has none; a lesson without a
      walk exactly for a terminal job that certainly has no owner; a walk over a copy
      of the file, flagged for a cancellation; else nothing. */
  lemma LookExact(s: System, op: Op, failing: set<string>, listed: bool, owner: string)
    requires op.ReconcileChild? || op.ExposeRecovered? ==> OwnerInSight(s, failing, listed, op.job) ==> owner in s.files
    ensures var pc := AfterRead(s, op, failing, listed, owner);
      && (pc.Exposing? <==>
            || (op.ExposeChild? && op.seen == Queued && op.b in s.files && op.b !in failing && !s.files[op.b].cancelling)
            || (op.ExposeRecovered? && op.seen == Queued
                && if OwnerInSight(s, failing, listed, op.job) then !s.files[owner].cancelling
                   else listed && forall b :: b in s.files ==> b !in failing))
      && (pc.Exposing? ==> pc.job == op.job)
      && (pc.Walking? <==>
            || (op.Cancel? && op.b in s.files && op.b !in failing)
            || (op.Reconcile? && op.b in s.files && op.b !in failing)
            || (op.Assign? && op.b in s.files && op.b !in failing && !s.files[op.b].cancelling)
            || (op.ReconcileChild? && OwnerInSight(s, failing, listed, op.job)))
      && (pc.Walking? ==>
            var b := if op.ReconcileChild? then owner else op.b;
            pc == Walking(op, b, if op.Cancel? then s.files[b].(cancelling := true) else s.files[b], 0))
      && (!pc.Exposing? && !pc.Walking? ==>
            pc == Leaving(if op.ReconcileChild? && op.converging && listed && forall b :: b in s.files ==> b !in failing
                          then Settled(op.job) else Nothing))
  {
    hide SeesOwner, Certain, OwnerInSight;
    if op.ReconcileChild? || op.ExposeRecovered? { SightIsExact(s, failing, listed, op.job); }
  }

  // ------------------------------------------------------------ progress

  /** Whoever is in the section can go on: no step of the section waits for anything,
      a new stage may be added exactly when the current one is over, a further one is
      planned and nobody cancelled, and what stands at the end can be written or fail. */
  lemma SectionsGoOn(s: System, t: nat)
    requires t in s.threads
    ensures var pc := s.threads[t];
      && (pc.Want? ==> (Enabled(s, Acquire(t)) <==> s.lock == None))
      && (pc.Walking? && pc.k < |pc.rec.items| ==> forall minted :: minted !in s.issued ==> Enabled(s, Walk(t, minted)))
      && (pc.Walking? && pc.k == |pc.rec.items| ==> Enabled(s, Finish(t, 0)))
      && (pc.Walking? && pc.k == |pc.rec.items| ==> forall added: nat :: added > 0 ==>
            (Enabled(s, Finish(t, added)) <==>
              && (pc.op.Reconcile? || pc.op.ReconcileChild?) && !pc.rec.cancelling && pc.rec.stage + 1 < pc.rec.stages
              && forall i :: 0 <= i < |pc.rec.items| && pc.rec.items[i].stage == pc.rec.stage ==>
                   pc.rec.items[i].status in {Some(Succeeded), Some(Failed), Some(Cancelled)}))
      && (pc.Saving? ==> Enabled(s, Save(t, true)) && Enabled(s, Save(t, false)))
      && (pc.Exposing? ==> Enabled(s, Enqueue(t)))
      && (pc.Leaving? ==> Enabled(s, Release(t)))
      && (pc.Knows? ==> Enabled(s, MarkDone(t)) && Enabled(s, EndPass(t)))
      && (pc.Held? || pc.Walking? || pc.Saving? || pc.Exposing? || pc.Leaving? ==> Enabled(s, Raise(t)))
  {
    hide SeesOwner, Owns;
  }

  /** The first look can always be taken, whatever files cannot be read: if it needs an
      owner it can name one. */
  lemma LooksGoOn(s: System, t: nat, failing: set<string>, listed: bool)
    requires t in s.threads && s.threads[t].Held? && (s.threads[t].op.Create? ==> s.threads[t].op.b !in s.used)
    ensures exists owner :: Enabled(s, Read(t, failing, listed, owner))
  {
    var op := s.threads[t].op;
    if (op.ReconcileChild? || op.ExposeRecovered?) && SeesOwner(s, failing, listed, op.job) {
      var b :| Sees(s, failing, listed, b, op.job);
      assert Enabled(s, Read(t, failing, listed, b));
    } else {
      assert Enabled(s, Read(t, failing, listed, ""));
    }
  }

  /** A listing goes through its files one by one, and concludes from them about a job
      exactly when all were read and none owns it. */
  lemma ListingsGoOn(s: System, t: nat, b: string, j: string)
    requires t in s.threads && s.threads[t].Listing?
    ensures var pc := s.threads[t];
      && (b in pc.todo ==> Enabled(s, ScanFile(t, b, true)) && Enabled(s, ScanFile(t, b, false)))
      && (Enabled(s, MarkByIndex(t, j)) <==> pc.todo == {} && pc.reliable && j in pc.jobs && j !in pc.owned)
      && Enabled(s, EndPass(t))
  {
  }

  /** Sections may be asked for at any time by a new thread, within what callers know:
      a new batch has no children yet, a converging reconciliation is for a job read as
      over, and a child is exposed for the batch that holds its id durably. */
  lemma AnyoneMayAsk(s: System, t: nat, op: Op)
    requires t !in s.threads
    ensures Enabled(s, Start(t, op)) <==>
      match op
      case Create(_, batch) =>
        !batch.cancelling && batch.stage == 0 && forall i :: 0 <= i < |batch.items| ==> batch.items[i].job == None
      case ReconcileChild(j, converging) =>
        converging ==> j in s.rows && s.rows[j] in {Succeeded, Failed, Cancelled} && j !in s.poison
      case ExposeChild(b, j, _) => j in s.home && s.home[j].0 == b && j in s.persisted
      case _ => true
    ensures forall jobs: set<string> :: Enabled(s, ListPending(t, jobs)) <==>
      forall j :: j in jobs ==> j in s.rows && s.rows[j] in {Succeeded, Failed, Cancelled} && j !in s.poison
  {
  }
}
