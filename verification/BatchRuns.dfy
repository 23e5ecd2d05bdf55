/** Batches under concurrency: every thread's path through the repository lock is
    spelled out step by step, next to job rows that change at any moment. */
module BatchRuns {
  import opened Wrappers
  import opened JobStatuses
  import StartupRecovery

  /** One cell of a batch. `job` is the durable child id; no status means pending. */
  datatype Item = Item(job: Option<string>, stage: nat, status: Option<Status>)

  datatype Batch = Batch(cancelling: bool, items: seq<Item>, stage: nat, stages: nat)

  predicate Finished(item: Item) { item.status.Some? && item.status.value.Terminal() }

  predicate Owns(batch: Batch, j: string) {
    exists i :: 0 <= i < |batch.items| && batch.items[i].job == Some(j)
  }

  /** What runs under the lock. */
  datatype Op =
    | Create(b: string, batch: Batch)
    | Delete(b: string)
    | Cancel(b: string)
    | Assign(b: string, stage: nat)                   // first phase of `_enqueue_stage`
    | Reconcile(b: string)
    | ReconcileChild(job: string, converging: bool)   // converging: for a job already read as terminal
    | ExposeChild(b: string, job: string, seen: Status)
    | ExposeRecovered(job: string, seen: Status)

  /** What a thread takes out of a critical section: nothing, or that this job's
      outcome is in its batch, if it has one. */
  datatype Lesson = Nothing | Settled(job: string)

  datatype Pc =
    | Want(op: Op)                                        // waiting for the lock
    | Held(op: Op)                                        // has it; has read nothing
    | Walking(op: Op, b: string, rec: Batch, k: nat)      // working copy; items before k are done
    | Saving(op: Op, b: string, rec: Batch)
    | Exposing(job: string)                               // about to call enqueue_job
    | Leaving(lesson: Lesson)                             // about to release
    | Knows(job: string)                                  // about to record completion
    | Listing(jobs: set<string>, todo: set<string>, owned: set<string>, reliable: bool)
                                                          // lock-free ownership scan

  predicate InSection(pc: Pc) { pc.Held? || pc.Walking? || pc.Saving? || pc.Exposing? || pc.Leaving? }

  datatype System = System(
    files: map<string, Batch>,
    rows: map<string, Status>,
    poison: set<string>,                 // jobs whose row cannot be decoded now
    done: set<string>,                   // jobs with completion_state done
    pending: set<string>,                // ids in the in-memory queue
    handed: multiset<string>,            // ids workers took from it and have not claimed
    cleared: set<string>,                // children whose batch was seen live before their row is made
    lock: Option<nat>,
    threads: map<nat, Pc>,
    home: map<string, (string, nat)>,    // the item each child id was generated for
    persisted: set<string>,              // child ids that reached a batch file
    issued: set<string>,                 // every job id ever generated
    used: set<string>,                   // every batch id ever used
    known: set<string>,                  // jobs some thread has seen settled for good
    missed: set<string>)                 // jobs whose outcome a converging reconciliation could not copy

  datatype Step =
    | Start(t: nat, op: Op)
    | Acquire(t: nat)
    | Read(t: nat, failing: set<string>, listed: bool, owner: string)
    | Walk(t: nat, minted: string)
    | Finish(t: nat, added: nat)
    | Raise(t: nat)                                  // an exception inside the section
    | Save(t: nat, written: bool)
    | Enqueue(t: nat)
    | Release(t: nat)
    | MarkDone(t: nat)
    | ListPending(t: nat, jobs: set<string>)
    | ScanFile(t: nat, b: string, readable: bool)
    | MarkByIndex(t: nat, job: string)
    | EndPass(t: nat)
    | PreCheck(b: string, job: string)               // the lock-free look before a row is made
    | InsertChild(job: string)
    | InsertOther(job: string)
    | MoveRow(job: string, to: Status)
    | RepairRow(job: string)
    | SpoilRow(job: string)                          // a row becomes undecodable
    | EnqueueOther(job: string)                      // a job that is no batch's child
    | Dequeue(job: string)                           // a worker takes the id
    | Requeue(job: string)                           // and puts it back after a fault
    | LetGo(job: string)                             // or is through with it
    | Restart(failing: set<string>, skipped: set<string>)
                                                     // a new process recovers what it can read

  // ------------------------------------------------------- item by item work

  function RowOf(s: System, j: string): Row { if j in s.rows then Some(s.rows[j]) else None }

  /** `_recompute` for one item. */
  function Recomputed(s: System, item: Item): Item {
    if item.job.None? || item.job.value !in s.rows then item
    else
      var j, st := item.job.value, s.rows[item.job.value];
      if j in s.poison then (if st.Failed? || st.Cancelled? then item.(status := Some(st)) else item)
      else item.(status := Some(st))
  }

  /** `_apply_cancellation_intent` for one item. */
  function CancelIntent(s: System, item: Item): Item {
    if item.status == Some(Cancelled) then item
    else if item.job.None? then item.(status := Some(Cancelled))
    else if Finished(item) then item
    else if item.job.value !in s.rows || (item.job.value in s.poison && s.rows[item.job.value].Queued?) then
      item.(status := Some(Cancelled))
    else item
  }

  /** It also cancels the row of an undecodable, still queued child. */
  function CancelIntentRows(s: System, item: Item): map<string, Status> {
    if item.job.Some? && !Finished(item) && item.job.value in s.rows && item.job.value in s.poison && s.rows[item.job.value].Queued?
    then s.rows[item.job.value := Cancelled]
    else s.rows
  }

  predicate NeedsId(item: Item, stage: nat) {
    item.stage == stage && item.job.None? && !Finished(item)
  }

  /** The stage is over, another follows, and no cancellation was asked for. */
  predicate CanAdvance(batch: Batch) {
    && !batch.cancelling && batch.stage + 1 < batch.stages
    && forall i :: 0 <= i < |batch.items| && batch.items[i].stage == batch.stage ==> Finished(batch.items[i])
  }

  function NewItems(n: nat, stage: nat): (r: seq<Item>)
    ensures |r| == n && forall i :: 0 <= i < n ==> r[i] == Item(None, stage, None)
  {
    if n == 0 then [] else [Item(None, stage, None)] + NewItems(n - 1, stage)
  }

  predicate Blank(batch: Batch) {
    !batch.cancelling && batch.stage == 0 && forall i :: 0 <= i < |batch.items| ==> batch.items[i].job.None?
  }

  // ------------------------------------------------------------------- steps

  /** The files a scan can see that own the job. */
  predicate Sees(s: System, failing: set<string>, listed: bool, b: string, j: string) {
    listed && b in s.files && b !in failing && Owns(s.files[b], j)
  }

  ghost predicate SeesOwner(s: System, failing: set<string>, listed: bool, j: string) {
    exists b :: Sees(s, failing, listed, b, j)
  }

  predicate Certain(s: System, failing: set<string>, listed: bool) {
    listed && s.files.Keys !! failing
  }

  predicate Over(s: System, j: string) { j in s.rows && s.rows[j].Terminal() }

  predicate Settles(s: System, j: string) { Over(s, j) && j !in s.poison }

  /** A converging reconciliation comes to the job's own item and leaves it without
      the outcome. */
  predicate Misses(s: System, op: Op, item: Item) {
    && op.ReconcileChild? && op.converging && item.job == Some(op.job) && op.job in s.rows
    && Recomputed(s, item).status != Some(s.rows[op.job])
  }

  /** The item a child id was generated for can be read. */
  predicate Readable(s: System, failing: set<string>, j: string) {
    && j in s.home && s.home[j].0 in s.files && s.home[j].0 !in failing
    && s.home[j].1 < |s.files[s.home[j].0].items| && s.files[s.home[j].0].items[s.home[j].1].job == Some(j)
  }

  /** What startup recovery finds when these batch files cannot be read and the
      quarantine of these rows fails. */
  function DiskOf(s: System, failing: set<string>, skipped: set<string>): StartupRecovery.Disk {
    StartupRecovery.Disk(
      map j | j in s.rows && j !in skipped :: s.rows[j],
      s.poison - skipped,
      map j | j in s.home && Readable(s, failing, j) ::
        StartupRecovery.Child(s.home[j].0, s.files[s.home[j].0].items[s.home[j].1].status),
      set b | b in s.files && b !in failing && s.files[b].cancelling)
  }

  /** The rows after one recovery pass, without its new rows. */
  function RecoveredRows(s: System, failing: set<string>, skipped: set<string>): map<string, Status> {
    var d := DiskOf(s, failing, skipped);
    map j | j in s.rows :: if j in d.rows then StartupRecovery.Recovered(d, j, s.files.Keys !! failing) else s.rows[j]
  }

  /** What callers know when they ask for a section. */
  ghost predicate MayStart(s: System, op: Op) {
    match op
    case Create(b, batch) => Blank(batch)
    case ReconcileChild(j, converging) => converging ==> Settles(s, j)
    case ExposeChild(b, j, _) => j in s.home && s.home[j].0 == b && j in s.persisted
    case _ => true
  }

  ghost predicate Enabled(s: System, step: Step) {
    match step
    case Start(t, op) => t !in s.threads && MayStart(s, op)
    case Acquire(t) => t in s.threads && s.threads[t].Want? && s.lock.None?
    case Read(t, failing, listed, owner) =>
      && t in s.threads && s.threads[t].Held?
      && (s.threads[t].op.Create? ==> s.threads[t].op.b !in s.used)
      && (s.threads[t].op.ReconcileChild? || s.threads[t].op.ExposeRecovered? ==>
            SeesOwner(s, failing, listed, s.threads[t].op.job) ==> Sees(s, failing, listed, owner, s.threads[t].op.job))
    case Walk(t, minted) =>
      t in s.threads && s.threads[t].Walking? && s.threads[t].k < |s.threads[t].rec.items| && minted !in s.issued
    case Finish(t, added) =>
      && t in s.threads && s.threads[t].Walking? && s.threads[t].k >= |s.threads[t].rec.items|
      && (added > 0 ==> (s.threads[t].op.Reconcile? || s.threads[t].op.ReconcileChild?) && CanAdvance(s.threads[t].rec))
    case Raise(t) => t in s.threads && InSection(s.threads[t])
    case Save(t, _) => t in s.threads && s.threads[t].Saving?
    case Enqueue(t) => t in s.threads && s.threads[t].Exposing?
    case Release(t) => t in s.threads && s.threads[t].Leaving?
    case MarkDone(t) => t in s.threads && s.threads[t].Knows?
    case ListPending(t, jobs) => t !in s.threads && forall j :: j in jobs ==> Settles(s, j)
    case ScanFile(t, b, _) => t in s.threads && s.threads[t].Listing? && b in s.threads[t].todo
    case MarkByIndex(t, j) =>
      && t in s.threads && s.threads[t].Listing?
      && s.threads[t].todo == {} && s.threads[t].reliable && j in s.threads[t].jobs && j !in s.threads[t].owned
    case EndPass(t) => t in s.threads && (s.threads[t].Listing? || s.threads[t].Knows?)
    case PreCheck(b, j) => b in s.files && !s.files[b].cancelling && Owns(s.files[b], j)
    case InsertChild(j) => j in s.persisted && j in s.cleared
    case InsertOther(j) => j !in s.issued
    case MoveRow(j, to) => j in s.rows && Edge(s.rows[j], to)
    case RepairRow(j) => j in s.rows && !s.rows[j].Corrupt?
    case SpoilRow(j) => j in s.rows
    case EnqueueOther(j) => j in s.rows && j !in s.home
    case Dequeue(j) => j in s.pending
    case Requeue(j) => j in s.handed
    case LetGo(j) => j in s.handed
    case Restart(_, skipped) => skipped <= s.poison
  }

  /** First look inside the section: which working copy, exposure or lesson follows. */
  ghost function AfterRead(s: System, op: Op, failing: set<string>, listed: bool, owner: string): Pc {
    match op
    case Create(_, _) => Leaving(Nothing)
    case Delete(_) => Leaving(Nothing)
    case Cancel(b) =>
      if b !in s.files || b in failing then Leaving(Nothing)
      else Walking(op, b, s.files[b].(cancelling := true), 0)
    case Assign(b, _) =>
      if b !in s.files || b in failing || s.files[b].cancelling then Leaving(Nothing)
      else Walking(op, b, s.files[b], 0)
    case Reconcile(b) =>
      if b !in s.files || b in failing then Leaving(Nothing) else Walking(op, b, s.files[b], 0)
    case ReconcileChild(j, converging) =>
      if SeesOwner(s, failing, listed, j) then
        if owner in s.files then Walking(op, owner, s.files[owner], 0) else Leaving(Nothing)
      else if Certain(s, failing, listed) && converging then Leaving(Settled(j))
      else Leaving(Nothing)
    case ExposeChild(b, j, seen) =>
      if b !in s.files || b in failing || s.files[b].cancelling || seen != Queued then Leaving(Nothing)
      else Exposing(j)
    case ExposeRecovered(j, seen) =>
      if SeesOwner(s, failing, listed, j) then
        if owner !in s.files || s.files[owner].cancelling || seen != Queued then Leaving(Nothing) else Exposing(j)
      else if Certain(s, failing, listed) && seen == Queued then Exposing(j)
      else Leaving(Nothing)
  }

  function FilesAfterRead(s: System, op: Op): map<string, Batch> {
    match op
    case Create(b, batch) => s.files[b := batch]
    case Delete(b) => s.files - {b}
    case _ => s.files
  }

  function LessonOf(op: Op): Lesson {
    if op.ReconcileChild? && op.converging then Settled(op.job) else Nothing
  }

  function LearntBy(pc: Pc): set<string> {
    if pc.Leaving? && pc.lesson.Settled? then {pc.lesson.job} else {}
  }

  function WalkedItem(s: System, op: Op, item: Item, minted: string): Item {
    match op
    case Cancel(_) => CancelIntent(s, item)
    case Assign(_, stage) => if NeedsId(item, stage) then item.(job := Some(minted)) else item
    case _ => Recomputed(s, item)
  }

  ghost function ApplyWalk(s: System, t: nat, minted: string): System
    requires Enabled(s, Walk(t, minted))
  {
    var pc := s.threads[t];
    var item := pc.rec.items[pc.k];
    var rec := pc.rec.(items := pc.rec.items[pc.k := WalkedItem(s, pc.op, item, minted)]);
    var mints := pc.op.Assign? && NeedsId(item, pc.op.stage);
    s.(threads := s.threads[t := pc.(rec := rec, k := pc.k + 1)],
       rows := if pc.op.Cancel? then CancelIntentRows(s, item) else s.rows,
       home := if mints then s.home[minted := (pc.b, pc.k)] else s.home,
       issued := if mints then s.issued + {minted} else s.issued,
       missed := if Misses(s, pc.op, item) then s.missed + {pc.op.job} else s.missed)
  }

  /** Child ids of a batch. */
  function Ids(batch: Batch): set<string> {
    set i | 0 <= i < |batch.items| && batch.items[i].job.Some? :: batch.items[i].job.value
  }

  ghost function Apply(s: System, step: Step): System
    requires Enabled(s, step)
  {
    match step
    case Start(t, op) => s.(threads := s.threads[t := Want(op)])
    case Acquire(t) => s.(lock := Some(t), threads := s.threads[t := Held(s.threads[t].op)])
    case Read(t, failing, listed, owner) =>
      var op := s.threads[t].op;
      s.(threads := s.threads[t := AfterRead(s, op, failing, listed, owner)],
         files := FilesAfterRead(s, op),
         known := s.known + (LearntBy(AfterRead(s, op, failing, listed, owner)) - s.missed),
         used := if op.Create? then s.used + {op.b} else s.used)
    case Walk(t, minted) => ApplyWalk(s, t, minted)
    case Finish(t, added) =>
      var pc := s.threads[t];
      var rec := if added > 0 then pc.rec.(items := pc.rec.items + NewItems(added, pc.rec.stage + 1), stage := pc.rec.stage + 1) else pc.rec;
      s.(threads := s.threads[t := Saving(pc.op, pc.b, rec)])
    case Raise(t) => s.(threads := s.threads[t := Leaving(Nothing)])
    case Save(t, written) =>
      var pc := s.threads[t];
      if written then
        s.(files := s.files[pc.b := pc.rec], persisted := s.persisted + Ids(pc.rec),
           threads := s.threads[t := Leaving(LessonOf(pc.op))], known := s.known + (LearntBy(Leaving(LessonOf(pc.op))) - s.missed))
      else s.(threads := s.threads[t := Leaving(Nothing)])
    case Enqueue(t) =>
      var j := s.threads[t].job;
      var accepted := j in s.rows && !s.rows[j].Cancelled? && j !in s.poison;
      s.(threads := s.threads[t := Leaving(Nothing)], pending := if accepted then s.pending + {j} else s.pending)
    case Release(t) =>
      s.(lock := None,
         threads := if s.threads[t].lesson.Settled? then s.threads[t := Knows(s.threads[t].lesson.job)] else s.threads - {t})
    case MarkDone(t) => s.(done := s.done + {s.threads[t].job}, threads := s.threads - {t})
    case ListPending(t, jobs) => s.(threads := s.threads[t := Listing(jobs, s.files.Keys, {}, true)])
    case ScanFile(t, b, readable) =>
      var pc := s.threads[t];
      var ok := readable && b in s.files;
      s.(threads := s.threads[t := pc.(todo := pc.todo - {b}, reliable := pc.reliable && ok,
           owned := if ok then pc.owned + Ids(s.files[b]) else pc.owned)])
    case MarkByIndex(t, j) => s.(done := s.done + {j}, known := s.known + {j})
    case EndPass(t) => s.(threads := s.threads - {t})
    case PreCheck(_, j) => s.(cleared := s.cleared + {j})
    case InsertChild(j) => if j in s.rows then s else s.(rows := s.rows[j := Queued])
    case InsertOther(j) => s.(rows := s.rows[j := Queued], issued := s.issued + {j})
    case MoveRow(j, to) => s.(rows := s.rows[j := to])
    case RepairRow(j) => s.(poison := s.poison - {j})
    case SpoilRow(j) => s.(poison := s.poison + {j})
    case EnqueueOther(j) => s.(pending := s.pending + {j})
    case Dequeue(j) => s.(pending := s.pending - {j}, handed := s.handed + multiset{j})
    case Requeue(j) => s.(pending := s.pending + {j}, handed := s.handed - multiset{j})
    case LetGo(j) => s.(handed := s.handed - multiset{j})
    case Restart(failing, skipped) =>
      var rows := RecoveredRows(s, failing, skipped);
      s.(lock := None, threads := map[], handed := multiset{}, cleared := {}, rows := rows,
         pending := if s.files.Keys !! failing then set j | j in rows && rows[j].Queued? && j !in s.poison else {})
  }

  ghost predicate Run(s: System, steps: seq<Step>, s': System)
    decreases |steps|
  {
    if steps == [] then s' == s
    else Enabled(s, steps[0]) && Run(Apply(s, steps[0]), steps[1..], s')
  }

  // --------------------------------------------------------------- invariant

  /** Exactly the thread inside a section holds the lock. */
  ghost predicate LockOk(s: System) {
    && (s.lock.Some? ==> s.lock.value in s.threads && InSection(s.threads[s.lock.value]))
    && (forall t :: t in s.threads && InSection(s.threads[t]) ==> s.lock == Some(t))
  }

  /** Every child id in this batch was generated for that very item. */
  ghost predicate AtHome(home: map<string, (string, nat)>, b: string, batch: Batch) {
    forall i :: 0 <= i < |batch.items| && batch.items[i].job.Some? ==>
      batch.items[i].job.value in home && home[batch.items[i].job.value] == (b, i)
  }

  ghost predicate HomesOk(s: System) {
    && s.home.Keys <= s.issued && s.rows.Keys <= s.issued && s.persisted <= s.issued
    && s.files.Keys <= s.used
    && (forall b :: b in s.files ==> AtHome(s.home, b, s.files[b]) && Ids(s.files[b]) <= s.persisted)
    && (forall b :: b in s.files && s.files[b].cancelling ==> Closed(s.files[b], |s.files[b].items|))
  }

  /** A later version of a batch: flags stay, ids stay, items are only appended, the
      outcome of a job in `known` stays recorded, and once a batch is being cancelled
      it gets no stage and no child id any more. */
  ghost predicate Grows(known: set<string>, a: Batch, b: Batch) {
    && (a.cancelling ==> b.cancelling && |a.items| == |b.items| && a.stage == b.stage)
    && a.stage <= b.stage && a.stages == b.stages && |a.items| <= |b.items|
    && (forall i :: 0 <= i < |a.items| ==> ItemGrows(known, a.items[i], b.items[i]))
    && (forall i :: 0 <= i < |a.items| && a.cancelling ==> a.items[i].job == b.items[i].job)
  }

  /** An item keeps its stage and its child id; one that was over before it had a
      child never gets one. */
  ghost predicate ItemGrows(known: set<string>, x: Item, y: Item) {
    && y.stage == x.stage
    && (x.job.Some? ==> y.job == x.job && (x.job.value in known ==> y.status == x.status))
    && (x.job.None? && Finished(x) ==> y.job.None? && Finished(y))
  }

  /** Of the first items, those without a child are over: none can get one later. */
  ghost predicate Closed(batch: Batch, upto: nat) {
    forall i :: 0 <= i < |batch.items| && i < upto && batch.items[i].job.None? ==> Finished(batch.items[i])
  }

  /** Ids the working copy has and the file has not: unknown to everyone else. */
  ghost predicate Private(s: System, base: Batch, rec: Batch) {
    forall i :: 0 <= i < |rec.items| && rec.items[i].job.Some? && (i >= |base.items| || base.items[i].job != rec.items[i].job)
      ==> rec.items[i].job.value !in s.rows && rec.items[i].job.value !in s.persisted
  }

  ghost predicate CopyOk(s: System, b: string, rec: Batch) {
    b in s.files && Grows(s.known, s.files[b], rec) && Private(s, s.files[b], rec) && AtHome(s.home, b, rec)
  }

  /** The job's outcome is recorded by whatever item of this batch it is. */
  ghost predicate Reflected(batch: Batch, j: string, st: Status, upto: nat) {
    forall i :: 0 <= i < |batch.items| && i < upto && batch.items[i].job == Some(j) ==> batch.items[i].status == Some(st)
  }

  /** The job is over and its batch, if any, says so. */
  ghost predicate Known(s: System, j: string) {
    Over(s, j) && forall b :: b in s.files ==> Reflected(s.files[b], j, s.rows[j], |s.files[b].items|)
  }

  /** No batch that owns the job is being cancelled. */
  ghost predicate Clear(s: System, j: string) {
    forall b :: b in s.files && Owns(s.files[b], j) ==> !s.files[b].cancelling
  }

  /** For a converging reconciliation: the part already walked reflects the job, and
      no other batch owns it. */
  ghost predicate Converging(s: System, op: Op, b: string, rec: Batch, k: nat) {
    op.ReconcileChild? && op.converging ==>
      && Over(s, op.job) && (op.job in s.missed || Reflected(rec, op.job, s.rows[op.job], k))
      && (forall c :: c in s.files && Owns(s.files[c], op.job) ==> c == b)
  }

  /** The job is over, and its batch says so unless its outcome was missed. */
  ghost predicate Taught(s: System, j: string) { Over(s, j) && (j in s.known || j in s.missed) }

  ghost predicate ListingOk(s: System, jobs: set<string>, todo: set<string>, owned: set<string>, reliable: bool) {
    forall j :: j in jobs ==> Over(s, j) && (reliable ==> forall b :: b in s.files && Owns(s.files[b], j) ==> b in todo || j in owned)
  }

  /** What a cancellation means for the working copy: no ids are being assigned, and
      what has been walked, or all of it, is closed. */
  ghost predicate Unhindered(op: Op, rec: Batch, k: nat) {
    rec.cancelling ==> !op.Assign? && Closed(rec, if op.Cancel? then k else |rec.items|)
  }

  ghost predicate WantOk(s: System, op: Op) {
    && (op.Create? ==> Blank(op.batch))
    && (op.ReconcileChild? && op.converging ==> Over(s, op.job))
    && (op.ExposeChild? ==> op.job in s.home && s.home[op.job].0 == op.b)
  }

  ghost predicate PcOk(s: System, pc: Pc) {
    match pc
    case Want(op) => WantOk(s, op)
    case Held(op) => WantOk(s, op)
    case Walking(op, b, rec, k) => WantOk(s, op) && CopyOk(s, b, rec) && Converging(s, op, b, rec, k) && Unhindered(op, rec, k)
    case Saving(op, b, rec) => CopyOk(s, b, rec) && Converging(s, op, b, rec, |rec.items|) && (rec.cancelling ==> Closed(rec, |rec.items|))
    case Exposing(j) => Clear(s, j)
    case Leaving(lesson) => lesson.Settled? ==> Taught(s, lesson.job)
    case Knows(j) => Taught(s, j)
    case Listing(jobs, todo, owned, reliable) => ListingOk(s, jobs, todo, owned, reliable)
  }

  ghost predicate ThreadsOk(s: System) {
    forall t :: t in s.threads ==> PcOk(s, s.threads[t])
  }

  ghost predicate KnownOk(s: System) {
    (forall j :: j in s.done ==> Taught(s, j)) && (forall j :: j in s.known ==> Known(s, j))
  }

  ghost predicate CorruptOk(s: System) { s.poison <= s.rows.Keys && forall j :: j in s.rows && s.rows[j].Corrupt? ==> j in s.poison }

  ghost predicate Inv(s: System) {
    LockOk(s) && HomesOk(s) && ThreadsOk(s) && KnownOk(s) && CorruptOk(s)
  }
}
