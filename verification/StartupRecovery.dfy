/** Startup recovery: ordered passes over the job table and the batches, before any
    worker runs, from whatever an earlier process left behind. */
module StartupRecovery {
  import opened Wrappers
  import opened JobStatuses
  import opened JobRuns

  /** A batch item that has a child id: its batch, and the status recorded for it. */
  datatype Child = Child(batch: string, status: Option<Status>)

  /** What is on disk. `children` holds the items of every batch file that can be read. */
  datatype Disk = Disk(
    rows: map<string, Status>,
    poison: set<string>,             // rows that cannot be decoded
    children: map<string, Child>,    // by child id
    cancelling: set<string>)         // batches with a durable cancellation intent

  predicate Interrupted(st: Status) { st.Preparing? || st.Running? || st.Postprocessing? }

  predicate Concluded(status: Option<Status>) { status.Some? && status.value.Terminal() }

  ghost predicate WellFormed(d: Disk) {
    d.poison <= d.rows.Keys && forall j :: j in d.rows && d.rows[j].Corrupt? ==> j in d.poison
  }

  /** A readable row of a batch child whose batch is being cancelled. */
  predicate Doomed(d: Disk, j: string) {
    j in d.rows && j !in d.poison && j in d.children && d.children[j].batch in d.cancelling
  }

  // ----------------------------------------------------------- row by row

  /** Step 1 for one undecodable row. A queued one waits if its owner is unknown. */
  function Quarantined(d: Disk, j: string, reliable: bool): Status
    requires j in d.rows
  {
    match d.rows[j]
    case CancelRequested => Cancelled
    case Queued =>
      if j in d.children then (if d.children[j].batch in d.cancelling then Cancelled else Failed)
      else if reliable then Failed else Queued
    case st => if st.Terminal() then st else Failed
  }

  /** `_recompute` for one child. */
  function RecomputedStatus(d: Disk, j: string): Option<Status>
    requires j in d.children
  {
    if j !in d.rows then d.children[j].status
    else if j !in d.poison || d.rows[j].Failed? || d.rows[j].Cancelled? then Some(d.rows[j])
    else d.children[j].status
  }

  /** Step 2 for one child row of a cancelling batch: the signal is only sent to items
      not recorded as over. */
  function Signalled(d: Disk, j: string): Status
    requires j in d.rows && j in d.children
  {
    if Concluded(d.children[j].status) then d.rows[j]
    else if j in d.poison then (if d.rows[j].Queued? then Cancelled else d.rows[j])
    else
      var target := CancelTarget(d.rows[j]);
      if target.Some? then target.value else d.rows[j]
  }

  /** Step 3 for one decodable row. */
  function Finalized(st: Status): Status {
    if Interrupted(st) then Failed else if st.CancelRequested? then Cancelled else st
  }

  // ------------------------------------------------------------- whole passes

  /** Step 1 reconciles the batch of every undecodable child it settles. */
  predicate Touched(d: Disk, b: string) {
    exists j :: j in d.poison && j in d.rows && j in d.children && d.children[j].batch == b
  }

  /** What step 2 finds recorded for a decodable child. */
  function RecordedAtCancel(d: Disk, j: string): Option<Status>
    requires j in d.rows && j in d.children
  {
    if Touched(d, d.children[j].batch) then Some(d.rows[j]) else d.children[j].status
  }

  /** A child the cancellation sweep will miss: its item says it is over, its row says
      queued. A crash can leave this between the insertion of the row and the cancel
      that the refused exposure asks for. */
  predicate Stale(d: Disk, j: string) {
    Doomed(d, j) && d.rows[j].Queued? && Concluded(RecordedAtCancel(d, j))
  }

  /** The status every row ends with. */
  function Recovered(d: Disk, j: string, reliable: bool): Status
    requires j in d.rows
  {
    if j in d.poison then Quarantined(d, j, reliable)
    else if Doomed(d, j) && !Concluded(RecordedAtCancel(d, j)) then
      (if d.rows[j].Terminal() then d.rows[j] else Cancelled)
    else Finalized(d.rows[j])
  }

  /** Which rows end how, by what they were. */
  lemma WhoEndsHow(d: Disk, j: string, reliable: bool)
    requires j in d.rows && WellFormed(d)
    ensures var was, r := d.rows[j], Recovered(d, j, reliable);
      var decodable, owned := j !in d.poison, j in d.children;
      var cancelled := owned && d.children[j].batch in d.cancelling;
      && (r == Succeeded <==> was == Succeeded)
      && (r == Queued <==> was == Queued && if decodable then !cancelled || Stale(d, j) else !owned && !reliable)
      && (r == Cancelled <==>
            || was in {Cancelled, CancelRequested}
            || (was == Queued && cancelled && !Stale(d, j))
            || (was in {Preparing, Running, Postprocessing} && decodable && cancelled && !Concluded(RecordedAtCancel(d, j))))
      && (r == Failed <==>
            || was == Failed || was.Corrupt?
            || (was in {Preparing, Running, Postprocessing} && (!decodable || !cancelled || Concluded(RecordedAtCancel(d, j))))
            || (was == Queued && !decodable && if owned then !cancelled else reliable))
  {
  }

  /** The signal a child of a cancelling batch gets. */
  lemma SignalExact(d: Disk, j: string)
    requires j in d.rows && j in d.children
    ensures Signalled(d, j) != d.rows[j] <==>
      && !(d.children[j].status.Some? && d.children[j].status.value in {Succeeded, Failed, Cancelled})
      && (d.rows[j] == Queued || (j !in d.poison && d.rows[j] in {Preparing, Running, Postprocessing}))
    ensures Signalled(d, j) != d.rows[j] ==> Signalled(d, j) == if d.rows[j] == Queued then Cancelled else CancelRequested
  {
  }

  // ------------------------------------------------------ one step of a pass

  function RecomputedBatch(d: Disk, b: string): Disk {
    d.(children := map k | k in d.children ::
      if d.children[k].batch == b then d.children[k].(status := RecomputedStatus(d, k)) else d.children[k])
  }

  /** Step 1, one row: settle it, then reconcile its batch. */
  function QuarantineOne(d: Disk, j: string, reliable: bool): Disk
    requires j in d.rows
  {
    var e := d.(rows := d.rows[j := Quarantined(d, j, reliable)]);
    if j in d.children then RecomputedBatch(e, d.children[j].batch) else e
  }

  /** Step 2, one batch. */
  function CancelOne(d: Disk, b: string): Disk {
    RecomputedBatch(
      d.(rows := map j | j in d.rows :: if j in d.children && d.children[j].batch == b then Signalled(d, j) else d.rows[j]), b)
  }

  /** Step 2b, one child: its row is created if it has none and may still run. */
  predicate MayCreate(d: Disk, j: string, b: string) {
    && j !in d.rows && j !in d.poison && b !in d.cancelling
    && (j in d.children ==> d.children[j].batch == b && !Concluded(d.children[j].status))
  }

  function CreateOne(d: Disk, j: string, b: string): Disk {
    if MayCreate(d, j, b) then
      d.(rows := d.rows[j := Queued], children := if j in d.children then d.children else d.children[j := Child(b, None)])
    else d
  }

  /** A child that the batch service may expose. */
  predicate MayExpose(d: Disk, j: string) {
    && j in d.rows && d.rows[j].Queued? && j !in d.poison
    && j in d.children && d.children[j].batch !in d.cancelling
  }

  /** The same rows, children and cancellations, whatever their statuses. */
  ghost predicate SameShape(a: Disk, b: Disk) {
    && a.rows.Keys == b.rows.Keys && a.poison == b.poison && a.cancelling == b.cancelling
    && a.children.Keys == b.children.Keys && (forall k :: k in a.children ==> a.children[k].batch == b.children[k].batch)
  }

  /** A child whose row tells a reconcile nothing: it is missing, or undecodable and
      succeeded. */
  predicate Untold(d: Disk, k: string) {
    k !in d.rows || (k in d.poison && d.rows[k] == Succeeded)
  }

  /** Such children keep what was recorded for them. */
  ghost predicate UntoldKept(d0: Disk, d: Disk) {
    forall k :: k in d0.children && k in d.children && Untold(d0, k) ==> d.children[k] == d0.children[k]
  }

  /** A reconcile keeps them, as long as what succeeded stays. */
  lemma UntoldStays(d0: Disk, d: Disk, b: string)
    requires UntoldKept(d0, d) && SameShape(d0, d)
    requires forall k :: k in d.rows && k in d.poison && d0.rows[k] == Succeeded ==> d.rows[k] == Succeeded
    ensures UntoldKept(d0, RecomputedBatch(d, b))
  {
  }

  // ------------------------------------------------------------ step 1, looped

  /** `RecordedAtCancel` part of the way: rows in `todo` are still to be settled. */
  ghost function RecordedAfter(d: Disk, k: string, todo: set<string>): Option<Status>
    requires k in d.rows && k in d.children
  {
    if exists j :: j in d.poison && j in d.rows && j !in todo && j in d.children && d.children[j].batch == d.children[k].batch
    then Some(d.rows[k]) else d.children[k].status
  }

  ghost predicate Quarantining(d0: Disk, d: Disk, todo: set<string>, reliable: bool) {
    && todo <= d.poison && WellFormed(d0) && SameShape(d0, d)
    && (forall j :: j in d.rows ==> d.rows[j] == if j in d.poison && j !in todo then Quarantined(d0, j, reliable) else d0.rows[j])
    && (forall k :: k in d.children && k in d.rows && k !in d.poison ==> d.children[k].status == RecordedAfter(d0, k, todo))
    && UntoldKept(d0, d)
  }

  lemma QuarantineStep(d0: Disk, d: Disk, j: string, todo: set<string>, reliable: bool)
    requires Quarantining(d0, d, todo, reliable) && j in todo
    ensures j in d.rows && Quarantining(d0, QuarantineOne(d, j, reliable), todo - {j}, reliable)
  {
    hide Quarantined, UntoldKept;
    var e := QuarantineOne(d, j, reliable);
    QuarantineReads(d0, d, j, reliable);
    assert UntoldKept(d0, e) by { QuarantineUntold(d0, d, j, todo, reliable); }
    forall k | k in e.children && k in e.rows && k !in e.poison ensures e.children[k].status == RecordedAfter(d0, k, todo - {j}) {
      assert d.children[k].status == RecordedAfter(d0, k, todo);
      if j in d.children && d.children[j].batch == d.children[k].batch {
        assert e.children[k].status == Some(d0.rows[k]);
      }
    }
  }

  lemma QuarantineUntold(d0: Disk, d: Disk, j: string, todo: set<string>, reliable: bool)
    requires Quarantining(d0, d, todo, reliable) && j in todo
    ensures UntoldKept(d0, QuarantineOne(d, j, reliable))
  {
    hide RecordedAfter, RecomputedBatch;
    var settled := d.(rows := d.rows[j := Quarantined(d, j, reliable)]);
    if j in d.children { UntoldStays(d0, settled, d.children[j].batch); }
  }

  /** A row's quarantine reads that row and its batch's flag, nothing else. */
  lemma QuarantineReads(d0: Disk, d: Disk, j: string, reliable: bool)
    requires SameShape(d0, d) && j in d0.rows && d.rows[j] == d0.rows[j]
    ensures Quarantined(d, j, reliable) == Quarantined(d0, j, reliable)
  {
  }

  // ------------------------------------------------------------ step 2, looped

  ghost predicate Cancelling(d0: Disk, d: Disk, todo: set<string>) {
    && todo <= d.cancelling && SameShape(d0, d)
    && (forall k :: k in d.children && d.children[k].batch in todo ==> d.children[k] == d0.children[k])
    && (forall j :: j in d.rows ==> d.rows[j] == if InPass(d, j, todo) then Signalled(d0, j) else d0.rows[j])
    && UntoldKept(d0, d)
  }

  /** A child of a cancelling batch that the loop is through with. */
  ghost predicate InPass(d: Disk, j: string, todo: set<string>) {
    j in d.children && d.children[j].batch in d.cancelling && d.children[j].batch !in todo
  }

  lemma CancelStep(d0: Disk, d: Disk, b: string, todo: set<string>)
    requires Cancelling(d0, d, todo) && b in todo
    ensures Cancelling(d0, CancelOne(d, b), todo - {b})
  {
    hide Signalled, UntoldKept;
    assert UntoldKept(d0, CancelOne(d, b)) by { CancelUntold(d0, d, b, todo); }
    forall j | j in d.rows && j in d.children && d.children[j].batch == b ensures Signalled(d, j) == Signalled(d0, j) {
      SignalReads(d0, d, j);
    }
  }

  lemma CancelUntold(d0: Disk, d: Disk, b: string, todo: set<string>)
    requires Cancelling(d0, d, todo) && b in todo
    ensures UntoldKept(d0, CancelOne(d, b))
  {
    hide RecomputedBatch;
    var signalled := d.(rows := map j | j in d.rows :: if j in d.children && d.children[j].batch == b then Signalled(d, j) else d.rows[j]);
    UntoldStays(d0, signalled, b);
  }

  lemma SignalReads(d0: Disk, d: Disk, j: string)
    requires SameShape(d0, d) && j in d.rows && j in d.children && d.rows[j] == d0.rows[j] && d.children[j] == d0.children[j]
    ensures Signalled(d, j) == Signalled(d0, j)
  {
  }

  // --------------------------------------------------- steps 2b, 3 and 6, looped

  /** Rows are only added, as queued children of batches that are not cancelling. */
  ghost predicate Materialized(d0: Disk, d: Disk) {
    && d.poison == d0.poison && d.cancelling == d0.cancelling && d0.rows.Keys <= d.rows.Keys
    && (forall j :: j in d0.rows ==> d.rows[j] == d0.rows[j])
    && (forall j :: j in d.rows && j !in d0.rows ==> MayExpose(d, j))
    && (forall k :: k in d0.children ==> k in d.children && d.children[k] == d0.children[k])
    && (forall k :: k in d.children && k !in d0.children ==> k !in d0.rows && k in d.rows)
  }

  /** Which rows exist once the children in `born` but not in `todo` are made. */
  ghost predicate Made(d0: Disk, d: Disk, born: map<string, string>, todo: set<string>) {
    forall j :: j in d.rows <==> j in d0.rows || (j in born && j !in todo && MayCreate(d0, j, born[j]))
  }

  lemma CreateStep(d0: Disk, d: Disk, born: map<string, string>, todo: set<string>, j: string)
    requires Materialized(d0, d) && Made(d0, d, born, todo) && j in todo && j in born
    ensures Materialized(d0, CreateOne(d, j, born[j])) && Made(d0, CreateOne(d, j, born[j]), born, todo - {j})
  {
    var b := born[j];
    assert MayCreate(d, j, b) <==> MayCreate(d0, j, b);
    var e := CreateOne(d, j, b);
    forall k | k in e.rows && k !in d0.rows ensures MayExpose(e, k) {
      assert k in d.rows ==> MayExpose(d, k);
    }
  }

  ghost predicate NoRepeats(q: seq<string>) { forall i, j :: 0 <= i < j < |q| ==> q[i] != q[j] }

  ghost predicate FinalizedRows(d0: Disk, d: Disk, todo: set<string>) {
    && d == d0.(rows := d.rows) && d.rows.Keys == d0.rows.Keys
    && (forall j :: j in d.rows ==> d.rows[j] == if j in d.poison || j in todo then d0.rows[j] else Finalized(d0.rows[j]))
  }

  class Recovery {
    var disk: Disk
    var queue: seq<string>

    constructor (disk: Disk)
      ensures this.disk == disk && queue == []
    {
      this.disk, queue := disk, [];
    }

    method Push(j: string)
      modifies this`queue
      requires NoRepeats(queue)
      ensures NoRepeats(queue) && queue == if j in old(queue) then old(queue) else old(queue) + [j]
    {
      if j !in queue { queue := queue + [j]; }
    }

    /** Step 1. */
    method QuarantinePoison(reliable: bool)
      requires WellFormed(disk)
      modifies this`disk
      ensures Quarantining(old(disk), disk, {}, reliable)
    {
      hide Quarantining;
      ghost var d0 := disk;
      var todo := disk.poison;
      assert Quarantining(d0, disk, todo, reliable) by { QuarantineStarts(disk, reliable); }
      while todo != {}
        invariant Quarantining(d0, disk, todo, reliable)
        decreases |todo|
      {
        var j :| j in todo;
        QuarantineStep(d0, disk, j, todo, reliable);
        disk := QuarantineOne(disk, j, reliable);
        todo := todo - {j};
      }
    }

    /** Step 2. */
    method ResumeCancellations()
      modifies this`disk
      ensures Cancelling(old(disk), disk, {})
    {
      hide Cancelling, CancelOne;
      ghost var d0 := disk;
      var todo := disk.cancelling;
      assert Cancelling(d0, disk, todo) by { CancelStarts(disk); }
      while todo != {}
        invariant Cancelling(d0, disk, todo)
        decreases |todo|
      {
        var b :| b in todo;
        CancelStep(d0, disk, b, todo);
        disk := CancelOne(disk, b);
        todo := todo - {b};
      }
    }

    /** Step 2b: the children a batch still lacks (`born`, with their batches), and the
        exposures it asks for. */
    method ResumeStages(born: map<string, string>, wants: set<string>)
      requires queue == []
      modifies this
      ensures Materialized(old(disk), disk) && Made(old(disk), disk, born, {})
      ensures NoRepeats(queue) && forall j :: j in queue <==> j in wants && MayExpose(disk, j)
    {
      hide Materialized, Made, CreateOne, MayExpose;
      ghost var d0 := disk;
      var todo := born.Keys;
      MaterializeStarts(disk, born);
      while todo != {}
        invariant Materialized(d0, disk) && Made(d0, disk, born, todo) && queue == [] && todo <= born.Keys
        decreases |todo|
      {
        var j :| j in todo;
        CreateStep(d0, disk, born, todo, j);
        disk := CreateOne(disk, j, born[j]);
        todo := todo - {j};
      }
      todo := wants;
      while todo != {}
        invariant Materialized(d0, disk) && Made(d0, disk, born, {}) && todo <= wants
        invariant NoRepeats(queue) && forall j :: j in queue <==> j in wants && j !in todo && MayExpose(disk, j)
        decreases |todo|
      {
        var j :| j in todo;
        if MayExpose(disk, j) { Push(j); }
        todo := todo - {j};
      }
    }

    /** Step 3. */
    method FinalizeInterrupted()
      requires WellFormed(disk)
      modifies this`disk
      ensures FinalizedRows(old(disk), disk, {})
    {
      hide Finalized;
      ghost var d0 := disk;
      var todo := disk.rows.Keys - disk.poison;
      while todo != {}
        invariant todo <= disk.rows.Keys && todo !! disk.poison && FinalizedRows(d0, disk, todo)
        decreases |todo|
      {
        var j :| j in todo;
        disk := disk.(rows := disk.rows[j := Finalized(disk.rows[j])]);
        todo := todo - {j};
      }
    }

    /** Step 6: every decodable row that is queued right now. */
    method Sweep()
      requires NoRepeats(queue)
      modifies this`queue
      ensures NoRepeats(queue)
      ensures forall j :: j in queue <==> j in old(queue) || (j in disk.rows && disk.rows[j].Queued? && j !in disk.poison)
    {
      ghost var was := queue;
      var todo := disk.rows.Keys - disk.poison;
      while todo != {}
        invariant todo <= disk.rows.Keys - disk.poison && NoRepeats(queue)
        invariant forall j :: j in queue <==> j in was || (j in disk.rows && disk.rows[j].Queued? && j !in disk.poison && j !in todo)
        decreases |todo|
      {
        var j :| j in todo;
        if disk.rows[j].Queued? { Push(j); }
        todo := todo - {j};
      }
    }

    /** The whole pass, without storage faults. `reliable`: every batch file could be
        read; `born` and `wants`: what resuming stages creates and exposes. */
    method Run(reliable: bool, born: map<string, string>, wants: set<string>)
      requires WellFormed(disk) && queue == []
      modifies this
      ensures After(old(disk), disk, reliable) && Made(old(disk), disk, born, {})
      ensures NoRepeats(queue)
      ensures reliable ==> forall j :: j in queue <==> j in disk.rows && disk.rows[j].Queued?
      ensures !reliable ==> forall j :: j in queue <==> j in wants && MayExpose(disk, j)
    {
      hide Quarantining, Cancelling, Materialized, Made, FinalizedRows, After, WellFormed, NoRepeats, MayExpose;
      ghost var d0 := disk;
      QuarantinePoison(reliable);
      ghost var d1 := disk;
      ResumeCancellations();
      ghost var d2 := disk;
      ResumeStages(born, wants);
      ghost var d3 := disk;
      assert WellFormed(d3) by { StillWellFormed(d0, d1, d2, d3, reliable); }
      FinalizeInterrupted();
      ghost var d4 := disk;
      disk := RecomputedAll(disk);
      PassesCompose(d0, d1, d2, d3, d4, disk, reliable);
      MadeFromTheStart(d0, d1, d2, d3, d4, disk, born, reliable);
      ExposureSurvives(d3, d4, disk);
      if reliable { Sweep(); }
      QueueIsQueued(d0, disk, reliable);
    }
  }

  /** Step 5: one reconcile of every batch. */
  function RecomputedAll(d: Disk): Disk {
    d.(children := map k | k in d.children :: d.children[k].(status := RecomputedStatus(d, k)))
  }

  /** The outcome of a pass: each old row as `Recovered` says, each new row queued and
      outside cancelling batches, every decodable child's item up to date. */
  ghost predicate After(d0: Disk, d: Disk, reliable: bool) {
    && WellFormed(d) && d.poison == d0.poison && d.cancelling == d0.cancelling && d0.rows.Keys <= d.rows.Keys
    && (forall j :: j in d0.rows ==> d.rows[j] == Recovered(d0, j, reliable))
    && (forall j :: j in d.rows && j !in d0.rows ==> MayExpose(d, j))
    && (forall k :: k in d0.children ==> k in d.children && d.children[k].batch == d0.children[k].batch)
    && (forall k :: k in d.children && k !in d0.children ==> k !in d0.rows && k in d.rows)
    && (forall k :: k in d.children && k in d.rows && k !in d.poison ==> d.children[k].status == Some(d.rows[k]))
    && (forall k :: k in d.children && k in d.rows && d.rows[k] in {Failed, Cancelled} ==> d.children[k].status == Some(d.rows[k]))
    && (forall k :: k in d0.children && Untold(d, k) ==> d.children[k].status == d0.children[k].status)
  }

  lemma QuarantineStarts(d: Disk, reliable: bool)
    requires WellFormed(d)
    ensures Quarantining(d, d, d.poison, reliable)
  {
  }

  lemma CancelStarts(d: Disk)
    ensures Cancelling(d, d, d.cancelling)
  {
  }

  lemma MaterializeStarts(d: Disk, born: map<string, string>)
    ensures Materialized(d, d) && Made(d, d, born, born.Keys)
  {
  }

  lemma StillWellFormed(d0: Disk, d1: Disk, d2: Disk, d3: Disk, reliable: bool)
    requires Quarantining(d0, d1, {}, reliable) && Cancelling(d1, d2, {}) && Materialized(d2, d3)
    ensures WellFormed(d3)
  {
    forall j | j in d3.rows && d3.rows[j].Corrupt? ensures j in d3.poison {
      assert j in d2.rows && j in d1.rows && j in d0.rows;
    }
  }

  /** Two passes over one row. */
  lemma RowAfterTwo(d0: Disk, d1: Disk, d2: Disk, reliable: bool, j: string)
    requires Quarantining(d0, d1, {}, reliable) && Cancelling(d1, d2, {}) && j in d0.rows
    ensures j in d2.rows
    ensures j in d0.poison ==> d2.rows[j] == Quarantined(d0, j, reliable)
    ensures j !in d0.poison ==> Finalized(d2.rows[j]) == Recovered(d0, j, reliable)
  {
    hide Quarantining, Recovered, Quarantined, Finalized, Signalled;
    RowAfterOne(d0, d1, reliable, j);
    assert d2.rows[j] == if InPass(d2, j, {}) then Signalled(d1, j) else d1.rows[j];
    if j in d0.poison {
      SettledIgnoresSignal(d0, d1, j, reliable);
    } else {
      if j in d0.children { AtCancel(d0, d1, j, reliable); }
      SignalThenFinalize(d0, d1, j, reliable);
    }
  }

  lemma RowAfterOne(d0: Disk, d1: Disk, reliable: bool, j: string)
    requires Quarantining(d0, d1, {}, reliable) && j in d0.rows
    ensures WellFormed(d0) && SameShape(d0, d1)
    ensures d1.rows[j] == if j in d0.poison then Quarantined(d0, j, reliable) else d0.rows[j]
  {
  }

  /** An undecodable child is settled by step 1 already; the signal changes nothing. */
  lemma SettledIgnoresSignal(d0: Disk, d1: Disk, j: string, reliable: bool)
    requires j in d0.rows && SameShape(d0, d1) && j in d0.poison && d1.rows[j] == Quarantined(d0, j, reliable)
    ensures j in d1.children ==> Signalled(d1, j) == d1.rows[j]
  {
  }

  lemma SignalThenFinalize(d0: Disk, d1: Disk, j: string, reliable: bool)
    requires j in d0.rows && SameShape(d0, d1) && j !in d0.poison && d1.rows[j] == d0.rows[j]
    requires !d0.rows[j].Corrupt? && (j in d0.children ==> d1.children[j].status == RecordedAtCancel(d0, j))
    ensures Recovered(d0, j, reliable) == Finalized(if InPass(d1, j, {}) then Signalled(d1, j) else d1.rows[j])
  {
    hide RecordedAtCancel;
  }

  lemma AtCancel(d0: Disk, d1: Disk, j: string, reliable: bool)
    requires Quarantining(d0, d1, {}, reliable) && j in d0.rows && j in d0.children && j !in d0.poison
    ensures d1.rows[j] == d0.rows[j] && d1.children[j].status == RecordedAtCancel(d0, j)
  {
    assert d1.children[j].status == RecordedAfter(d0, j, {});
  }

  lemma PassesCompose(d0: Disk, d1: Disk, d2: Disk, d3: Disk, d4: Disk, d5: Disk, reliable: bool)
    requires Quarantining(d0, d1, {}, reliable) && Cancelling(d1, d2, {}) && Materialized(d2, d3)
    requires FinalizedRows(d3, d4, {}) && WellFormed(d3) && d5 == RecomputedAll(d4)
    ensures After(d0, d5, reliable)
  {
    hide Recovered, Quarantining, Cancelling, Finalized, Untold, MayExpose, FinalizedRows, RecomputedAll, RecomputedStatus;
    SameShapes(d0, d1, d2, reliable);
    RowsCompose(d0, d1, d2, d3, d4, reliable);
    FinalizedStaysKnown(d3, d4);
    RecordedNow(d4);
    forall k | k in d0.children && Untold(d5, k) ensures d5.children[k].status == d0.children[k].status {
      UntoldThroughout(d0, d1, d2, d3, d4, d5, reliable, k);
    }
    ExposureSurvives(d3, d4, d5);
  }

  /** What the last reconcile records. */
  lemma RecordedNow(d: Disk)
    ensures var e := RecomputedAll(d);
      && e == d.(children := e.children) && e.children.Keys == d.children.Keys
      && (forall k :: k in d.children ==> e.children[k].batch == d.children[k].batch)
      && (forall k :: k in d.children && k in d.rows && (k !in d.poison || d.rows[k] in {Failed, Cancelled}) ==>
            e.children[k].status == Some(d.rows[k]))
  {
  }

  lemma RowsCompose(d0: Disk, d1: Disk, d2: Disk, d3: Disk, d4: Disk, reliable: bool)
    requires Quarantining(d0, d1, {}, reliable) && Cancelling(d1, d2, {}) && Materialized(d2, d3) && FinalizedRows(d3, d4, {})
    ensures forall j :: j in d0.rows ==> j in d4.rows && d4.rows[j] == Recovered(d0, j, reliable)
  {
    hide Recovered, Quarantined, Quarantining, Cancelling, Finalized, RecordedAtCancel, MayExpose;
    SameShapes(d0, d1, d2, reliable);
    forall j | j in d0.rows ensures j in d4.rows && d4.rows[j] == Recovered(d0, j, reliable) {
      RowAfterTwo(d0, d1, d2, reliable, j);
      PoisonRecovered(d0, j, reliable);
    }
  }

  lemma UntoldThroughout(d0: Disk, d1: Disk, d2: Disk, d3: Disk, d4: Disk, d5: Disk, reliable: bool, k: string)
    requires Quarantining(d0, d1, {}, reliable) && Cancelling(d1, d2, {}) && Materialized(d2, d3)
    requires FinalizedRows(d3, d4, {}) && d5 == RecomputedAll(d4)
    requires k in d0.children && Untold(d5, k)
    ensures k in d5.children && d5.children[k].status == d0.children[k].status
  {
    hide RecordedAfter, Quarantining, Cancelling, MayExpose;
    SameShapes(d0, d1, d2, reliable);
    assert Untold(d0, k) && Untold(d1, k) by { UntoldBefore(d0, d1, d2, d3, d4, reliable, k); }
    assert UntoldKept(d0, d1) by { assert Quarantining(d0, d1, {}, reliable); QuarantiningKeeps(d0, d1, reliable); }
    CancellingKeeps(d1, d2);
    assert d1.children[k] == d0.children[k] && d2.children[k] == d1.children[k];
  }

  lemma QuarantiningKeeps(d0: Disk, d1: Disk, reliable: bool)
    requires Quarantining(d0, d1, {}, reliable)
    ensures UntoldKept(d0, d1)
  {
  }

  lemma CancellingKeeps(d1: Disk, d2: Disk)
    requires Cancelling(d1, d2, {})
    ensures UntoldKept(d1, d2) && SameShape(d1, d2)
  {
  }

  /** Untold at the end of a pass is untold from the start. */
  lemma UntoldBefore(d0: Disk, d1: Disk, d2: Disk, d3: Disk, d4: Disk, reliable: bool, k: string)
    requires Quarantining(d0, d1, {}, reliable) && Cancelling(d1, d2, {}) && Materialized(d2, d3) && FinalizedRows(d3, d4, {})
    requires Untold(d4, k)
    ensures Untold(d0, k) && Untold(d1, k)
  {
    hide RecordedAfter, UntoldKept, Quarantining, Cancelling;
    SameShapes(d0, d1, d2, reliable);
    if k in d4.rows {
      assert k !in d2.rows ==> MayExpose(d3, k);
      RowAfterTwo(d0, d1, d2, reliable, k);
      RowAfterOne(d0, d1, reliable, k);
      assert k in d0.poison && d4.rows[k] == d2.rows[k] == Quarantined(d0, k, reliable);
    } else {
      assert k !in d3.rows && k !in d2.rows;
    }
  }

  lemma FinalizedStaysKnown(d3: Disk, d4: Disk)
    requires FinalizedRows(d3, d4, {}) && WellFormed(d3)
    ensures WellFormed(d4) && d4 == d3.(rows := d4.rows) && d4.rows.Keys == d3.rows.Keys
  {
  }

  lemma SameShapes(d0: Disk, d1: Disk, d2: Disk, reliable: bool)
    requires Quarantining(d0, d1, {}, reliable) && Cancelling(d1, d2, {})
    ensures SameShape(d0, d1) && SameShape(d0, d2)
  {
  }

  lemma PoisonRecovered(d: Disk, j: string, reliable: bool)
    requires j in d.rows
    ensures j in d.poison ==> Recovered(d, j, reliable) == Quarantined(d, j, reliable)
  {
  }

  /** The later steps neither queue a row nor take one out of the queue. */
  lemma ExposureSurvives(d3: Disk, d4: Disk, d5: Disk)
    requires FinalizedRows(d3, d4, {}) && d5 == RecomputedAll(d4)
    ensures forall j :: MayExpose(d5, j) <==> MayExpose(d3, j)
    ensures forall j :: MayExpose(d5, j) ==> j in d5.rows && d5.rows[j].Queued?
  {
    forall j ensures MayExpose(d5, j) <==> MayExpose(d3, j) {
      assert j in d3.rows ==> (Finalized(d3.rows[j]).Queued? <==> d3.rows[j].Queued?);
    }
  }

  lemma MadeFromTheStart(d0: Disk, d1: Disk, d2: Disk, d3: Disk, d4: Disk, d5: Disk, born: map<string, string>, reliable: bool)
    requires Quarantining(d0, d1, {}, reliable) && Cancelling(d1, d2, {}) && Made(d2, d3, born, {})
    requires FinalizedRows(d3, d4, {}) && d5 == RecomputedAll(d4)
    ensures Made(d0, d5, born, {})
  {
    hide RecordedAfter, Quarantined, Signalled, Finalized, RecomputedStatus;
    SameShapes(d0, d1, d2, reliable);
    forall j | j in born ensures MayCreate(d2, j, born[j]) <==> MayCreate(d0, j, born[j]) {
      if j in d0.children && j !in d0.rows { assert d1.children[j] == d0.children[j] && d2.children[j] == d1.children[j]; }
    }
  }

  /** With reliable batch files no undecodable row stays queued. */
  lemma QueueIsQueued(d0: Disk, d: Disk, reliable: bool)
    requires After(d0, d, reliable)
    ensures reliable ==> forall j :: j in d.rows && d.rows[j].Queued? ==> j !in d.poison
  {
    forall j | reliable && j in d.rows && d.rows[j].Queued? ensures j !in d.poison {
      if j in d0.rows { assert d.rows[j] == Recovered(d0, j, reliable); } else { assert MayExpose(d, j); }
    }
  }

  // ---------------------------------------------------------------- guarantees

  /** Nothing is left in progress: every row is queued or terminal. */
  lemma NothingInProgress(d0: Disk, d: Disk, reliable: bool)
    requires After(d0, d, reliable)
    ensures forall j :: j in d.rows ==> d.rows[j].Queued? || d.rows[j].Terminal()
  {
    forall j | j in d.rows ensures d.rows[j].Queued? || d.rows[j].Terminal() {
      if j in d0.rows {
        assert d.rows[j] == Recovered(d0, j, reliable);
      } else {
        assert MayExpose(d, j);
      }
    }
  }

  /** Every change recovery makes to a row is a path in the transition table. */
  lemma RecoveryFollowsTable(d: Disk, j: string, reliable: bool)
    requires j in d.rows && WellFormed(d)
    ensures CanBecome(d.rows[j], Recovered(d, j, reliable))
  {
  }

  /** A cancellation that was durable before the restart takes precedence: a queued
      child of a cancelling batch ends cancelled, decodable or not, unless it is stale. */
  lemma CancellationTakesPrecedence(d: Disk, j: string, reliable: bool)
    requires j in d.rows && d.rows[j].Queued? && j in d.children && d.children[j].batch in d.cancelling
    ensures Recovered(d, j, reliable) == if Stale(d, j) then Queued else Cancelled
  {
  }

  /** Work that can still run is kept: a decodable queued row outside cancelling batches
      stays queued, and no other row becomes queued. */
  lemma RunnableWorkIsKept(d: Disk, j: string, reliable: bool)
    requires j in d.rows && j !in d.poison && !Doomed(d, j)
    ensures Recovered(d, j, reliable).Queued? <==> d.rows[j].Queued?
    ensures Interrupted(d.rows[j]) ==> Recovered(d, j, reliable) == Failed
    ensures d.rows[j].CancelRequested? ==> Recovered(d, j, reliable) == Cancelled
  {
  }

  /** Which children of cancelling batches are still queued after a pass, and so
      enqueued: exactly the stale ones. */
  lemma OnlyStaleChildrenSurvive(d0: Disk, d: Disk, reliable: bool, j: string)
    requires After(d0, d, reliable)
    ensures Doomed(d, j) && d.rows[j].Queued? <==> Stale(d0, j)
  {
    if j in d0.rows {
      assert d.rows[j] == Recovered(d0, j, reliable);
      assert j in d.children <==> j in d0.children;
    } else if j in d.rows {
      assert MayExpose(d, j);
    }
  }

  /** A second pass changes the status of a row exactly if the first one missed it. */
  lemma SecondPassChangesOnlyStale(d0: Disk, d1: Disk, d2: Disk, reliable: bool, j: string)
    requires After(d0, d1, reliable) && After(d1, d2, reliable) && j in d1.rows
    ensures d2.rows[j] != d1.rows[j] <==> Stale(d0, j)
  {
    hide Recovered, Stale, MayExpose;
    NothingInProgress(d0, d1, reliable);
    OnlyStaleChildrenSurvive(d0, d1, reliable, j);
    assert d2.rows[j] == Recovered(d1, j, reliable);
    if j in d1.poison {
      assert d1.rows[j] == Recovered(d0, j, reliable) by { PoisonWasThere(d0, d1, reliable, j); }
      PoisonIsStable(d0, d1, reliable, j);
    } else {
      SecondLook(d1, j, reliable);
    }
  }

  lemma PoisonWasThere(d0: Disk, d1: Disk, reliable: bool, j: string)
    requires After(d0, d1, reliable) && j in d1.poison && j in d1.rows
    ensures j in d0.rows && (j in d1.children <==> j in d0.children)
  {
  }

  lemma PoisonIsStable(d0: Disk, d1: Disk, reliable: bool, j: string)
    requires After(d0, d1, reliable) && j in d1.poison && j in d1.rows
    ensures Recovered(d1, j, reliable) == d1.rows[j] && !Doomed(d1, j)
  {
    PoisonWasThere(d0, d1, reliable, j);
    assert d1.rows[j] == Recovered(d0, j, reliable);
  }

  lemma SecondLook(d: Disk, j: string, reliable: bool)
    requires j in d.rows && j !in d.poison && (d.rows[j].Queued? || d.rows[j].Terminal())
    requires j in d.children ==> d.children[j].status == Some(d.rows[j])
    ensures Recovered(d, j, reliable) != d.rows[j] <==> Doomed(d, j) && d.rows[j].Queued?
  {
  }

  /** A disk on which a child of a cancelled batch is put back in the queue. */
  lemma StaleChildIsEnqueued(j: string, b: string)
    ensures var d := Disk(map[j := Queued], {}, map[j := Child(b, Some(Cancelled))], {b});
      WellFormed(d) && Stale(d, j) && Recovered(d, j, true) == Queued
  {
  }
}
