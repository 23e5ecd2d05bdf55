/** Materializing a stage, start to end, with a fault or a crash at any point: ids
    first, durably and all at once, then one job row per id. */
module BatchStage {
  import opened Wrappers
  import opened JobStatuses
  import opened BatchRuns
  import JobRuns

  /** What the outside does while one item is worked on. */
  datatype Event =
    | Proceed
    | Undecodable      // the child's row exists but cannot be decoded: skipped
    | ReadFails        // the cheap re-read of the batch comes back empty
    | CancelSeen       // a cancellation became durable and is noticed
    | CancelRefuses    // it became durable just before the exposure decision
    | Unreadable       // the exposure decision could not read the batch
    | Crash

  datatype Result = Completed | Incomplete | Cancelling | Crashed

  predicate DistinctIds(items: seq<Item>) {
    forall i, k :: 0 <= i < k < |items| && items[i].job.Some? ==> items[i].job != items[k].job
  }

  /** Ids from `next` on are unlike each other and unlike any id in use. */
  ghost predicate Fresh(idAt: nat -> string, next: nat, items: seq<Item>, rows: map<string, Status>) {
    && (forall m: nat, n: nat :: idAt(m) == idAt(n) ==> m == n)
    && (forall n: nat :: n >= next ==> idAt(n) !in rows && forall i :: 0 <= i < |items| ==> items[i].job != Some(idAt(n)))
  }

  /** Has to be materialized by this stage. */
  predicate Due(item: Item, stage: nat) { item.stage == stage && !Finished(item) }

  /** The item's row exists, and is queued only if it was exposed. */
  predicate Exposed(item: Item, rows: map<string, Status>, queue: seq<string>) {
    item.job.Some? && item.job.value in rows && (rows[item.job.value] == Queued ==> item.job.value in queue)
  }

  /** Rows that were not there before belong to items of this stage that are not over:
      work that has concluded is never brought back. */
  ghost predicate Accounted(before: map<string, Status>, rows: map<string, Status>, items: seq<Item>, stage: nat) {
    before.Keys <= rows.Keys && forall j :: j in rows && j !in before ==> IsDue(items, stage, j)
  }

  ghost predicate IsDue(items: seq<Item>, stage: nat, j: string) {
    exists i :: 0 <= i < |items| && items[i].job == Some(j) && Due(items[i], stage)
  }

  ghost predicate AllExposed(items: seq<Item>, upto: nat, stage: nat, rows: map<string, Status>, queue: seq<string>) {
    forall i :: 0 <= i < |items| && i < upto && Due(items[i], stage) ==> Exposed(items[i], rows, queue)
  }

  /** Nothing happened to rows but that queued ones were added. */
  ghost predicate OnlyQueuedAdded(before: map<string, Status>, rows: map<string, Status>) {
    before.Keys <= rows.Keys && forall j :: j in rows ==> rows[j] == if j in before then before[j] else Queued
  }

  /** Nothing happened to the queue but that ids of due items were appended. */
  ghost predicate OnlyDueAppended(before: seq<string>, queue: seq<string>, items: seq<Item>, stage: nat) {
    before <= queue && forall n :: |before| <= n < |queue| ==> IsDue(items, stage, queue[n])
  }

  /** Still has to reach a worker: no row as yet, or one that is queued. */
  predicate Waiting(rows: map<string, Status>, j: string) { j !in rows || rows[j] == Queued }

  /** The ids a pass has to hand over, in item order. */
  function ToExpose(items: seq<Item>, stage: nat, rows: map<string, Status>): seq<string> {
    if items == [] then []
    else
      var x := items[|items| - 1];
      ToExpose(items[..|items| - 1], stage, rows)
      + (if Due(x, stage) && x.job.Some? && Waiting(rows, x.job.value) then [x.job.value] else [])
  }

  /** Every due item that waits is handed over once, and nothing else is. */
  lemma {:induction false} ExposedOnce(items: seq<Item>, stage: nat, rows: map<string, Status>, j: string)
    requires DistinctIds(items)
    ensures multiset(ToExpose(items, stage, rows))[j] == if IsDue(items, stage, j) && Waiting(rows, j) then 1 else 0
  {
    if items != [] {
      var init, x := items[..|items| - 1], items[|items| - 1];
      ExposedOnce(init, stage, rows, j);
      DueSplits(items, stage, j);
    }
  }

  lemma DueSplits(items: seq<Item>, stage: nat, j: string)
    requires items != [] && DistinctIds(items)
    ensures var init, x := items[..|items| - 1], items[|items| - 1];
      && DistinctIds(init)
      && (IsDue(items, stage, j) <==> IsDue(init, stage, j) || (x.job == Some(j) && Due(x, stage)))
      && !(IsDue(init, stage, j) && x.job == Some(j))
  {
    var init := items[..|items| - 1];
    if IsDue(init, stage, j) {
      var i :| 0 <= i < |init| && init[i].job == Some(j) && Due(init[i], stage);
      assert items[i].job == Some(j);
    }
    if IsDue(items, stage, j) {
      var i :| 0 <= i < |items| && items[i].job == Some(j) && Due(items[i], stage);
      if i < |init| { assert init[i] == items[i]; }
    }
  }

  ghost predicate SameIds(before: seq<Item>, after: seq<Item>) {
    && |after| == |before|
    && (forall i :: 0 <= i < |after| ==> after[i].stage == before[i].stage && after[i].status == before[i].status)
    && (forall i :: 0 <= i < |after| && (before[i].job.Some? || Finished(before[i])) ==> after[i].job == before[i].job)
  }

  ghost predicate FaultFree(events: nat -> Event) { forall i: nat :: events(i) == Proceed }

  /** The ids phase, as one atomic save: an id for every due item without one. */
  function Assigned(items: seq<Item>, stage: nat, idAt: nat -> string, next: nat): (r: seq<Item>)
    ensures |r| == |items|
    ensures forall i :: 0 <= i < |items| ==>
      r[i] == if NeedsId(items[i], stage) then items[i].(job := Some(idAt(next + i))) else items[i]
  {
    if items == [] then []
    else
      var n := |items| - 1;
      Assigned(items[..n], stage, idAt, next) + [if NeedsId(items[n], stage) then items[n].(job := Some(idAt(next + n))) else items[n]]
  }

  lemma AssignedOk(items: seq<Item>, stage: nat, idAt: nat -> string, next: nat, rows: map<string, Status>)
    requires DistinctIds(items) && Fresh(idAt, next, items, rows)
    ensures var r := Assigned(items, stage, idAt, next);
      DistinctIds(r) && SameIds(items, r) && Fresh(idAt, next + |items|, r, rows)
  {
  }

  class StageStore {
    const idAt: nat -> string        // the id generator
    var nextId: nat
    var items: seq<Item>             // the batch file
    var cancelling: bool
    var rows: map<string, Status>    // the job table
    var queue: seq<string>           // ids given to enqueue_job, in order

    ghost predicate Valid() reads this { DistinctIds(items) && Fresh(idAt, nextId, items, rows) }

    constructor (idAt: nat -> string, nextId: nat, items: seq<Item>, cancelling: bool, rows: map<string, Status>)
      requires DistinctIds(items) && Fresh(idAt, nextId, items, rows)
      ensures Valid() && this.items == items && this.cancelling == cancelling && this.rows == rows && queue == []
    {
      this.idAt, this.nextId, this.items, this.cancelling, this.rows, this.queue := idAt, nextId, items, cancelling, rows, [];
    }

    /** First phase: read, assign and save under the lock; a crash may come before or
        after the save, never inside it. */
    method AssignIds(stage: nat, crashBeforeSave: bool) returns (saved: bool)
      requires Valid()
      modifies this`items, this`nextId
      ensures Valid()
      ensures saved == (!crashBeforeSave && !cancelling)
      ensures items == if saved then Assigned(old(items), stage, idAt, old(nextId)) else old(items)
    {
      saved := !crashBeforeSave && !cancelling;
      if saved {
        AssignedOk(items, stage, idAt, nextId, rows);
        items, nextId := Assigned(items, stage, idAt, nextId), nextId + |items|;
      }
    }

    /** One item of the second phase: create or reuse its row, then expose it unless
        a cancellation is durable. */
    method Materialize(k: nat, event: Event) returns (r: Result)
      requires k < |items| && items[k].job.Some?
      modifies this`rows, this`queue, this`cancelling
      ensures r.Completed? <==> !old(cancelling) && event in {Proceed, Undecodable}
      ensures r.Incomplete? <==> event == ReadFails || (!old(cancelling) && event == Unreadable)
      ensures r.Crashed? <==> !old(cancelling) && event == Crash
      ensures cancelling == (old(cancelling) || event in {CancelSeen, CancelRefuses})
      ensures old(cancelling) || event in {ReadFails, CancelSeen, Undecodable} ==> rows == old(rows)
      ensures !old(cancelling) && event in {Proceed, Unreadable, Crash} ==>
        rows == if items[k].job.value in old(rows) then old(rows) else old(rows)[items[k].job.value := Queued]
      ensures !old(cancelling) && event == CancelRefuses ==>
        rows == if Waiting(old(rows), items[k].job.value) then old(rows)[items[k].job.value := Cancelled]
                else if old(rows)[items[k].job.value] in {Preparing, Running, Postprocessing}
                then old(rows)[items[k].job.value := CancelRequested] else old(rows)
      ensures queue == if !old(cancelling) && event == Proceed && Waiting(old(rows), items[k].job.value)
                       then old(queue) + [items[k].job.value] else old(queue)
    {
      var j := items[k].job.value;
      if event == CancelSeen { cancelling := true; }
      if event == ReadFails { return Incomplete; }
      if cancelling { return Cancelling; }
      if event == Undecodable { return Completed; }
      if j !in rows { rows := rows[j := Queued]; }
      if event == Crash { return Crashed; }
      if event == CancelRefuses {
        cancelling := true;
        var target := JobRuns.CancelTarget(rows[j]);
        if target.Some? { rows := rows[j := target.value]; }
        return Cancelling;
      }
      if event == Unreadable { return Incomplete; }
      if rows[j] == Queued { queue := queue + [j]; }
      r := Completed;
    }

    /** `_enqueue_stage` from any state a crash can leave: ids that were set stay and
        stay distinct, rows are never lost or duplicated, nothing is exposed or
        created once a cancellation is durable. A pass without faults over a batch
        that is not being cancelled leaves the rows it finds, adds a queued one for
        every due item without, and hands over exactly the ids that wait. */
    method EnqueueStage(stage: nat, crashBeforeSave: bool, events: nat -> Event) returns (r: Result)
      requires Valid()
      modifies this
      ensures Valid() && SameIds(old(items), items) && Accounted(old(rows), rows, items, stage)
      ensures OnlyDueAppended(old(queue), queue, items, stage)
      ensures old(cancelling) ==> cancelling && queue == old(queue) && rows == old(rows) && items == old(items)
      ensures !cancelling ==> OnlyQueuedAdded(old(rows), rows)
      ensures crashBeforeSave ==> r == Crashed
      ensures old(cancelling) && !crashBeforeSave ==> r == Cancelling
      ensures r == Completed ==> !cancelling
      ensures !old(cancelling) && !crashBeforeSave && FaultFree(events) ==>
        && r == Completed && !cancelling && AllExposed(items, |items|, stage, rows, queue)
        && queue == old(queue) + ToExpose(items, stage, old(rows))
    {
      hide Fresh, DistinctIds, Accounted, AllExposed, OnlyQueuedAdded, OnlyDueAppended, ToExpose, SameIds, Going, HandedOver;
      AssignedOk(items, stage, idAt, nextId, rows);
      NothingYet(items, stage, rows, queue);
      var saved := AssignIds(stage, crashBeforeSave);
      NothingYet(items, stage, rows, queue);
      if !saved { return if crashBeforeSave then Crashed else Cancelling; }
      var k := 0;
      ghost var withIds := items;
      while k < |items|
        invariant 0 <= k <= |items| && Valid() && items == withIds && !old(cancelling) && !cancelling
        invariant Going(items, k, stage, old(rows), rows, old(queue), queue)
        invariant FaultFree(events) ==> HandedOver(items, k, stage, old(rows), rows, old(queue), queue)
      {
        ghost var rows0, queue0 := rows, queue;
        if items[k].stage != stage || items[k].job.None? || Finished(items[k]) {
          PassedOver(items, k, stage, old(rows), rows, old(queue), queue);
          k := k + 1;
          continue;
        }
        r := Materialize(k, events(k));
        StillFresh(idAt, nextId, items, k, rows0, rows);
        StillGoing(items, k, stage, old(rows), rows0, rows, old(queue), queue0, queue);
        if r != Completed { return r; }
        if FaultFree(events) { StillHandedOver(items, k, stage, old(rows), rows0, rows, old(queue), queue0, queue); }
        k := k + 1;
      }
      FarEnough(items, stage, old(rows), rows, old(queue), queue);
      r := Completed;
    }

    /** Any number of attempts, each with its own crash and faults, then one without:
        every item keeps the id it first got, every due item has its row, and unless
        the batch was cancelled on the way the rows found are as they were and the
        rows added are queued. */
    method RerunAfterCrashes(stage: nat, crashes: seq<bool>, events: seq<nat -> Event>) returns (r: Result)
      requires Valid() && |crashes| == |events|
      modifies this
      ensures Valid() && SameIds(old(items), items) && Accounted(old(rows), rows, items, stage)
      ensures OnlyDueAppended(old(queue), queue, items, stage)
      ensures cancelling || (r == Completed && AllExposed(items, |items|, stage, rows, queue))
      ensures cancelling || OnlyQueuedAdded(old(rows), rows)
    {
      hide Fresh, DistinctIds, Accounted, AllExposed, OnlyQueuedAdded, OnlyDueAppended, ToExpose;
      var n := 0;
      NothingYet(items, stage, rows, queue);
      while n < |crashes|
        invariant n <= |crashes| && Valid() && SameIds(old(items), items) && Accounted(old(rows), rows, items, stage)
        invariant OnlyDueAppended(old(queue), queue, items, stage)
        invariant cancelling || OnlyQueuedAdded(old(rows), rows)
      {
        ghost var rows0, items0, queue0 := rows, items, queue;
        var _ := EnqueueStage(stage, crashes[n], events[n]);
        AccountedOn(old(rows), rows0, rows, items0, items, stage);
        DueOn(old(queue), queue0, queue, items0, items, stage);
        if !cancelling { QueuedOn(old(rows), rows0, rows); }
        n := n + 1;
      }
      ghost var rows0, items0, queue0 := rows, items, queue;
      r := EnqueueStage(stage, false, _ => Proceed);
      AccountedOn(old(rows), rows0, rows, items0, items, stage);
      DueOn(old(queue), queue0, queue, items0, items, stage);
      if !cancelling { QueuedOn(old(rows), rows0, rows); }
    }
  }

  lemma StillFresh(idAt: nat -> string, next: nat, items: seq<Item>, k: nat, rows: map<string, Status>, rows': map<string, Status>)
    requires Fresh(idAt, next, items, rows) && k < |items| && items[k].job.Some?
    requires rows'.Keys == rows.Keys || rows'.Keys == rows.Keys + {items[k].job.value}
    ensures Fresh(idAt, next, items, rows')
  {
    forall n: nat | n >= next ensures idAt(n) !in rows' {
      assert idAt(n) !in rows.Keys && items[k].job != Some(idAt(n));
    }
  }

  lemma StillAccounted(before: map<string, Status>, rows: map<string, Status>, rows': map<string, Status>, items: seq<Item>, k: nat, stage: nat)
    requires Accounted(before, rows, items, stage) && k < |items| && items[k].job.Some? && Due(items[k], stage)
    requires rows'.Keys == rows.Keys || rows'.Keys == rows.Keys + {items[k].job.value}
    ensures Accounted(before, rows', items, stage)
  {
    assert IsDue(items, stage, items[k].job.value);
    forall j | j in rows' && j !in before ensures IsDue(items, stage, j) {
      assert j in rows.Keys || j == items[k].job.value;
    }
  }

  lemma StillExposed(items: seq<Item>, k: nat, stage: nat, rows: map<string, Status>, rows': map<string, Status>, queue: seq<string>, queue': seq<string>)
    requires DistinctIds(items) && k < |items| && items[k].job.Some? && AllExposed(items, k, stage, rows, queue)
    requires forall j :: j in rows && j != items[k].job.value ==> j in rows' && rows'[j] == rows[j]
    requires queue' == queue || queue' == queue + [items[k].job.value]
    requires Exposed(items[k], rows', queue')
    ensures AllExposed(items, k + 1, stage, rows', queue')
  {
    forall i | 0 <= i < k && Due(items[i], stage) ensures Exposed(items[i], rows', queue') {
      assert Exposed(items[i], rows, queue) && items[i].job != items[k].job;
    }
  }

  lemma NothingYet(items: seq<Item>, stage: nat, rows: map<string, Status>, queue: seq<string>)
    ensures Accounted(rows, rows, items, stage) && OnlyQueuedAdded(rows, rows) && OnlyDueAppended(queue, queue, items, stage)
    ensures HandedOver(items, 0, stage, rows, rows, queue, queue) && Going(items, 0, stage, rows, rows, queue, queue)
    ensures SameIds(items, items)
  {
  }

  /** Items still ahead have the rows they had. */
  ghost predicate NoRowYet(items: seq<Item>, k: nat, before: map<string, Status>, rows: map<string, Status>) {
    forall i :: k <= i < |items| && items[i].job.Some? ==> Waiting(rows, items[i].job.value) == Waiting(before, items[i].job.value)
  }

  /** What a pass, faulty or not, has done so far. */
  ghost predicate Going(
    items: seq<Item>, k: nat, stage: nat, before: map<string, Status>, rows: map<string, Status>, queue0: seq<string>, queue: seq<string>)
  {
    && Accounted(before, rows, items, stage) && OnlyDueAppended(queue0, queue, items, stage)
    && OnlyQueuedAdded(before, rows) && NoRowYet(items, k, before, rows)
  }

  lemma StillGoing(
    items: seq<Item>, k: nat, stage: nat, before: map<string, Status>, rows: map<string, Status>, rows': map<string, Status>,
    queue0: seq<string>, queue: seq<string>, queue': seq<string>)
    requires DistinctIds(items) && k < |items| && items[k].job.Some? && Due(items[k], stage)
    requires Going(items, k, stage, before, rows, queue0, queue)
    requires rows'.Keys == rows.Keys || rows'.Keys == rows.Keys + {items[k].job.value}
    requires queue' == queue || queue' == queue + [items[k].job.value]
    ensures Accounted(before, rows', items, stage) && OnlyDueAppended(queue0, queue', items, stage)
    ensures rows' == rows || (items[k].job.value !in rows && rows' == rows[items[k].job.value := Queued]) ==>
      OnlyQueuedAdded(before, rows') && Going(items, k + 1, stage, before, rows', queue0, queue')
  {
    hide DistinctIds, Accounted, OnlyQueuedAdded, OnlyDueAppended, NoRowYet;
    StillAccounted(before, rows, rows', items, k, stage);
    StillDue(queue0, queue, queue', items, k, stage);
    if rows' == rows || (items[k].job.value !in rows && rows' == rows[items[k].job.value := Queued]) {
      StillQueued(before, rows, rows', items[k].job.value);
      StillNoRow(items, k, before, rows, rows');
    }
  }

  lemma StillNoRow(items: seq<Item>, k: nat, before: map<string, Status>, rows: map<string, Status>, rows': map<string, Status>)
    requires DistinctIds(items) && k < |items| && items[k].job.Some? && NoRowYet(items, k, before, rows)
    requires rows' == rows || rows' == rows[items[k].job.value := Queued]
    ensures NoRowYet(items, k + 1, before, rows')
  {
  }

  /** How far a pass without faults has come. */
  ghost predicate HandedOver(
    items: seq<Item>, k: nat, stage: nat, before: map<string, Status>, rows: map<string, Status>, queue0: seq<string>, queue: seq<string>)
    requires k <= |items|
  {
    AllExposed(items, k, stage, rows, queue) && queue == queue0 + ToExpose(items[..k], stage, before)
  }

  lemma PassedOver(
    items: seq<Item>, k: nat, stage: nat, before: map<string, Status>, rows: map<string, Status>, queue0: seq<string>, queue: seq<string>)
    requires k < |items| && (!Due(items[k], stage) || items[k].job.None?) && Going(items, k, stage, before, rows, queue0, queue)
    ensures Going(items, k + 1, stage, before, rows, queue0, queue)
    ensures !Due(items[k], stage) && HandedOver(items, k, stage, before, rows, queue0, queue) ==> HandedOver(items, k + 1, stage, before, rows, queue0, queue)
  {
    assert items[..k + 1][..k] == items[..k];
  }

  lemma StillHandedOver(
    items: seq<Item>, k: nat, stage: nat, before: map<string, Status>, rows: map<string, Status>, rows': map<string, Status>,
    queue0: seq<string>, queue: seq<string>, queue': seq<string>)
    requires DistinctIds(items) && k < |items| && Due(items[k], stage) && items[k].job.Some? && Going(items, k, stage, before, rows, queue0, queue)
    requires HandedOver(items, k, stage, before, rows, queue0, queue)
    requires var j := items[k].job.value;
      && rows' == (if j in rows then rows else rows[j := Queued])
      && queue' == (if Waiting(rows, j) then queue + [j] else queue)
    ensures HandedOver(items, k + 1, stage, before, rows', queue0, queue')
  {
    StillExposed(items, k, stage, rows, rows', queue, queue');
    assert items[..k + 1][..k] == items[..k];
  }

  lemma FarEnough(
    items: seq<Item>, stage: nat, before: map<string, Status>, rows: map<string, Status>, queue0: seq<string>, queue: seq<string>)
    requires Going(items, |items|, stage, before, rows, queue0, queue)
    ensures Accounted(before, rows, items, stage) && OnlyDueAppended(queue0, queue, items, stage) && OnlyQueuedAdded(before, rows)
    ensures HandedOver(items, |items|, stage, before, rows, queue0, queue) ==>
      AllExposed(items, |items|, stage, rows, queue) && queue == queue0 + ToExpose(items, stage, before)
  {
    assert items[..|items|] == items;
  }

  lemma StillDue(before: seq<string>, queue: seq<string>, queue': seq<string>, items: seq<Item>, k: nat, stage: nat)
    requires OnlyDueAppended(before, queue, items, stage) && k < |items| && items[k].job.Some? && Due(items[k], stage)
    requires queue' == queue || queue' == queue + [items[k].job.value]
    ensures OnlyDueAppended(before, queue', items, stage)
  {
    assert IsDue(items, stage, items[k].job.value);
  }

  lemma StillQueued(before: map<string, Status>, rows: map<string, Status>, rows': map<string, Status>, j: string)
    requires OnlyQueuedAdded(before, rows) && (rows' == rows || (j !in rows && rows' == rows[j := Queued]))
    ensures OnlyQueuedAdded(before, rows')
  {
  }

  lemma QueuedOn(before: map<string, Status>, rows: map<string, Status>, rows': map<string, Status>)
    requires OnlyQueuedAdded(before, rows) && OnlyQueuedAdded(rows, rows')
    ensures OnlyQueuedAdded(before, rows')
  {
  }

  lemma DueOn(before: seq<string>, queue: seq<string>, queue': seq<string>, items: seq<Item>, items': seq<Item>, stage: nat)
    requires OnlyDueAppended(before, queue, items, stage) && SameIds(items, items') && OnlyDueAppended(queue, queue', items', stage)
    ensures OnlyDueAppended(before, queue', items', stage)
  {
    forall n | |before| <= n < |queue'| ensures IsDue(items', stage, queue'[n]) {
      if n < |queue| {
        var i :| 0 <= i < |items| && items[i].job == Some(queue[n]) && Due(items[i], stage);
        assert items'[i].job == Some(queue'[n]) && Due(items'[i], stage);
      }
    }
  }

  lemma AccountedOn(before: map<string, Status>, rows: map<string, Status>, rows': map<string, Status>, items: seq<Item>, items': seq<Item>, stage: nat)
    requires Accounted(before, rows, items, stage) && SameIds(items, items') && Accounted(rows, rows', items', stage)
    ensures Accounted(before, rows', items', stage)
  {
    forall j | j in rows' && j !in before ensures IsDue(items', stage, j) {
      if j in rows.Keys {
        var i :| 0 <= i < |items| && items[i].job == Some(j) && Due(items[i], stage);
        assert items'[i].job == Some(j) && Due(items'[i], stage);
      }
    }
  }
}
