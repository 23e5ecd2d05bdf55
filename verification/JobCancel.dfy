/** The cancel request: a read and a compare-and-set, retried until the
    compare-and-set wins or there is nothing left to cancel. */
module JobCancel {
  import opened Wrappers
  import opened JobStatuses
  import opened JobRuns

  /** What `cancel_job` ends with. `Undecodable` is the exception a corrupt row
      raises on being read. */
  datatype Outcome =
    | Missing
    | Undecodable
    | NothingToDo(status: Status)
    | Changed(from: Status, to: Status)

  /** Other writers between two accesses of the loop: the row may appear, and then
      only moves as the table allows. */
  ghost predicate Interference(history: nat -> Row) {
    forall i: nat :: MayFollow(history(i), history(i + 1))
  }

  predicate MayFollow(a: Row, b: Row) {
    a.Some? ==> b.Some? && CanBecome(a.value, b.value)
  }

  /** `history(2k)` is the row the loop's k-th read finds, `history(2k + 1)` the row
      its k-th compare-and-set meets. Each lost compare-and-set means the rank rose,
      so the loop runs at most five times. */
  method CancelJob(history: nat -> Row) returns (o: Outcome, tries: nat)
    requires Interference(history)
    ensures 1 <= tries <= 5
    ensures o.Missing? <==> history(0).None?
    ensures o.Undecodable? <==> history(0).Some? && history(0).value.Corrupt?
    ensures o.NothingToDo? ==> history(2 * (tries - 1)) == Some(o.status) && (o.status.CancelRequested? || o.status.Terminal())
    ensures o.Changed? ==> history(2 * tries - 1) == Some(o.from) && CancelTarget(o.from) == Some(o.to)
    ensures o.Changed? ==> CompareAndSet(Some(o.from), {o.from}, o.to) == Some(o.to)
  {
    var k := 0;
    while true
      invariant history(0).Some? ==> history(2 * k).Some? && CanBecome(history(0).value, history(2 * k).value)
      invariant k > 0 ==> history(0).Some? && !history(0).value.Corrupt?
      invariant k <= 4
      invariant k > 0 ==> history(2 * k).Some? && k <= history(2 * k).value.Rank()
      decreases if history(2 * k).Some? then 5 - history(2 * k).value.Rank() else 6
    {
      var seen := history(2 * k);
      if seen.None? { return Missing, k + 1; }
      if seen.value.Corrupt? { return Outcome.Undecodable, k + 1; }
      var target := CancelTarget(seen.value);
      if target.None? { return NothingToDo(seen.value), k + 1; }
      assert MayFollow(history(2 * k), history(2 * k + 1));
      assert MayFollow(history(2 * k + 1), history(2 * k + 1 + 1));
      if Matches(history(2 * k + 1), {seen.value}, target.value) {
        return Changed(seen.value, target.value), k + 1;
      }
      RowMoved(seen.value, history(2 * k + 1).value, history(2 * k + 2).value);
      if k > 0 { BecomesTransitively(history(0).value, history(2 * k).value, history(2 * k + 2).value); }
      k := k + 1;
    }
  }

  /** The compare-and-set lost, so the status had changed, and ranks only rise. */
  lemma RowMoved(seen: Status, met: Status, next: Status)
    requires CancelTarget(seen).Some? && CanBecome(seen, met) && CanBecome(met, next)
    requires !Matches(Some(met), {seen}, CancelTarget(seen).value)
    ensures seen.Rank() < next.Rank() && !next.Corrupt? && CanBecome(seen, next)
  {
  }

  /** Whatever the request answered, the job is on its way out or over: from then on
      it never succeeds unless it had succeeded already. */
  lemma CancelIsDecisive(o: Outcome, later: Status)
    requires o.Changed? ==> CancelTarget(o.from) == Some(o.to) && CanBecome(o.to, later)
    requires o.NothingToDo? ==> CanBecome(o.status, later) && (o.status.CancelRequested? || o.status.Terminal())
    ensures o.Changed? ==> later in {CancelRequested, Cancelled, Failed}
    ensures o.NothingToDo? && later == Succeeded ==> o.status == Succeeded
  {
  }
}
