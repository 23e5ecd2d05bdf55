/** `process_job` as one call: the code of a single worker, with other writers and
    storage faults let in at every access to the row. `JobRuns` interleaves many such
    workers; here is the contract one call keeps under a rely condition. */
module JobRunner {
  import opened Wrappers
  import opened JobStatuses
  import opened JobRuns
  import JobGuarantees

  /** What others may do to the row between two accesses: create it, claim it while it
      is queued, cancel it or fail it. */
  ghost predicate Tolerated(a: Row, b: Row) {
    || a == b
    || (a.None? && b == Some(Queued))
    || (a.Some? && b.Some? && Edge(a.value, b.value) && (a.value.Queued? || b.value in {CancelRequested, Cancelled, Failed}))
  }

  /** In one of these statuses, or cancelled or finished by somebody else. */
  ghost predicate Within(row: Row, statuses: set<Status>) {
    row.Some? && (row.value in statuses || row.value.CancelRequested? || row.value.Terminal())
  }

  lemma WithinIsStable(a: Row, b: Row, statuses: set<Status>)
    requires Within(a, statuses) && Tolerated(a, b) && Queued !in statuses
    ensures Within(b, statuses)
  {
  }

  /** How one call ended. `stranded`: the generator raised GenerationCancelled and the
      row was still `running` when the worker came to finalize it. `gaveUp`: the last
      attempt to record a failure raised. */
  datatype Call = Call(claimed: bool, entered: bool, stranded: bool, gaveUp: bool, raised: bool)

  /** Where a job can be while its owner works on it. */
  const OWNED: set<Status> := {Preparing, Running, Postprocessing}

  /** The status an undisturbed delivery gives a job whose generator ends like this. */
  function Deserved(ends: Choice): Status {
    match ends
    case Fine => Succeeded
    case GeneratorStops => Running
    case _ => Failed
  }

  /** What a cancel request makes of a row. */
  function Asked(row: Row): Row {
    if row.Some? && CancelTarget(row.value).Some? then CancelTarget(row.value) else row
  }

  /** How a delivery ends: the row, the number of accesses, whether it entered the
      generator, and whether it failed before the claim, which the caller then handles. */
  datatype End = End(row: Row, accesses: nat, entered: bool, unclaimed: bool)

  /** The last access of an undisturbed delivery that still honours a cancel coming
      just before it: the commit of success, or the look after the generator. */
  function LastLook(ends: Choice): nat { if ends == Fine then 7 else 5 }

  class Table {
    var row: Row
    var clock: nat                      // accesses so far
    ghost var mine: seq<Status>         // what this worker wrote to the row, in order
    const others: nat -> Row -> Row     // what others do just before the n-th access
    const world: nat -> Choice          // how the n-th access goes
    const ends: Choice                  // how the generator ends
    const cancelAt: nat                 // the access just before which a cancel may come

    ghost predicate Rely() { forall n: nat, r: Row :: Tolerated(r, others(n)(r)) }

    /** One of these accesses raised. */
    ghost predicate FaultIn(from: nat, to: nat) { exists n: nat :: from <= n < to && world(n).Raises() }

    /** The row just before the n-th access, if a cancel before access `at` is all that
        happens. */
    function CancelledAt(at: int, n: nat, r: Row): Row { if n == at then Asked(r) else r }

    /** No access fails, and one cancel, just before access `at`, is all that happens
        to the row from outside. */
    ghost predicate CancelOnly(at: int) {
      (forall n: nat :: world(n) == Fine) && (forall n: nat, r: Row :: others(n)(r) == CancelledAt(at, n, r))
    }

    /** Nobody interferes and no access fails. */
    ghost predicate Quiet() { CancelOnly(-1) }

    ghost predicate OneCancel() { CancelOnly(cancelAt) }

    /** How a worker of `JobRuns` ends that goes on from here under the same interference
        and faults, the n-th access being its next. Only the generator takes a step
        without an access. */
    ghost function Follow(pc: Pc, n: nat, r: Row): End
      decreases JobGuarantees.Fuel(pc)
    {
      if pc in {Quarantine, RawCheck, Repair, Requeue} then End(r, n, false, true)
      else
        var e := StepOf(pc, if pc == Generating then r else others(n)(r), if pc == Generating then ends else world(n));
        var m := if pc == Generating then n else n + 1;
        if e.next.None? then End(e.row, m, e.enters, false)
        else
          JobGuarantees.StepDescends(pc, if pc == Generating then r else others(n)(r), if pc == Generating then ends else world(n));
          var rest := Follow(e.next.value, m, e.row);
          rest.(entered := e.enters || rest.entered)
    }

    /** The row after a conditional update at the n-th access. */
    ghost function Written(n: nat, r: Row, expected: set<Status>, target: Status): Row {
      if world(n).Commits() then CompareAndSet(others(n)(r), expected, target) else others(n)(r)
    }

    /** What remains is what the machine would do from `pc` on. */
    ghost predicate On(pc: Pc, end: End)
      reads this
    {
      end == Follow(pc, clock, row)
    }

    /** The same, with the generator entered or not on the way here. */
    ghost predicate OnWith(entered: bool, pc: Pc, end: End)
      reads this
    {
      end.row == Follow(pc, clock, row).row && end.accesses == Follow(pc, clock, row).accesses
      && end.entered == (entered || Follow(pc, clock, row).entered) && end.unclaimed == Follow(pc, clock, row).unclaimed
    }

    /** It is through. */
    ghost predicate Through(entered: bool, end: End)
      reads this
    {
      end == End(row, clock, entered, false)
    }

    constructor (row: Row, others: nat -> Row -> Row, world: nat -> Choice, ends: Choice, cancelAt: nat)
      ensures this.row == row && this.others == others && this.world == world && this.ends == ends && this.cancelAt == cancelAt && clock == 0 && mine == []
    {
      this.row, this.others, this.world, this.ends, this.cancelAt, clock, mine := row, others, world, ends, cancelAt, 0, [];
    }

    method Read() returns (raised: bool, seen: Row)
      requires Rely()
      modifies this
      ensures clock == old(clock) + 1 && raised == world(old(clock)).Raises()
      ensures Tolerated(old(row), row) && seen == row == others(old(clock))(old(row)) && mine == old(mine)
    {
      row := others(clock)(row);
      raised, seen := world(clock).Raises(), row;
      clock := clock + 1;
    }

    /** A conditional update followed by a reread: a fault may come before or after the
        commit. `met` is the row the statement found. */
    method Update(expected: set<Status>, target: Status) returns (raised: bool, hit: bool, ghost met: Row)
      requires Rely()
      modifies this
      ensures clock == old(clock) + 1 && raised == world(old(clock)).Raises()
      ensures met == others(old(clock))(old(row)) && Tolerated(old(row), met) && hit == Matches(met, expected, target)
      ensures row == Written(old(clock), old(row), expected, target)
      ensures row == if world(old(clock)).Commits() then CompareAndSet(met, expected, target) else met
      ensures mine == if world(old(clock)).Commits() && hit then old(mine) + [target] else old(mine)
    {
      row := others(clock)(row);
      met := row;
      raised, hit := world(clock).Raises(), Matches(row, expected, target);
      if world(clock).Commits() {
        row := CompareAndSet(row, expected, target);
        mine := if hit then mine + [target] else mine;
      }
      clock := clock + 1;
    }

    /** The claim itself reports whether it won without any further read. */
    method Claim() returns (raised: bool, won: bool)
      requires Rely()
      modifies this
      ensures clock == old(clock) + 1 && raised == world(old(clock)).Raises()
      ensures won == (!raised && Is(others(old(clock))(old(row)), Queued))
      ensures row == if won then Some(Preparing) else others(old(clock))(old(row))
      ensures mine == if won then old(mine) + [Preparing] else old(mine)
      ensures On(if raised then Requeue else if won then Claimed else Recheck, old(Follow(Claiming, clock, row)))
    {
      hide Follow;
      AfterClaiming(clock, row);
      row := others(clock)(row);
      raised := world(clock).Raises();
      won := !raised && Matches(row, {Queued}, Preparing);
      if won { row, mine := Some(Preparing), mine + [Preparing]; }
      clock := clock + 1;
    }

    method IsCancelled() returns (raised: bool, yes: bool)
      requires Rely()
      modifies this
      ensures clock == old(clock) + 1 && raised == world(old(clock)).Raises()
      ensures row == others(old(clock))(old(row)) && Tolerated(old(row), row) && yes == (row in {Some(CancelRequested), Some(Cancelled)}) && mine == old(mine)
    {
      var seen;
      raised, seen := Read();
      yes := ReadsAsStopping(seen);
    }

    method FinalizeCancellation() returns (raised: bool, hit: bool)
      requires Rely() && row.Some? && !row.value.Queued?
      modifies this
      ensures clock == old(clock) + 1 && raised == world(old(clock)).Raises()
      ensures row == Written(old(clock), old(row), {CancelRequested}, Cancelled)
      ensures row.Some? && !row.value.Queued? && old(mine) <= mine
      ensures forall S :: Queued !in S && Within(old(row), S) ==> Within(row, S)
      ensures !raised ==> !row.value.CancelRequested?
      ensures !raised && Within(old(row), {}) ==> row.value.Terminal()
      ensures !raised && old(row) == Some(CancelRequested) ==> row.value in {Cancelled, Failed}
      ensures mine == old(mine) || mine == old(mine) + [Cancelled]
      ensures if raised then On(Resolving, old(Follow(Finalizing, clock, row))) else Through(false, old(Follow(Finalizing, clock, row)))
      ensures hit == Matches(others(old(clock))(old(row)), {CancelRequested}, Cancelled) && (hit && !raised ==> row == Some(Cancelled))
    {
      hide Follow, Written;
      ghost var was := row;
      ghost var met;
      AtFinalizing(clock, row);
      raised, hit, met := Update({CancelRequested}, Cancelled);
      forall S | Queued !in S && Within(was, S) ensures Within(row, S) {
        WithinIsStable(was, met, S);
      }
      if Within(was, {}) { WithinIsStable(was, met, {}); }
    }

    method MarkFailed() returns (raised: bool)
      requires Rely() && Within(row, OWNED)
      modifies this
      ensures clock == old(clock) + 1 && raised == world(old(clock)).Raises()
      ensures row == Written(old(clock), old(row), ACTIVE, Failed)
      ensures Within(row, OWNED) && (!raised ==> row.value.Terminal()) && old(mine) <= mine
      ensures if raised then On(Resolving, old(Follow(MarkingFailed, clock, row))) else Through(false, old(Follow(MarkingFailed, clock, row)))
      ensures Through(false, old(Follow(GivingUp, clock, row)))
    {
      hide Follow, Written;
      ghost var was := row;
      AtFailing(clock, row);
      var hit; ghost var met;
      raised, hit, met := Update(ACTIVE, Failed);
      WithinIsStable(was, met, OWNED);
    }

    /** Everything between the claim and the end of the try block. It raises only if an
        access did; a normal return leaves the row terminal, unless the generator
        stopped for no reason. */
    method RunClaimed() returns (c: Call)
      requires Rely() && row == Some(Preparing)
      modifies this
      ensures clock > old(clock) && c.claimed && !c.gaveUp && Within(row, OWNED) && old(mine) <= mine
      ensures c.entered ==> old(mine) + [Running] <= mine
      ensures c.raised ==> FaultIn(old(clock), clock)
      ensures !c.raised ==> (row.value.Terminal() <==> !c.stranded)
      ensures c.stranded ==> row == Some(Running) && c.entered && !c.raised && ends.GeneratorStops?
      ensures !FaultIn(old(clock), clock) && ends in {Fine, GeneratorStops} ==> Failed !in mine[|old(mine)|..]
      ensures if c.raised then OnWith(c.entered, Resolving, old(Follow(Claimed, clock, row))) else Through(c.entered, old(Follow(Claimed, clock, row)))
      ensures Quiet() ==> c.entered && !c.raised && row == Some(Deserved(ends))
      ensures OneCancel() ==> !c.raised && row == Some(if old(clock) <= cancelAt <= old(clock) + LastLook(ends) - 2 then Cancelled else Deserved(ends))
    {
      hide FaultIn, Follow, Written, CancelOnly, Quiet, OneCancel, Deserved, Matches, CompareAndSet;
      c := Call(true, false, false, false, false);
      ghost var t0 := clock;
      CalmClaimed(clock);
      AfterClaimed(clock, row);
      var raised, seen := Read();
      if raised || seen.None? {
        FaultHere(t0, t0, clock);
        NoFault(t0, clock);
        return c.(raised := true);
      }
      var yes, settled;
      AfterLooking(Checking, Starting, clock, row);
      raised, yes := IsCancelled();
      if raised {
        FaultHere(t0, clock - 1, clock);
      } else if yes {
        raised, settled := FinalizeCancellation();
        if raised { FaultHere(t0, clock - 1, clock); }
      }
      if raised || yes {
        NoFault(t0, clock);
        return c.(raised := raised);
      }
      var done: bool;
      ghost var t1 := clock;
      c, done := RunGenerator();
      Widen(t0, t1, clock);
      if !(done || c.raised) {
        ghost var t2 := clock;
        c := WrapUp();
        Widen(t0, t2, clock);
        FaultStays(t0, t2, clock);
      }
      NoFault(t0, clock);
    }

    lemma Widen(from: nat, later: nat, to: nat)
      requires from <= later
      ensures FaultIn(later, to) ==> FaultIn(from, to)
    {
    }

    /** From `preparing` to the generator's end. `done`: the call is over. */
    method RunGenerator() returns (c: Call, done: bool)
      requires Rely() && Within(row, {Preparing})
      modifies this
      ensures clock > old(clock) && c.claimed && !c.gaveUp && Within(row, OWNED) && old(mine) <= mine
      ensures c.entered ==> old(mine) + [Running] <= mine
      ensures c.raised ==> done && FaultIn(old(clock), clock)
      ensures !done ==> Within(row, {Running}) && c.entered && !c.raised && !c.stranded && ends.Fine?
      ensures done && !c.raised ==> (row.value.Terminal() <==> !c.stranded)
      ensures c.stranded ==> row == Some(Running) && c.entered && !c.raised && done && ends.GeneratorStops?
      ensures !FaultIn(old(clock), clock) && ends in {Fine, GeneratorStops} ==> Failed !in mine[|old(mine)|..]
      ensures c.entered == (!world(old(clock)).Raises() && Matches(others(old(clock))(old(row)), {Preparing}, Running))
      ensures done == !(c.entered && ends.Fine?)
      ensures !done ==> clock == old(clock) + 1 && row == Some(Running) && OnWith(true, Wrapping, old(Follow(Starting, clock, row)))
      ensures done && c.raised ==> OnWith(c.entered, Resolving, old(Follow(Starting, clock, row)))
      ensures done && !c.raised ==> Through(c.entered, old(Follow(Starting, clock, row)))
      ensures Quiet() && old(row) == Some(Preparing) ==> c.entered && !c.raised && row == Some(if done then Deserved(ends) else Running)
      ensures OneCancel() && old(row) == Some(Preparing) && done ==>
        !c.raised && row == Some(if old(clock) <= cancelAt <= old(clock) + 1 then Cancelled else Deserved(ends))
    {
      hide FaultIn, Follow, Written, CancelOnly, Quiet, OneCancel, Deserved;
      c := Call(true, false, false, false, false);
      ghost var was, t0 := row, clock;
      CalmStart(clock, row);
      AfterStarting(clock, row);
      var raised, hit, settled; ghost var met;
      raised, hit, met := Update({Preparing}, Running);
      WithinIsStable(was, met, {Preparing});
      if !raised && hit {
        c := c.(entered := true);
        if ends.Fine? { return c, false; }
        if ends.GeneratorStops? {
          AtFinalizing(clock, row);
          raised, settled := FinalizeCancellation();
          assert Within(row, {Running});
          if raised { FaultHere(t0, clock - 1, clock); }
          NoFault(t0, clock);
          return c.(raised := raised, stranded := !raised && Is(row, Running)), true;
        }
      } else if !raised {
        AtBailOut(clock, row);
        raised, settled := FinalizeCancellation();
        if !raised { return c, true; }
      }
      if raised { FaultHere(t0, clock - 1, clock); }
      ghost var t1 := clock;
      raised := HandleCrash();
      Widen(t0, t1, clock);
      FaultStays(t0, t1, clock);
      NoFault(t0, clock);
      return c.(raised := raised), true;
    }

    /** The handler of everything the generator's part raised: finalize a cancel, or
        record the failure. */
    method HandleCrash() returns (raised: bool)
      requires Rely() && Within(row, {Preparing, Running})
      modifies this
      ensures clock > old(clock) && Within(row, OWNED) && old(mine) <= mine
      ensures raised ==> FaultIn(old(clock), clock)
      ensures !raised ==> row.value.Terminal()
      ensures if raised then On(Resolving, old(Follow(Crashed, clock, row))) else Through(false, old(Follow(Crashed, clock, row)))
      ensures Quiet() && old(row).value in OWNED ==> !raised && row == Some(Failed)
      ensures OneCancel() && old(row) == Some(Running) ==> !raised && row == Some(if old(clock) == cancelAt then Cancelled else Failed)
    {
      hide FaultIn, Follow, Written, CancelOnly, Quiet, OneCancel;
      ghost var t0 := clock;
      CalmCrash(clock, row);
      var yes, settled;
      AfterLooking(Crashed, MarkingFailed, clock, row);
      raised, yes := IsCancelled();
      if !raised {
        if yes { raised, settled := FinalizeCancellation(); } else { raised := MarkFailed(); }
      }
      if raised { FaultHere(t0, clock - 1, clock); }
      NoFault(t0, clock);
    }

    lemma FaultHere(from: nat, n: nat, to: nat)
      requires from <= n < to && world(n).Raises()
      ensures FaultIn(from, to)
    {
    }

    lemma NoFault(from: nat, to: nat)
      ensures Quiet() || OneCancel() ==> !FaultIn(from, to)
    {
    }

    /** From the generator's return to the committed success. */
    method WrapUp() returns (c: Call)
      requires Rely() && Within(row, {Running})
      modifies this
      ensures clock > old(clock) && c.claimed && c.entered && !c.gaveUp && !c.stranded && Within(row, OWNED) && old(mine) <= mine
      ensures c.raised ==> FaultIn(old(clock), clock)
      ensures !c.raised ==> row.value.Terminal()
      ensures !FaultIn(old(clock), clock) ==> Failed !in mine[|old(mine)|..]
      ensures if c.raised then On(Resolving, old(Follow(Wrapping, clock, row))) else Through(false, old(Follow(Wrapping, clock, row)))
      ensures Quiet() && old(row) == Some(Running) ==> !c.raised && row == Some(Succeeded)
      ensures OneCancel() && old(row) == Some(Running) ==> !c.raised && row == Some(if old(clock) <= cancelAt <= old(clock) + 2 then Cancelled else Succeeded)
    {
      hide FaultIn, Follow, Written, CancelOnly, Quiet, OneCancel;
      c := Call(true, true, false, false, false);
      ghost var t0 := clock;
      CalmWrapping(clock);
      var settled;
      AfterLooking(Wrapping, Posting, clock, row);
      var raised, yes := IsCancelled();
      if !raised && yes {
        raised, settled := FinalizeCancellation();
      } else if !raised {
        ghost var was := row;
        AfterPosting(clock, row);
        var hit; ghost var met;
        raised, hit, met := Update({Running}, Postprocessing);
        WithinIsStable(was, met, {Running});
        if !raised && !hit {
          raised, settled := FinalizeCancellation();
        } else if !raised {
          ghost var t1 := clock;
          raised := CommitSuccess();
          Widen(t0, t1, clock);
          NoFault(t0, clock);
          return c.(raised := raised);
        }
      }
      if raised { FaultHere(t0, clock - 1, clock); }
      NoFault(t0, clock);
      c := c.(raised := raised);
    }

    /** `mark_succeeded`; a cancel that won the race is finalized by the owner. */
    method CommitSuccess() returns (raised: bool)
      requires Rely() && Within(row, {Postprocessing})
      modifies this
      ensures clock > old(clock) && Within(row, OWNED) && old(mine) <= mine
      ensures raised ==> FaultIn(old(clock), clock)
      ensures !raised ==> row.value.Terminal()
      ensures !FaultIn(old(clock), clock) ==> Failed !in mine[|old(mine)|..]
      ensures if raised then On(Resolving, old(Follow(Succeeding, clock, row))) else Through(false, old(Follow(Succeeding, clock, row)))
      ensures Quiet() && old(row) == Some(Postprocessing) ==> !raised && row == Some(Succeeded)
      ensures Quiet() && old(row) == Some(CancelRequested) ==> !raised && row == Some(Cancelled)
      ensures OneCancel() && old(row) == Some(Postprocessing) ==> !raised && row == Some(if old(clock) == cancelAt then Cancelled else Succeeded)
    {
      hide FaultIn, Follow, Written, CancelOnly, Quiet, OneCancel;
      ghost var was, t0 := row, clock;
      CalmCommit(clock);
      AfterSucceeding(clock, row);
      var hit, settled, seen; ghost var met;
      raised, hit, met := Update({Postprocessing}, Succeeded);
      WithinIsStable(was, met, {Postprocessing});
      if !raised && !hit {
        AfterMissed(clock, row);
        raised, seen := Read();
        if !raised && Is(seen, CancelRequested) { raised, settled := FinalizeCancellation(); }
      }
      if raised { FaultHere(t0, clock - 1, clock); }
      NoFault(t0, clock);
    }

    /** `_resolve_claim_failure`: finalize a cancel if there is one, else fail. It gives
        up only if that last update raised. */
    method ResolveClaimFailure() returns (gaveUp: bool)
      requires Rely() && Within(row, OWNED)
      modifies this
      ensures clock > old(clock) && Within(row, OWNED) && old(mine) <= mine
      ensures gaveUp ==> world(clock - 1).Raises()
      ensures !gaveUp ==> row.value.Terminal()
      ensures Through(false, old(Follow(Resolving, clock, row)))
      ensures Quiet() ==> row == Some(if old(row).value.Terminal() then old(row).value else if old(row).value.CancelRequested? then Cancelled else Failed)
    {
      hide Follow, Written, CancelOnly, Quiet;
      CalmResolving(clock, row);
      var raised, hit, seen;
      AtResolving(clock, row);
      raised, hit := FinalizeCancellation();
      if !raised {
        if hit { return false; }
        AfterRereading(clock, row);
        raised, seen := Read();
        if !raised && seen.Some? && seen.value.Terminal() { return false; }
      }
      gaveUp := MarkFailed();
    }

    /** One delivery takes the very path of the machine's worker: whatever others do and
        whatever fails, the same row, the same accesses and the same entry into the
        generator. It writes nothing unless its first write is the claim, and enters
        the generator only after its second made the row `running`. A job it claimed is
        terminal on return, whatever others did to it and whatever accesses failed,
        except for a generator that stopped unasked or a failure that could not be
        recorded. Without faults and without such a stop it is always terminal;
        undisturbed, it is what the generator deserves. A worker no access of which
        failed and whose generator did not break never writes `failed`; and a cancel,
        whenever it comes up to the last look, makes the job `cancelled`. */
    method ProcessJob() returns (c: Call)
      requires Rely()
      modifies this
      ensures old(Follow(Fetched, clock, row)) == End(row, clock, c.entered, c.raised)
      ensures if c.claimed then old(mine) + [Preparing] <= mine else mine == old(mine)
      ensures c.entered ==> c.claimed && old(mine) + [Preparing, Running] <= mine
      ensures c.raised ==> !c.claimed && (FaultIn(old(clock), clock) || (row.Some? && row.value.Corrupt?))
      ensures c.gaveUp ==> c.claimed && clock > old(clock) && world(clock - 1).Raises() && FaultIn(old(clock), clock - 1)
      ensures c.stranded ==> c.entered && ends.GeneratorStops? && row == Some(Running)
      ensures c.claimed && !c.gaveUp ==> row.Some? && (row.value.Terminal() <==> !c.stranded)
      ensures c.claimed && !FaultIn(old(clock), clock) && !ends.GeneratorStops? ==> row.Some? && row.value.Terminal()
      ensures Quiet() && old(row) == Some(Queued) ==> c.claimed && c.entered && row == Some(Deserved(ends))
      ensures Quiet() && old(row) != Some(Queued) ==> !c.claimed && row == old(row)
      ensures !FaultIn(old(clock), clock) && ends in {Fine, GeneratorStops} ==> Failed !in mine[|old(mine)|..]
      ensures OneCancel() && old(row) == Some(Queued) && cancelAt >= old(clock) ==>
        row == Some(if cancelAt <= old(clock) + LastLook(ends) then Cancelled else Deserved(ends))
    {
      hide FaultIn, Follow, Written, CancelOnly, Quiet, OneCancel, Deserved;
      c := Call(false, false, false, false, false);
      ghost var t0 := clock;
      CalmFetched(clock, row);
      AfterFetched(clock, row);
      var raised, seen := Read();
      if raised { FaultHere(t0, t0, clock); }
      if raised || (seen.Some? && seen.value.Corrupt?) { return c.(raised := true); }
      if !Is(seen, Queued) { return; }
      var won;
      raised, won := Claim();
      Nowhere(Requeue, clock, row);
      if !raised && !won {
        AfterRecheck(clock, row);
        raised, seen := Read();
      }
      if raised || !won {
        if raised { FaultHere(t0, clock - 1, clock); }
        return c.(raised := raised);
      }
      ghost var t1 := clock;
      c := RunClaimed();
      Widen(t0, t1, clock);
      if c.raised {
        ghost var t2 := clock;
        var gaveUp := ResolveClaimFailure();
        FaultStays(t0, t2, clock - 1);
        FaultStays(t0, t2, clock);
        c := c.(raised := false, gaveUp := gaveUp);
      }
    }

    lemma FaultStays(from: nat, to: nat, later: nat)
      requires to <= later
      ensures FaultIn(from, to) ==> FaultIn(from, later)
    {
    }

    // -------------------------------------- what the machine does at each access

    lemma Onwards(pc: Pc, n: nat, r: Row)
      requires pc !in {Quarantine, RawCheck, Repair, Requeue}
      ensures var e := StepOf(pc, if pc == Generating then r else others(n)(r), if pc == Generating then ends else world(n));
        var m := if pc == Generating then n else n + 1;
        Follow(pc, n, r) ==
          if e.next.None? then End(e.row, m, e.enters, false)
          else Follow(e.next.value, m, e.row).(entered := e.enters || Follow(e.next.value, m, e.row).entered)
    {
      hide StepOf;
    }

    lemma Nowhere(pc: Pc, n: nat, r: Row)
      requires pc in {Quarantine, RawCheck, Repair, Requeue}
      ensures Follow(pc, n, r) == End(r, n, false, true)
    {
    }

    lemma AfterFetched(n: nat, r: Row)
      ensures var met := others(n)(r);
        Follow(Fetched, n, r) ==
          if !world(n).Raises() && Is(met, Queued) then Follow(Claiming, n + 1, met)
          else End(met, n + 1, false, world(n).Raises() || (met.Some? && met.value.Corrupt?))
    {
      hide Follow;
      Onwards(Fetched, n, r);
      Nowhere(Quarantine, n + 1, others(n)(r));
      Nowhere(Requeue, n + 1, others(n)(r));
    }

    lemma AfterClaiming(n: nat, r: Row)
      ensures var met := others(n)(r);
        Follow(Claiming, n, r) ==
          if world(n).Raises() then Follow(Requeue, n + 1, met)
          else if Is(met, Queued) then Follow(Claimed, n + 1, Some(Preparing)) else Follow(Recheck, n + 1, met)
    {
      hide Follow;
      Onwards(Claiming, n, r);
    }

    lemma AfterRecheck(n: nat, r: Row)
      ensures Follow(Recheck, n, r) == End(others(n)(r), n + 1, false, world(n).Raises())
    {
      hide Follow;
      Onwards(Recheck, n, r);
      Nowhere(Quarantine, n + 1, others(n)(r));
      Nowhere(Requeue, n + 1, others(n)(r));
    }

    lemma AfterClaimed(n: nat, r: Row)
      ensures var met := others(n)(r);
        Follow(Claimed, n, r) == Follow(if world(n).Raises() || met.None? then Resolving else Checking, n + 1, met)
    {
      hide Follow;
      Onwards(Claimed, n, r);
    }

    /** The three looks for a cancel, and where they lead if there is none. */
    lemma AfterLooking(pc: Pc, go: Pc, n: nat, r: Row)
      requires (pc, go) in {(Checking, Starting), (Crashed, MarkingFailed), (Wrapping, Posting)}
      ensures var met := others(n)(r);
        Follow(pc, n, r) == Follow(if world(n).Raises() then Resolving else if ReadsAsStopping(met) then Finalizing else go, n + 1, met)
    {
      hide Follow;
      Onwards(pc, n, r);
    }

    lemma AfterStarting(n: nat, r: Row)
      ensures var row' := Written(n, r, {Preparing}, Running);
        Follow(Starting, n, r) ==
          if world(n).Raises() then Follow(Crashed, n + 1, row')
          else if !Matches(others(n)(r), {Preparing}, Running) then Follow(BailOut, n + 1, row')
          else Follow(if ends.Fine? then Wrapping else if ends.GeneratorStops? then Stopped else Crashed, n + 1, row').(entered := true)
    {
      hide Follow, CompareAndSet, Matches;
      Onwards(Starting, n, r);
      Onwards(Generating, n + 1, Written(n, r, {Preparing}, Running));
    }

    lemma AfterPosting(n: nat, r: Row)
      ensures Follow(Posting, n, r) ==
        Follow(if world(n).Raises() then Resolving else if Matches(others(n)(r), {Running}, Postprocessing) then Succeeding else Finalizing,
               n + 1, Written(n, r, {Running}, Postprocessing))
    {
      hide Follow, CompareAndSet, Matches;
      Onwards(Posting, n, r);
    }

    lemma AfterSucceeding(n: nat, r: Row)
      ensures var row' := Written(n, r, {Postprocessing}, Succeeded);
        Follow(Succeeding, n, r) ==
          if world(n).Raises() then Follow(Resolving, n + 1, row')
          else if Matches(others(n)(r), {Postprocessing}, Succeeded) then End(row', n + 1, false, false) else Follow(Missed, n + 1, row')
    {
      hide Follow, CompareAndSet, Matches;
      Onwards(Succeeding, n, r);
    }

    lemma AfterMissed(n: nat, r: Row)
      ensures var met := others(n)(r);
        Follow(Missed, n, r) ==
          if world(n).Raises() then Follow(Resolving, n + 1, met)
          else if Is(met, CancelRequested) then Follow(Finalizing, n + 1, met) else End(met, n + 1, false, false)
    {
      hide Follow;
      Onwards(Missed, n, r);
    }

    lemma AtFinalizing(n: nat, r: Row)
      ensures var row' := Written(n, r, {CancelRequested}, Cancelled);
        Follow(Finalizing, n, r) == if world(n).Raises() then Follow(Resolving, n + 1, row') else End(row', n + 1, false, false)
      ensures Follow(Stopped, n, r) == Follow(Finalizing, n, r)
    {
      hide Follow, CompareAndSet, Matches;
      Onwards(Finalizing, n, r);
      Onwards(Stopped, n, r);
    }

    lemma AtBailOut(n: nat, r: Row)
      ensures var row' := Written(n, r, {CancelRequested}, Cancelled);
        Follow(BailOut, n, r) == if world(n).Raises() then Follow(Crashed, n + 1, row') else End(row', n + 1, false, false)
    {
      hide Follow, CompareAndSet, Matches;
      Onwards(BailOut, n, r);
    }

    lemma AtResolving(n: nat, r: Row)
      ensures var row' := Written(n, r, {CancelRequested}, Cancelled);
        Follow(Resolving, n, r) ==
          if world(n).Raises() then Follow(GivingUp, n + 1, row')
          else if Matches(others(n)(r), {CancelRequested}, Cancelled) then End(row', n + 1, false, false)
          else Follow(Rereading, n + 1, row')
    {
      hide Follow, CompareAndSet, Matches;
      Onwards(Resolving, n, r);
    }

    lemma AfterRereading(n: nat, r: Row)
      ensures var met := others(n)(r);
        Follow(Rereading, n, r) ==
          if !world(n).Raises() && met.Some? && met.value.Terminal() then End(met, n + 1, false, false) else Follow(GivingUp, n + 1, met)
    {
      hide Follow;
      Onwards(Rereading, n, r);
    }

    lemma AtFailing(n: nat, r: Row)
      ensures var row' := Written(n, r, ACTIVE, Failed);
        && Follow(GivingUp, n, r) == End(row', n + 1, false, false)
        && Follow(MarkingFailed, n, r) == (if world(n).Raises() then Follow(Resolving, n + 1, row') else End(row', n + 1, false, false))
    {
      hide Follow, CompareAndSet, Matches;
      Onwards(GivingUp, n, r);
      Onwards(MarkingFailed, n, r);
    }

    // ---------------------- what comes of it if a cancel is all that happens

    lemma Calm(at: int, n: nat, r: Row)
      requires CancelOnly(at)
      ensures world(n) == Fine && others(n)(r) == CancelledAt(at, n, r)
      ensures forall E, t :: Written(n, r, E, t) == CompareAndSet(CancelledAt(at, n, r), E, t)
    {
      hide CompareAndSet;
    }

    lemma FinalizeOut(at: int, n: nat, r: Row)
      requires CancelOnly(at)
      ensures var row' := CompareAndSet(CancelledAt(at, n, r), {CancelRequested}, Cancelled);
        && Follow(Finalizing, n, r) == End(row', n + 1, false, false)
        && Follow(Stopped, n, r) == End(row', n + 1, false, false)
        && Follow(BailOut, n, r) == End(row', n + 1, false, false)
    {
      hide Follow, Written, CompareAndSet, Matches;
      Calm(at, n, r);
      AtFinalizing(n, r);
      AtBailOut(n, r);
    }

    lemma CrashOut(at: int, n: nat, r: Row)
      requires CancelOnly(at) && r.Some? && r.value in OWNED
      ensures Follow(Crashed, n, r).row == Some(if n == at then Cancelled else Failed)
    {
      hide Follow, Written;
      var met := CancelledAt(at, n, r);
      Calm(at, n, r);
      AfterLooking(Crashed, MarkingFailed, n, r);
      Calm(at, n + 1, met);
      FinalizeOut(at, n + 1, met);
      AtFailing(n + 1, met);
    }

    lemma CommitOut(at: int, n: nat)
      requires CancelOnly(at)
      ensures Follow(Succeeding, n, Some(Postprocessing)).row == Some(if n == at then Cancelled else Succeeded)
      ensures Follow(Succeeding, n, Some(CancelRequested)).row == Some(Cancelled)
    {
      hide Follow, Written;
      Calm(at, n, Some(Postprocessing));
      Calm(at, n, Some(CancelRequested));
      Calm(at, n + 1, Some(CancelRequested));
      AfterSucceeding(n, Some(Postprocessing));
      AfterSucceeding(n, Some(CancelRequested));
      AfterMissed(n + 1, Some(CancelRequested));
      FinalizeOut(at, n + 2, Some(CancelRequested));
    }

    lemma WrapOut(at: int, n: nat)
      requires CancelOnly(at)
      ensures Follow(Wrapping, n, Some(Running)).row == Some(if n <= at <= n + 2 then Cancelled else Succeeded)
    {
      hide Follow, Written;
      var met := CancelledAt(at, n, Some(Running));
      Calm(at, n, Some(Running));
      AfterLooking(Wrapping, Posting, n, Some(Running));
      FinalizeOut(at, n + 1, met);
      Calm(at, n + 1, met);
      AfterPosting(n + 1, met);
      FinalizeOut(at, n + 2, Some(CancelRequested));
      CommitOut(at, n + 2);
    }

    lemma StartOut(at: int, n: nat)
      requires CancelOnly(at)
      ensures var end := Follow(Starting, n, Some(Preparing));
        && end.row == Some(if n <= at <= n + LastLook(ends) - 4 then Cancelled else Deserved(ends))
        && end.entered == (n != at)
    {
      hide Follow, Written;
      Calm(at, n, Some(Preparing));
      AfterStarting(n, Some(Preparing));
      FinalizeOut(at, n + 1, Some(CancelRequested));
      FinalizeOut(at, n + 1, Some(Running));
      CrashOut(at, n + 1, Some(Running));
      WrapOut(at, n + 1);
    }

    lemma ClaimedOut(at: int, n: nat)
      requires CancelOnly(at)
      ensures var end := Follow(Claimed, n, Some(Preparing));
        && end.row == Some(if n <= at <= n + LastLook(ends) - 2 then Cancelled else Deserved(ends))
        && end.entered == !(n <= at <= n + 2)
    {
      hide Follow, Written, Deserved;
      var met := CancelledAt(at, n, Some(Preparing));
      var met' := CancelledAt(at, n + 1, met);
      Calm(at, n, Some(Preparing));
      AfterClaimed(n, Some(Preparing));
      Calm(at, n + 1, met);
      AfterLooking(Checking, Starting, n + 1, met);
      FinalizeOut(at, n + 2, met');
      StartOut(at, n + 2);
    }

    lemma FetchedOut(at: int, n: nat)
      requires CancelOnly(at)
      ensures var end := Follow(Fetched, n, Some(Queued));
        && end.row == Some(if n <= at <= n + LastLook(ends) then Cancelled else Deserved(ends))
        && end.entered == !(n <= at <= n + 4)
    {
      hide Follow, Written, Deserved;
      var met := CancelledAt(at, n, Some(Queued));
      var met' := CancelledAt(at, n + 1, met);
      Calm(at, n, Some(Queued));
      AfterFetched(n, Some(Queued));
      Calm(at, n + 1, met);
      AfterClaiming(n + 1, met);
      Calm(at, n + 2, met');
      AfterRecheck(n + 2, met');
      ClaimedOut(at, n + 2);
    }

    // The same for the two cases the methods speak of.

    lemma CalmCommit(n: nat)
      ensures Quiet() || OneCancel() ==> Follow(Succeeding, n, Some(CancelRequested)).row == Some(Cancelled)
      ensures Quiet() ==> Follow(Succeeding, n, Some(Postprocessing)).row == Some(Succeeded)
      ensures OneCancel() ==> Follow(Succeeding, n, Some(Postprocessing)).row == Some(if n == cancelAt then Cancelled else Succeeded)
    {
      hide Follow, CancelOnly;
      if Quiet() { CommitOut(-1, n); }
      if OneCancel() { CommitOut(cancelAt, n); }
    }

    lemma CalmWrapping(n: nat)
      ensures Quiet() ==> Follow(Wrapping, n, Some(Running)).row == Some(Succeeded)
      ensures OneCancel() ==> Follow(Wrapping, n, Some(Running)).row == Some(if n <= cancelAt <= n + 2 then Cancelled else Succeeded)
    {
      hide Follow, CancelOnly;
      if Quiet() { WrapOut(-1, n); }
      if OneCancel() { WrapOut(cancelAt, n); }
    }

    lemma CalmCrash(n: nat, r: Row)
      ensures Quiet() && r.Some? && r.value in OWNED ==> Follow(Crashed, n, r).row == Some(Failed)
      ensures OneCancel() && r.Some? && r.value in OWNED ==> Follow(Crashed, n, r).row == Some(if n == cancelAt then Cancelled else Failed)
    {
      hide Follow, CancelOnly;
      if Quiet() && r.Some? && r.value in OWNED { CrashOut(-1, n, r); }
      if OneCancel() && r.Some? && r.value in OWNED { CrashOut(cancelAt, n, r); }
    }

    lemma CalmStart(n: nat, r: Row)
      ensures Quiet() && r == Some(Preparing) ==> others(n)(r) == r && Follow(Starting, n, r).row == Some(Deserved(ends))
      ensures OneCancel() && r == Some(Preparing) ==> others(n)(r) == Some(if n == cancelAt then CancelRequested else Preparing)
      ensures OneCancel() && r == Some(Preparing) ==>
        Follow(Starting, n, r).row == Some(if n <= cancelAt <= n + LastLook(ends) - 4 then Cancelled else Deserved(ends))
    {
      hide Follow, CancelOnly;
      if Quiet() { Calm(-1, n, r); }
      if Quiet() && r == Some(Preparing) { StartOut(-1, n); }
      if OneCancel() && r == Some(Preparing) {
        StartOut(cancelAt, n);
        Calm(cancelAt, n, r);
      }
    }

    lemma CalmClaimed(n: nat)
      ensures Quiet() ==> Follow(Claimed, n, Some(Preparing)).row == Some(Deserved(ends)) && Follow(Claimed, n, Some(Preparing)).entered
      ensures OneCancel() ==>
        Follow(Claimed, n, Some(Preparing)).row == Some(if n <= cancelAt <= n + LastLook(ends) - 2 then Cancelled else Deserved(ends))
    {
      hide Follow, CancelOnly;
      if Quiet() { ClaimedOut(-1, n); }
      if OneCancel() { ClaimedOut(cancelAt, n); }
    }

    lemma CalmFetched(n: nat, r: Row)
      ensures Quiet() ==> others(n)(r) == r
      ensures Quiet() && r == Some(Queued) ==> Follow(Fetched, n, r).row == Some(Deserved(ends)) && Follow(Fetched, n, r).entered
      ensures OneCancel() && r == Some(Queued) ==>
        Follow(Fetched, n, r).row == Some(if n <= cancelAt <= n + LastLook(ends) then Cancelled else Deserved(ends))
    {
      hide Follow, CancelOnly;
      if Quiet() { Calm(-1, n, r); }
      if Quiet() && r == Some(Queued) { FetchedOut(-1, n); }
      if OneCancel() && r == Some(Queued) { FetchedOut(cancelAt, n); }
    }

    lemma CalmResolving(n: nat, r: Row)
      ensures Quiet() && Within(r, OWNED) ==>
        Follow(Resolving, n, r).row ==
          Some(if r.value.Terminal() then r.value else if r.value.CancelRequested? then Cancelled else Failed)
    {
      hide Follow;
      if Quiet() && Within(r, OWNED) { ResolveOut(n, r); }
    }

    lemma ResolveOut(n: nat, r: Row)
      requires Quiet() && Within(r, OWNED)
      ensures Follow(Resolving, n, r).row ==
        Some(if r.value.Terminal() then r.value else if r.value.CancelRequested? then Cancelled else Failed)
    {
      hide Follow, Written;
      Calm(-1, n, r);
      Calm(-1, n + 1, r);
      Calm(-1, n + 2, r);
      AtResolving(n, r);
      AfterRereading(n + 1, r);
      AtFailing(n + 2, r);
    }
  }
}
