/** What a delivery makes of its job when nobody interferes. */
module JobOutcomes {
  import opened Wrappers
  import opened JobStatuses
  import opened JobRuns
  import opened JobGuarantees

  /** The row a worker leaves if it runs on by itself; `ch` says how each access goes. */
  function Alone(pc: Pc, row: Row, ch: Pc -> Choice): Row
    decreases Fuel(pc)
  {
    StepDescends(pc, row, ch(pc));
    var e := StepOf(pc, row, ch(pc));
    if e.next.None? then e.row else Alone(e.next.value, e.row, ch)
  }

  /** No access fails; the generator may do what it likes. */
  ghost predicate FaultFree(ch: Pc -> Choice) {
    && (forall pc :: pc != Generating ==> ch(pc) == Fine)
    && ch(Generating) in {Fine, GeneratorRaises, GeneratorStops}
  }

  lemma Onwards(pc: Pc, row: Row, ch: Pc -> Choice)
    ensures var e := StepOf(pc, row, ch(pc));
      Alone(pc, row, ch) == if e.next.None? then e.row else Alone(e.next.value, e.row, ch)
  {
    hide StepOf;
  }

  lemma Finalizes(pc: Pc, row: Row, ch: Pc -> Choice)
    requires FaultFree(ch) && (pc.Finalizing? || pc.Stopped? || pc.BailOut? || pc.Resolving?) && Is(row, CancelRequested)
    ensures Alone(pc, row, ch) == Some(Cancelled)
  {
    Onwards(pc, row, ch);
  }

  lemma FailsAtLast(pc: Pc, row: Row, ch: Pc -> Choice)
    requires FaultFree(ch) && (pc.MarkingFailed? || pc.GivingUp?) && row.Some? && row.value.Active()
    ensures Alone(pc, row, ch) == Some(Failed)
  {
    Onwards(pc, row, ch);
  }

  /** A requested cancel wins over success and over failure from every position of an
      owner, except where it comes after the last look at the row. */
  lemma CancelWins(pc: Pc, ch: Pc -> Choice)
    requires FaultFree(ch) && pc.Owner()
    ensures Alone(pc, Some(CancelRequested), ch) ==
      Some(if pc.MarkingFailed? || pc.Rereading? || pc.GivingUp? then Failed else Cancelled)
    decreases Fuel(pc)
  {
    hide StepOf, Alone, Fuel;
    var row := Some(CancelRequested);
    if pc.Finalizing? || pc.Stopped? || pc.BailOut? || pc.Resolving? {
      Finalizes(pc, row, ch);
    } else if pc.MarkingFailed? || pc.GivingUp? {
      FailsAtLast(pc, row, ch);
    } else {
      CancelOnTheWay(pc, ch(pc));
      StepDescends(pc, row, ch(pc));
      Onwards(pc, row, ch);
      CancelWins(StepOf(pc, row, ch(pc)).next.value, ch);
    }
  }

  /** One step nearer to the place where the cancel is honoured. */
  lemma CancelOnTheWay(pc: Pc, ch: Choice)
    requires pc.Owner() && !pc.Finalizing? && !pc.Stopped? && !pc.BailOut? && !pc.Resolving? && !pc.MarkingFailed? && !pc.GivingUp?
    requires ch.Fine? || (pc.Generating? && (ch.GeneratorRaises? || ch.GeneratorStops?))
    ensures var e := StepOf(pc, Some(CancelRequested), ch);
      && e.row == Some(CancelRequested) && e.next.Some? && e.next.value.Owner()
      && (pc.Rereading? ==> e.next == Some(GivingUp))
      && (!pc.Rereading? ==> !e.next.value.MarkingFailed? && !e.next.value.Rereading? && !e.next.value.GivingUp?)
  {
  }

  /** An undisturbed delivery of a queued job: the generator's result is the job's. */
  lemma UndisturbedOutcome(ch: Pc -> Choice)
    requires FaultFree(ch)
    ensures Alone(Fetched, Some(Queued), ch) ==
      Some(if ch(Generating).Fine? then Succeeded else if ch(Generating).GeneratorRaises? then Failed else Running)
  {
    hide StepOf, Alone;
    UndisturbedClaim();
    UndisturbedStart();
    Onwards(Fetched, Some(Queued), ch);
    Onwards(Claiming, Some(Queued), ch);
    Onwards(Claimed, Some(Preparing), ch);
    Onwards(Checking, Some(Preparing), ch);
    Onwards(Starting, Some(Preparing), ch);
    Onwards(Generating, Some(Running), ch);
    if ch(Generating).Fine? {
      UndisturbedEnd();
      Onwards(Wrapping, Some(Running), ch);
      Onwards(Posting, Some(Running), ch);
      Onwards(Succeeding, Some(Postprocessing), ch);
    } else if ch(Generating).GeneratorRaises? {
      UndisturbedFailure();
      Onwards(Crashed, Some(Running), ch);
      FailsAtLast(MarkingFailed, Some(Running), ch);
    } else {
      Onwards(Stopped, Some(Running), ch);
    }
  }

  lemma UndisturbedEnd()
    ensures StepOf(Generating, Some(Running), Fine) == Go(Wrapping, Some(Running))
    ensures StepOf(Wrapping, Some(Running), Fine) == Go(Posting, Some(Running))
    ensures StepOf(Posting, Some(Running), Fine) == Go(Succeeding, Some(Postprocessing))
    ensures StepOf(Succeeding, Some(Postprocessing), Fine) == Return(Some(Succeeded))
  {
  }

  lemma UndisturbedFailure()
    ensures StepOf(Generating, Some(Running), GeneratorRaises) == Go(Crashed, Some(Running))
    ensures StepOf(Crashed, Some(Running), Fine) == Go(MarkingFailed, Some(Running))
  {
  }

  /** Where the reads before the claim lead: a row that cannot be decoded to quarantine,
      any other failure back to the queue, a queued row to the claim, and nothing else
      anywhere. */
  lemma ReadsBeforeTheClaim(row: Row, ch: Choice)
    ensures var next := StepOf(Fetched, row, ch).next;
      && (next == Some(Quarantine) <==> row.Some? && (ch == Undecodable || (row.value.Corrupt? && !ch.Fault?)))
      && (next == Some(Claiming) <==> row == Some(Queued) && ch == Fine)
      && (next == None <==> ch == Fine && (row.None? || (row != Some(Queued) && !row.value.Corrupt?)))
      && next in {Some(Quarantine), Some(Claiming), Some(Requeue), None}
    ensures var next := StepOf(Recheck, row, ch).next;
      && (next == Some(Quarantine) <==> row.Some? && ch == Undecodable)
      && (next == None <==> ch == Fine)
      && next in {Some(Quarantine), Some(Requeue), None}
    ensures StepOf(Fetched, row, ch).row == row && StepOf(Recheck, row, ch).row == row
  {
  }

  /** A row that cannot be decoded is failed if it is queued or corrupt, and otherwise
      left as it is. */
  lemma PoisonIsQuarantined(st: Status, ch: Pc -> Choice)
    requires ch(Fetched) == Undecodable && forall pc :: pc != Fetched ==> ch(pc) == Fine
    ensures Alone(Fetched, Some(st), ch) == Some(if st.Queued? || st.Corrupt? then Failed else st)
  {
    hide StepOf, Alone;
    QuarantineSteps(st);
    Onwards(Fetched, Some(st), ch);
    Onwards(Quarantine, Some(st), ch);
    Onwards(RawCheck, Some(st), ch);
    Onwards(Repair, Some(st), ch);
  }

  lemma QuarantineSteps(st: Status)
    ensures StepOf(Fetched, Some(st), Undecodable) == Go(Quarantine, Some(st))
    ensures StepOf(Quarantine, Some(st), Fine) == if st.Queued? then Return(Some(Failed)) else Go(RawCheck, Some(st))
    ensures StepOf(RawCheck, Some(st), Fine) == if st.Corrupt? then Go(Repair, Some(st)) else Return(Some(st))
    ensures st.Corrupt? ==> StepOf(Repair, Some(st), Fine) == Return(Some(Failed))
  {
  }
}
