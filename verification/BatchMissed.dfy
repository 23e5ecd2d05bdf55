/** How completion can be recorded over an item that lacks the outcome: the row of a
    succeeded job becomes undecodable between the read that finds it terminal and the
    copy of its status. `BatchGuarantees.MissedExactly` says exactly when. */
module BatchMissed {
  import opened Wrappers
  import opened JobStatuses
  import opened BatchRuns
  import opened BatchWitness
  import BatchGuarantees

  /** The child's row at some status; then with the row undecodable. */
  function Row(st: Status): System { Checked().(rows := map["j" := st]) }

  function Spoiled(): System { Row(Succeeded).(poison := {"j"}) }

  function MissedIt(): System { Spoiled().(missed := {"j"}) }

  function Recorded(): System { MissedIt().(done := {"j"}) }

  /** Done, over, and the item still says pending. */
  predicate DoneWithoutOutcome(s: System) {
    && "j" in s.done && "j" in s.rows && s.rows["j"] == Succeeded
    && "b" in s.files && s.files["b"] == File(false, Some("j"), None)
  }

  lemma CompletionCanMiss()
    ensures exists s0, steps, s :: BatchGuarantees.Initial(s0) && Run(s0, steps, s) && DoneWithoutOutcome(s)
  {
    hide Apply, Enabled, Empty, Made, Minted, Assigned, Checked, File, Row, Spoiled, MissedIt, Recorded, DoneWithoutOutcome;
    var steps := ConvergeRun();
    steps := FinishRun(steps);
    PreChecking();
    steps := Then(Assigned(), PreCheck("b", "j"), steps, Recorded());
    steps := AssignRun(steps, Recorded());
    steps := CreateRun(steps, Recorded());
    StartAndEnd();
    TheEnd();
  }

  lemma TheEnd()
    ensures DoneWithoutOutcome(Recorded())
  {
  }

  /** The job runs to success. */
  lemma FinishRun(rest: seq<Step>) returns (steps: seq<Step>)
    requires Run(Row(Succeeded), rest, Recorded())
    ensures Run(Checked(), steps, Recorded())
  {
    hide Apply, Enabled, Checked, Row, Recorded;
    Arriving();
    Moving(Queued, Preparing);
    Moving(Preparing, Running);
    Moving(Running, Postprocessing);
    Moving(Postprocessing, Succeeded);
    steps := Then(Row(Postprocessing), MoveRow("j", Succeeded), rest, Recorded());
    steps := Then(Row(Running), MoveRow("j", Postprocessing), steps, Recorded());
    steps := Then(Row(Preparing), MoveRow("j", Running), steps, Recorded());
    steps := Then(Row(Queued), MoveRow("j", Preparing), steps, Recorded());
    steps := Then(Checked(), InsertChild("j"), steps, Recorded());
  }

  lemma Arriving()
    ensures Enabled(Checked(), InsertChild("j")) && Apply(Checked(), InsertChild("j")) == Row(Queued)
  {
  }

  lemma Moving(a: Status, b: Status)
    requires Edge(a, b)
    ensures Enabled(Row(a), MoveRow("j", b)) && Apply(Row(a), MoveRow("j", b)) == Row(b)
  {
    assert map["j" := a]["j" := b] == map["j" := b];
  }

  /** The reconciliation that comes too late. */
  lemma ConvergeRun() returns (steps: seq<Step>)
    ensures Run(Row(Succeeded), steps, Recorded())
  {
    hide Apply, Enabled, Row, Spoiled, MissedIt, Recorded, File;
    var op := ReconcileChild("j", true);
    var file := File(false, Some("j"), None);
    ConvergeReads();
    Missing();
    ConvergeEnds();
    Entering(Row(Succeeded), 1, op) by { NobodyHere(); }
    steps := Then(MissedIt().(threads := map[1 := Knows("j")]), MarkDone(1), [], Recorded());
    steps := Then(Inside(MissedIt(), 1, Leaving(Settled("j"))), Release(1), steps, Recorded());
    steps := Then(Inside(MissedIt(), 1, Saving(op, "b", file)), Save(1, true), steps, Recorded());
    steps := Then(Inside(MissedIt(), 1, Walking(op, "b", file, 1)), Finish(1, 0), steps, Recorded());
    steps := Then(Inside(Spoiled(), 1, Walking(op, "b", file, 0)), Walk(1, "k"), steps, Recorded());
    steps := Then(Inside(Row(Succeeded), 1, Walking(op, "b", file, 0)), SpoilRow("j"), steps, Recorded());
    steps := Then(Inside(Row(Succeeded), 1, Held(op)), Read(1, {}, true, "b"), steps, Recorded());
    steps := Then(Row(Succeeded).(threads := map[1 := Want(op)]), Acquire(1), steps, Recorded());
    steps := Then(Row(Succeeded), Start(1, op), steps, Recorded());
  }

  lemma NobodyHere()
    ensures Row(Succeeded).lock.None? && Row(Succeeded).threads == map[] && MayStart(Row(Succeeded), ReconcileChild("j", true))
  {
  }

  lemma ConvergeReads()
    ensures var s := Inside(Row(Succeeded), 1, Held(ReconcileChild("j", true)));
      var t := Inside(Row(Succeeded), 1, Walking(ReconcileChild("j", true), "b", File(false, Some("j"), None), 0));
      && Enabled(s, Read(1, {}, true, "b")) && Apply(s, Read(1, {}, true, "b")) == t
      && Enabled(t, SpoilRow("j"))
      && Apply(t, SpoilRow("j")) == Inside(Spoiled(), 1, Walking(ReconcileChild("j", true), "b", File(false, Some("j"), None), 0))
  {
    var s := Inside(Row(Succeeded), 1, Held(ReconcileChild("j", true)));
    assert s.files["b"].items[0].job == Some("j");
    assert Sees(s, {}, true, "b", "j");
  }

  lemma Missing()
    ensures var op, file := ReconcileChild("j", true), File(false, Some("j"), None);
      var s, t := Inside(Spoiled(), 1, Walking(op, "b", file, 0)), Inside(MissedIt(), 1, Walking(op, "b", file, 1));
      && Enabled(s, Walk(1, "k")) && Apply(s, Walk(1, "k")) == t
      && Enabled(t, Finish(1, 0)) && Apply(t, Finish(1, 0)) == Inside(MissedIt(), 1, Saving(op, "b", file))
  {
    var file := File(false, Some("j"), None);
    assert "k"[0] != "j"[0];
    assert file.items[0 := file.items[0]] == file.items;
  }

  lemma ConvergeEnds()
    ensures var s := Inside(MissedIt(), 1, Saving(ReconcileChild("j", true), "b", File(false, Some("j"), None)));
      var t := Inside(MissedIt(), 1, Leaving(Settled("j")));
      && Enabled(s, Save(1, true)) && Apply(s, Save(1, true)) == t
      && Enabled(t, Release(1)) && Apply(t, Release(1)) == MissedIt().(threads := map[1 := Knows("j")])
    ensures var u := MissedIt().(threads := map[1 := Knows("j")]); Enabled(u, MarkDone(1)) && Apply(u, MarkDone(1)) == Recorded()
  {
    OneId(false, None);
    assert map[1 := Knows("j")] - {1} == map[];
  }
}
