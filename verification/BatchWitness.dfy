/** How a crash leaves a child that startup recovery then misses: a cancellation that
    finds no row yet, the row inserted a moment later, and a crash before the refused
    exposure could cancel it. From an empty directory to the child in the queue. */
module BatchWitness {
  import opened Wrappers
  import opened JobStatuses
  import opened BatchRuns
  import BatchGuarantees
  import StartupRecovery

  function Empty(): System {
    System(map[], map[], {}, {}, {}, multiset{}, {}, None, map[], map[], {}, {}, {}, {}, {})
  }

  function File(cancelling: bool, job: Option<string>, status: Option<Status>): Batch {
    Batch(cancelling, [Item(job, 0, status)], 0, 1)
  }

  /** A batch with one item, before and after its child id is durable. */
  function Made(): System { Empty().(files := map["b" := File(false, None, None)], used := {"b"}) }

  function Minted(): System { Made().(home := map["j" := ("b", 0)], issued := {"j"}) }

  function Assigned(): System {
    Minted().(files := map["b" := File(false, Some("j"), None)], persisted := {"j"})
  }

  /** The materializing thread has seen the batch live; its row comes later. */
  function Checked(): System { Assigned().(cleared := {"j"}) }

  function CancelSaved(): System { Checked().(files := map["b" := File(true, Some("j"), Some(Cancelled))]) }

  function Inserted(): System { CancelSaved().(rows := map["j" := Queued]) }

  /** After the crash and the next start. */
  function Restarted(): System { Inserted().(cleared := {}, pending := {"j"}) }

  function Inside(s: System, t: nat, pc: Pc): System { s.(lock := Some(t), threads := map[t := pc]) }

  /** A cancelled batch's child is queued, pending, and what recovery calls stale. */
  predicate BackInTheQueue(s: System) {
    && "b" in s.files && s.files["b"].cancelling && Owns(s.files["b"], "j")
    && "j" in s.rows && s.rows["j"] == Queued && "j" in s.pending
  }

  lemma CrashLeavesStaleChild()
    ensures exists s0, steps, s :: BatchGuarantees.Initial(s0) && Run(s0, steps, s) && BackInTheQueue(s)
    ensures StartupRecovery.Stale(DiskOf(Inserted(), {}, {}), "j")
  {
    hide Apply, Enabled, Empty, Made, Minted, Assigned, Checked, CancelSaved, Inserted, Restarted, File, DiskOf, BackInTheQueue;
    StaleOnDisk();
    RestartEnqueues();
    var steps := Then(Inserted(), Restart({}, {}), [], Restarted());
    Inserting();
    steps := Then(CancelSaved(), InsertChild("j"), steps, Restarted());
    steps := CancelRun(steps);
    PreChecking();
    steps := Then(Assigned(), PreCheck("b", "j"), steps, Restarted());
    steps := AssignRun(steps, Restarted());
    steps := CreateRun(steps, Restarted());
    StartAndEnd();
  }

  lemma StartAndEnd()
    ensures BatchGuarantees.Initial(Empty()) && BackInTheQueue(Restarted())
  {
    assert Restarted().files["b"].items[0].job == Some("j");
  }

  /** One step in front of a run. */
  lemma Then(s: System, step: Step, steps: seq<Step>, s': System) returns (longer: seq<Step>)
    requires Enabled(s, step) && Run(Apply(s, step), steps, s')
    ensures Run(s, longer, s')
  {
    hide Enabled, Apply;
    longer := [step] + steps;
    assert longer[1..] == steps;
  }

  /** Taking and giving back the lock, for any state nobody is in. */
  lemma Entering(s: System, t: nat, op: Op)
    requires s.lock.None? && s.threads == map[] && MayStart(s, op)
    ensures Enabled(s, Start(t, op)) && Apply(s, Start(t, op)) == s.(threads := map[t := Want(op)])
    ensures var w := s.(threads := map[t := Want(op)]); Enabled(w, Acquire(t)) && Apply(w, Acquire(t)) == Inside(s, t, Held(op))
  {
  }

  lemma Releasing(s: System, t: nat)
    requires s.lock.None? && s.threads == map[]
    ensures var w := Inside(s, t, Leaving(Nothing)); Enabled(w, Release(t)) && Apply(w, Release(t)) == s
  {
    assert map[t := Leaving(Nothing)] - {t} == map[];
  }

  lemma CreateRun(rest: seq<Step>, last: System) returns (steps: seq<Step>)
    requires Run(Made(), rest, last)
    ensures Run(Empty(), steps, last)
  {
    hide Apply, Enabled;
    var op := Create("b", File(false, None, None));
    Creating();
    Releasing(Made(), 0);
    Entering(Empty(), 0, op);
    steps := Then(Inside(Made(), 0, Leaving(Nothing)), Release(0), rest, last);
    steps := Then(Inside(Empty(), 0, Held(op)), Read(0, {}, true, ""), steps, last);
    steps := Then(Empty().(threads := map[0 := Want(op)]), Acquire(0), steps, last);
    steps := Then(Empty(), Start(0, op), steps, last);
  }

  lemma Creating()
    ensures var s := Inside(Empty(), 0, Held(Create("b", File(false, None, None))));
      Enabled(s, Read(0, {}, true, "")) && Apply(s, Read(0, {}, true, "")) == Inside(Made(), 0, Leaving(Nothing))
  {
  }

  lemma AssignRun(rest: seq<Step>, last: System) returns (steps: seq<Step>)
    requires Run(Assigned(), rest, last)
    ensures Run(Made(), steps, last)
  {
    hide Apply, Enabled, Made, Minted, Assigned, File;
    var op := Assign("b", 0);
    var before, after := File(false, None, None), File(false, Some("j"), None);
    AssignReads();
    Minting();
    AssignSaves();
    Releasing(Assigned(), 0) by { NobodyIn(); }
    Entering(Made(), 0, op) by { NobodyIn(); }
    steps := Then(Inside(Assigned(), 0, Leaving(Nothing)), Release(0), rest, last);
    steps := Then(Inside(Minted(), 0, Saving(op, "b", after)), Save(0, true), steps, last);
    steps := Then(Inside(Minted(), 0, Walking(op, "b", after, 1)), Finish(0, 0), steps, last);
    steps := Then(Inside(Made(), 0, Walking(op, "b", before, 0)), Walk(0, "j"), steps, last);
    steps := Then(Inside(Made(), 0, Held(op)), Read(0, {}, true, ""), steps, last);
    steps := Then(Made().(threads := map[0 := Want(op)]), Acquire(0), steps, last);
    steps := Then(Made(), Start(0, op), steps, last);
  }

  lemma NobodyIn()
    ensures forall s :: s in {Made(), Assigned(), Checked(), CancelSaved()} ==> s.lock.None? && s.threads == map[]
  {
  }

  lemma AssignReads()
    ensures var s := Inside(Made(), 0, Held(Assign("b", 0)));
      && Enabled(s, Read(0, {}, true, ""))
      && Apply(s, Read(0, {}, true, "")) == Inside(Made(), 0, Walking(Assign("b", 0), "b", File(false, None, None), 0))
  {
  }

  lemma Minting()
    ensures var op, before, after := Assign("b", 0), File(false, None, None), File(false, Some("j"), None);
      var s, t := Inside(Made(), 0, Walking(op, "b", before, 0)), Inside(Minted(), 0, Walking(op, "b", after, 1));
      && Enabled(s, Walk(0, "j")) && Apply(s, Walk(0, "j")) == t
      && Enabled(t, Finish(0, 0)) && Apply(t, Finish(0, 0)) == Inside(Minted(), 0, Saving(op, "b", after))
  {
    assert File(false, None, None).items[0 := Item(Some("j"), 0, None)] == File(false, Some("j"), None).items;
  }

  lemma AssignSaves()
    ensures var s := Inside(Minted(), 0, Saving(Assign("b", 0), "b", File(false, Some("j"), None)));
      Enabled(s, Save(0, true)) && Apply(s, Save(0, true)) == Inside(Assigned(), 0, Leaving(Nothing))
  {
    OneId(false, None);
  }

  lemma OneId(cancelling: bool, status: Option<Status>)
    ensures Ids(File(cancelling, Some("j"), status)) == {"j"}
  {
    assert File(cancelling, Some("j"), status).items[0].job.value == "j";
  }

  lemma PreChecking()
    ensures Enabled(Assigned(), PreCheck("b", "j")) && Apply(Assigned(), PreCheck("b", "j")) == Checked()
  {
    assert Assigned().files["b"].items[0].job == Some("j");
  }

  lemma CancelRun(rest: seq<Step>) returns (steps: seq<Step>)
    requires Run(CancelSaved(), rest, Restarted())
    ensures Run(Checked(), steps, Restarted())
  {
    hide Apply, Enabled, Restarted, Checked, CancelSaved, File;
    var op := Cancel("b");
    var before, after := File(true, Some("j"), None), File(true, Some("j"), Some(Cancelled));
    CancelReads();
    Marking();
    CancelSaves();
    Releasing(CancelSaved(), 1) by { NobodyIn(); }
    Entering(Checked(), 1, op) by { NobodyIn(); }
    steps := Then(Inside(CancelSaved(), 1, Leaving(Nothing)), Release(1), rest, Restarted());
    steps := Then(Inside(Checked(), 1, Saving(op, "b", after)), Save(1, true), steps, Restarted());
    steps := Then(Inside(Checked(), 1, Walking(op, "b", after, 1)), Finish(1, 0), steps, Restarted());
    steps := Then(Inside(Checked(), 1, Walking(op, "b", before, 0)), Walk(1, "k"), steps, Restarted());
    steps := Then(Inside(Checked(), 1, Held(op)), Read(1, {}, true, ""), steps, Restarted());
    steps := Then(Checked().(threads := map[1 := Want(op)]), Acquire(1), steps, Restarted());
    steps := Then(Checked(), Start(1, op), steps, Restarted());
  }

  lemma CancelReads()
    ensures var s := Inside(Checked(), 1, Held(Cancel("b")));
      && Enabled(s, Read(1, {}, true, ""))
      && Apply(s, Read(1, {}, true, "")) == Inside(Checked(), 1, Walking(Cancel("b"), "b", File(true, Some("j"), None), 0))
  {
  }

  lemma Marking()
    ensures var op, before, after := Cancel("b"), File(true, Some("j"), None), File(true, Some("j"), Some(Cancelled));
      var s, t := Inside(Checked(), 1, Walking(op, "b", before, 0)), Inside(Checked(), 1, Walking(op, "b", after, 1));
      && Enabled(s, Walk(1, "k")) && Apply(s, Walk(1, "k")) == t
      && Enabled(t, Finish(1, 0)) && Apply(t, Finish(1, 0)) == Inside(Checked(), 1, Saving(op, "b", after))
  {
    assert "k"[0] != "j"[0];
    assert File(true, Some("j"), None).items[0 := Item(Some("j"), 0, Some(Cancelled))] == File(true, Some("j"), Some(Cancelled)).items;
  }

  lemma CancelSaves()
    ensures var s := Inside(Checked(), 1, Saving(Cancel("b"), "b", File(true, Some("j"), Some(Cancelled))));
      Enabled(s, Save(1, true)) && Apply(s, Save(1, true)) == Inside(CancelSaved(), 1, Leaving(Nothing))
  {
    OneId(true, Some(Cancelled));
  }

  lemma Inserting()
    ensures Enabled(CancelSaved(), InsertChild("j")) && Apply(CancelSaved(), InsertChild("j")) == Inserted()
  {
  }

  lemma StaleOnDisk()
    ensures StartupRecovery.Stale(DiskOf(Inserted(), {}, {}), "j")
    ensures RecoveredRows(Inserted(), {}, {}) == map["j" := Queued]
  {
    var s := Inserted();
    assert Readable(s, {}, "j");
    assert s.home["j"] == ("b", 0);
    assert DiskOf(s, {}, {}).children["j"] == StartupRecovery.Child("b", Some(Cancelled));
  }

  lemma RestartEnqueues()
    ensures Enabled(Inserted(), Restart({}, {})) && Apply(Inserted(), Restart({}, {})) == Restarted()
  {
    hide RecoveredRows, DiskOf;
    StaleOnDisk();
  }
}
