/** Creating the row of one durable id, by any number of callers at once: each looks
    for the row first and inserts it only if it saw none, with the insert deciding. */
module JobCreation {
  import opened Wrappers

  /** How far a caller is. `Looked`: it saw no row and is about to insert. */
  datatype Phase = Arrived | Looked | Created | Reused | Refused | Rejected

  /** A caller and the request it wants the row to hold (requests are numbered). */
  datatype Caller = Caller(request: nat, phase: Phase)

  /** `row` is the request the row holds; `events` counts the job_created events. */
  datatype System = System(row: Option<nat>, callers: map<nat, Caller>, events: nat)

  datatype Step =
    | Arrive(c: nat, request: nat)
    | Look(c: nat, valid: bool)      // valid: whether the references are acceptable
    | Insert(c: nat)

  predicate Enabled(s: System, step: Step) {
    match step
    case Arrive(c, _) => c !in s.callers
    case Look(c, _) => c in s.callers && s.callers[c].phase.Arrived?
    case Insert(c) => c in s.callers && s.callers[c].phase.Looked?
  }

  /** Reuse needs the same request. */
  function Match(row: nat, request: nat): Phase { if row == request then Reused else Refused }

  function Apply(s: System, step: Step): System
    requires Enabled(s, step)
  {
    match step
    case Arrive(c, request) => s.(callers := s.callers[c := Caller(request, Arrived)])
    case Look(c, valid) =>
      var who := s.callers[c];
      var phase := if s.row.Some? then Match(s.row.value, who.request) else if valid then Looked else Rejected;
      s.(callers := s.callers[c := who.(phase := phase)])
    case Insert(c) =>
      var who := s.callers[c];
      if s.row.Some? then s.(callers := s.callers[c := who.(phase := Match(s.row.value, who.request))])
      else System(Some(who.request), s.callers[c := who.(phase := Created)], s.events + 1)
  }

  ghost predicate Run(s: System, steps: seq<Step>, s': System)
    decreases |steps|
  {
    if steps == [] then s' == s
    else Enabled(s, steps[0]) && Run(Apply(s, steps[0]), steps[1..], s')
  }

  /** An id nobody has asked for yet, with its row there already or not. */
  ghost predicate Initial(s: System) { s.callers == map[] && s.events == 0 }

  function Creators(s: System): set<nat> { set c | c in s.callers && s.callers[c].phase.Created? }

  /** What a caller's answer says about the row. */
  ghost predicate AnswerOk(s: System, who: Caller) {
    match who.phase
    case Created => s.row == Some(who.request)
    case Reused => s.row == Some(who.request)
    case Refused => s.row.Some? && s.row.value != who.request
    case _ => true
  }

  ghost predicate Inv(s: System) {
    && (forall c :: c in s.callers ==> AnswerOk(s, s.callers[c]))
    && |Creators(s)| == s.events <= 1 && (s.events == 1 ==> s.row.Some?)
  }

  lemma StepKeepsInv(s: System, step: Step)
    requires Inv(s) && Enabled(s, step)
    ensures Inv(Apply(s, step))
  {
    var t := Apply(s, step);
    var c := step.c;
    if step.Insert? && s.row.None? {
      assert Creators(s) == {};
      assert Creators(t) == {c};
    } else {
      assert Creators(t) == Creators(s);
    }
  }

  /** What each step answers: a look at a row, or an insert that finds one, compares
      the requests; only a valid request goes on to insert; only an insert that finds
      no row makes one. Nobody else is touched. */
  lemma StepAnswers(s: System, step: Step)
    requires Enabled(s, step)
    ensures var t, c := Apply(s, step), step.c;
      && t.callers.Keys == s.callers.Keys + {c} && (forall d :: d in s.callers && d != c ==> t.callers[d] == s.callers[d])
      && (step.Arrive? ==> t.callers[c] == Caller(step.request, Arrived))
      && (!step.Arrive? ==>
            var phase, request := t.callers[c].phase, s.callers[c].request;
            && t.callers[c].request == request
            && (phase == Reused <==> s.row == Some(request))
            && (phase == Refused <==> s.row.Some? && s.row.value != request)
            && (phase == Looked <==> s.row.None? && step.Look? && step.valid)
            && (phase == Rejected <==> s.row.None? && step.Look? && !step.valid)
            && (phase == Created <==> s.row.None? && step.Insert?))
      && t.row == (if step.Insert? && s.row.None? then Some(s.callers[c].request) else s.row)
      && t.events == (if step.Insert? && s.row.None? then s.events + 1 else s.events)
  {
  }

  /** Over every interleaving: at most one caller is told it created the row, one event
      is published for it and none otherwise, and every answer is true of the row. */
  lemma {:induction false} OneCallerCreates(s: System, steps: seq<Step>, s': System)
    requires Inv(s) && Run(s, steps, s')
    ensures Inv(s') && (s.row.Some? ==> s'.row == s.row && s'.events == s.events)
    decreases |steps|
  {
    hide Inv;
    if steps != [] {
      StepKeepsInv(s, steps[0]);
      RowStays(s, steps[0]);
      OneCallerCreates(Apply(s, steps[0]), steps[1..], s');
    }
  }

  lemma RowStays(s: System, step: Step)
    requires Enabled(s, step)
    ensures s.row.Some? ==> Apply(s, step).row == s.row && Apply(s, step).events == s.events
  {
  }

  /** The row's request is the one of whoever created it, and a run of callers leaves
      no row only if it let none of them insert. */
  lemma CreationOutcome(s: System, steps: seq<Step>, s': System)
    requires Initial(s) && Run(s, steps, s')
    ensures |Creators(s')| == s'.events <= 1 && (s'.events == 1 <==> s.row.None? && s'.row.Some?)
    ensures forall c :: c in Creators(s') ==> s'.row == Some(s'.callers[c].request)
    ensures forall c :: c in s'.callers && s'.callers[c].phase.Reused? ==> s'.row == Some(s'.callers[c].request)
  {
    assert Creators(s) == {};
    OneCallerCreates(s, steps, s');
    RowNeedsCreator(s, steps, s');
    forall c | c in s'.callers ensures AnswerOk(s', s'.callers[c]) {
    }
  }

  lemma {:induction false} RowNeedsCreator(s: System, steps: seq<Step>, s': System)
    requires Run(s, steps, s')
    ensures s.events <= s'.events && (s.row.None? && s'.row.Some? ==> s.events < s'.events)
    decreases |steps|
  {
    if steps != [] {
      RowNeedsCreator(Apply(s, steps[0]), steps[1..], s');
    }
  }
}
