/** The remaining steps, those that write files or learn outcomes, and the
    invariant over whole runs. */
module BatchSteps {
  import opened Wrappers
  import opened JobStatuses
  import opened BatchRuns
  import opened BatchProofs

  ghost predicate FileEvolves(s: System, b: string, file: Batch) {
    if b in s.files then Grows(s.known, s.files[b], file) && Private(s, s.files[b], file) else Blank(file)
  }

  /** The lock holder rewrites, adds or removes files; nothing else changes. */
  ghost predicate Loud(s: System, t: System) {
    && t.rows == s.rows && t.poison == s.poison && t.home == s.home && t.issued == s.issued && t.missed == s.missed
    && s.persisted <= t.persisted && s.known <= t.known
    && (forall b :: b in t.files ==> FileEvolves(s, b, t.files[b]))
  }

  lemma SameFile(s: System, b: string)
    requires b in s.files
    ensures FileEvolves(s, b, s.files[b])
  {
  }

  /** Nobody becomes the owner of a job that already has a row. */
  lemma NoNewOwner(s: System, t: System, b: string, j: string)
    requires Loud(s, t) && j in s.rows && b in t.files && Owns(t.files[b], j)
    ensures b in s.files && Owns(s.files[b], j)
  {
    assert FileEvolves(s, b, t.files[b]);
    var i :| 0 <= i < |t.files[b].items| && t.files[b].items[i].job == Some(j);
    assert b in s.files && i < |s.files[b].items| && s.files[b].items[i].job == Some(j);
  }

  lemma StillKnown(s: System, t: System, j: string)
    requires Loud(s, t) && Known(s, j) && j in s.known
    ensures Known(t, j)
  {
    forall b | b in t.files ensures Reflected(t.files[b], j, t.rows[j], |t.files[b].items|) {
      assert FileEvolves(s, b, t.files[b]);
      forall i | 0 <= i < |t.files[b].items| && t.files[b].items[i].job == Some(j)
        ensures t.files[b].items[i].status == Some(t.rows[j])
      {
        assert b in s.files && i < |s.files[b].items| && s.files[b].items[i].job == Some(j);
        assert Reflected(s.files[b], j, s.rows[j], |s.files[b].items|);
        assert ItemGrows(s.known, s.files[b].items[i], t.files[b].items[i]);
      }
    }
  }

  lemma LoudKeepsPc(s: System, t: System, pc: Pc)
    requires PcOk(s, pc) && Loud(s, t) && !InSection(pc)
    ensures PcOk(t, pc)
  {
    hide Owns;
    match pc
    case Listing(jobs, todo, owned, reliable) =>
      forall j | j in jobs ensures Over(t, j) && (reliable ==> forall b :: b in t.files && Owns(t.files[b], j) ==> b in todo || j in owned) {
        forall b | b in t.files && Owns(t.files[b], j) ensures b in s.files && Owns(s.files[b], j) {
          NoNewOwner(s, t, b, j);
        }
      }
    case _ =>
  }

  /** The lock holder `w` made a loud step: what it must show itself is its own new
      position, the homes, and the jobs it has just learnt about. */
  lemma LoudStep(s: System, t: System, w: nat)
    requires Inv(s) && Loud(s, t) && w in s.threads && InSection(s.threads[w]) && t.done == s.done
    requires w in t.threads && t.threads == s.threads[w := t.threads[w]]
    requires PcOk(t, t.threads[w])
    requires forall j :: j in t.known && j !in s.known ==> Known(t, j)
    ensures ThreadsOk(t) && KnownOk(t)
  {
    hide PcOk, Known, Loud, HomesOk;
    forall v | v in t.threads ensures PcOk(t, t.threads[v]) {
      if v != w {
        assert PcOk(s, s.threads[v]);
        LoudKeepsPc(s, t, s.threads[v]);
      }
    }
    forall j | j in t.known ensures Known(t, j) {
      if j in s.known { StillKnown(s, t, j); }
    }
    forall j | j in t.done ensures Taught(t, j) {
      LoudTaught(s, t, j);
    }
  }

  lemma LoudTaught(s: System, t: System, j: string)
    requires Loud(s, t) && Taught(s, j)
    ensures Taught(t, j)
  {
  }

  // ------------------------------------------------------------------- save

  lemma SaveIsLoud(s: System, w: nat)
    requires Inv(s) && w in s.threads && s.threads[w].Saving?
    ensures Loud(s, Apply(s, Save(w, true))) && HomesOk(Apply(s, Save(w, true)))
  {
    hide KnownOk, LockOk, CorruptOk, Private, Grows, Converging;
    var t, pc := Apply(s, Save(w, true)), s.threads[w];
    assert PcOk(s, pc);
    forall b | b in t.files ensures FileEvolves(s, b, t.files[b]) {
      if b != pc.b { SameFile(s, b); }
    }
    forall b | b in t.files ensures AtHome(t.home, b, t.files[b]) && Ids(t.files[b]) <= t.persisted {
    }
    IdsIssued(s, pc.b, pc.rec);
  }

  lemma IdsIssued(s: System, b: string, rec: Batch)
    requires AtHome(s.home, b, rec) && s.home.Keys <= s.issued
    ensures Ids(rec) <= s.issued
  {
  }

  lemma SaveTeaches(s: System, w: nat)
    requires Inv(s) && w in s.threads && s.threads[w].Saving?
    ensures var t := Apply(s, Save(w, true)); forall j :: j in t.known && j !in s.known ==> Known(t, j)
  {
    hide KnownOk, LockOk, CorruptOk, CopyOk, Owns, HomesOk;
    var t, pc := Apply(s, Save(w, true)), s.threads[w];
    assert PcOk(s, pc);
    if pc.op.ReconcileChild? && pc.op.converging && pc.op.job !in s.missed {
      var j := pc.op.job;
      forall b | b in t.files ensures Reflected(t.files[b], j, t.rows[j], |t.files[b].items|) {
        if b != pc.b { Unowned(s.files[b], j, t.rows[j]); }
      }
      assert Known(t, j);
    }
  }

  lemma Unowned(batch: Batch, j: string, st: Status)
    requires !Owns(batch, j)
    ensures Reflected(batch, j, st, |batch.items|)
  {
  }

  lemma SaveLesson(s: System, w: nat)
    requires Inv(s) && w in s.threads && s.threads[w].Saving?
    ensures var t := Apply(s, Save(w, true)); PcOk(t, t.threads[w])
  {
    hide KnownOk, LockOk, CorruptOk, CopyOk, Owns, HomesOk;
    assert PcOk(s, s.threads[w]);
  }

  lemma SaveKeeps(s: System, w: nat)
    requires Inv(s) && w in s.threads && s.threads[w].Saving?
    ensures var t := Apply(s, Save(w, true)); HomesOk(t) && ThreadsOk(t) && KnownOk(t)
  {
    hide Loud, Known, KnownOk, ThreadsOk, HomesOk, LockOk;
    SaveIsLoud(s, w);
    SaveTeaches(s, w);
    SaveLesson(s, w);
    LoudStep(s, Apply(s, Save(w, true)), w);
  }

  // ------------------------------------------------------------------- read

  /** With every file readable and none seen to own the job, none owns it. */
  lemma CertainlyNone(s: System, failing: set<string>, listed: bool, j: string)
    requires Certain(s, failing, listed) && !SeesOwner(s, failing, listed, j)
    ensures forall b :: b in s.files ==> !Owns(s.files[b], j)
  {
    forall b | b in s.files ensures !Owns(s.files[b], j) {
      assert !Sees(s, failing, listed, b, j);
    }
  }

  /** An id has one home, so one owner. */
  lemma OneOwner(s: System, b: string, c: string, j: string)
    requires HomesOk(s) && b in s.files && c in s.files && Owns(s.files[b], j) && Owns(s.files[c], j)
    ensures b == c && j in s.home && s.home[j].0 == b
  {
    assert AtHome(s.home, b, s.files[b]) && AtHome(s.home, c, s.files[c]);
  }

  lemma OwnerHome(s: System, b: string, j: string)
    requires HomesOk(s) && b in s.files && Owns(s.files[b], j)
    ensures j in s.home && s.home[j].0 == b
  {
    OneOwner(s, b, b, j);
  }

  /** The heart of the linearization: a decision to expose was taken on a state in
      which no owner of the job is being cancelled. */
  lemma ExposureIsClear(s: System, op: Op, failing: set<string>, listed: bool, owner: string)
    requires HomesOk(s) && WantOk(s, op) && AfterRead(s, op, failing, listed, owner).Exposing?
    requires op.ExposeRecovered? && SeesOwner(s, failing, listed, op.job) ==> Sees(s, failing, listed, owner, op.job)
    ensures Clear(s, AfterRead(s, op, failing, listed, owner).job)
  {
    hide HomesOk, Owns;
    var j := op.job;
    if op.ExposeRecovered? && !SeesOwner(s, failing, listed, j) {
      CertainlyNone(s, failing, listed, j);
    }
    forall b | b in s.files && Owns(s.files[b], j) ensures !s.files[b].cancelling {
      OwnerHome(s, b, j);
      if op.ExposeRecovered? { OneOwner(s, b, owner, j); }
    }
  }

  lemma CopyStarts(s: System, b: string, rec: Batch)
    requires HomesOk(s) && b in s.files && (rec == s.files[b] || rec == s.files[b].(cancelling := true))
    ensures CopyOk(s, b, rec)
  {
    assert AtHome(s.home, b, s.files[b]);
  }

  lemma StartsUnhindered(s: System, op: Op, b: string, rec: Batch)
    requires HomesOk(s) && b in s.files && (op.Cancel? || rec == s.files[b]) && (op.Assign? ==> !rec.cancelling)
    ensures Unhindered(op, rec, 0)
  {
  }

  lemma ReadPcOk(s: System, w: nat, failing: set<string>, listed: bool, owner: string)
    requires Inv(s) && Enabled(s, Read(w, failing, listed, owner))
    requires !s.threads[w].op.Create? && !s.threads[w].op.Delete?
    ensures var pc := AfterRead(s, s.threads[w].op, failing, listed, owner);
      if pc.Leaving? then pc.lesson.Settled? ==> Known(s, pc.lesson.job) else PcOk(s, pc)
  {
    hide KnownOk, LockOk, CorruptOk, CopyOk, HomesOk, Owns;
    var op := s.threads[w].op;
    assert PcOk(s, s.threads[w]);
    var pc := AfterRead(s, op, failing, listed, owner);
    match pc
    case Walking(_, b, rec, _) =>
      CopyStarts(s, b, rec);
      StartsUnhindered(s, op, b, rec);
      if op.ReconcileChild? {
        forall c | c in s.files && Owns(s.files[c], op.job) ensures c == b { OneOwner(s, b, c, op.job); }
      }
    case Exposing(j) => ExposureIsClear(s, op, failing, listed, owner);
    case Leaving(lesson) =>
      if lesson.Settled? {
        CertainlyNone(s, failing, listed, op.job);
        forall b | b in s.files ensures Reflected(s.files[b], op.job, s.rows[op.job], |s.files[b].items|) {
          Unowned(s.files[b], op.job, s.rows[op.job]);
        }
      }
    case _ =>
  }

  /** Reading without writing: only what is known may grow. */
  lemma ReadOnlyKeeps(s: System, w: nat, failing: set<string>, listed: bool, owner: string)
    requires Inv(s) && Enabled(s, Read(w, failing, listed, owner))
    requires !s.threads[w].op.Create? && !s.threads[w].op.Delete?
    ensures var t := Apply(s, Read(w, failing, listed, owner)); HomesOk(t) && ThreadsOk(t) && KnownOk(t)
  {
    hide KnownOk, HomesOk, ThreadsOk, LockOk, CorruptOk, AfterRead, Known, PcOk, SeesOwner, Loud;
    var t := Apply(s, Read(w, failing, listed, owner));
    var pc := AfterRead(s, s.threads[w].op, failing, listed, owner);
    ReadPcOk(s, w, failing, listed, owner);
    UnwrittenIsLoud(s, t);
    SameButKnown(s, t, pc);
    LoudStep(s, t, w);
  }

  lemma UnwrittenIsLoud(s: System, t: System)
    requires HomesOk(s) && t == s.(threads := t.threads, known := t.known) && s.known <= t.known
    ensures Loud(s, t) && HomesOk(t)
  {
    forall b | b in t.files ensures FileEvolves(s, b, t.files[b]) {
      SameFile(s, b);
    }
  }

  lemma SameButKnown(s: System, t: System, pc: Pc)
    requires t == s.(threads := t.threads, known := s.known + (LearntBy(pc) - s.missed))
    requires if pc.Leaving? then pc.lesson.Settled? ==> Known(s, pc.lesson.job) else PcOk(s, pc)
    ensures PcOk(t, pc)
    ensures forall j :: j in t.known && j !in s.known ==> Known(t, j)
  {
  }

  lemma WriteAtOnceKeeps(s: System, w: nat, failing: set<string>, listed: bool, owner: string)
    requires Inv(s) && Enabled(s, Read(w, failing, listed, owner))
    requires s.threads[w].op.Create? || s.threads[w].op.Delete?
    ensures var t := Apply(s, Read(w, failing, listed, owner)); HomesOk(t) && ThreadsOk(t) && KnownOk(t)
  {
    hide KnownOk, LockOk, CorruptOk, Known;
    var t := Apply(s, Read(w, failing, listed, owner));
    assert PcOk(s, s.threads[w]);
    forall b | b in t.files ensures FileEvolves(s, b, t.files[b]) {
      if b in s.files { SameFile(s, b); }
    }
    LoudStep(s, t, w);
  }

  // -------------------------------------------------------------- completion

  lemma MarkDoneKeeps(s: System, w: nat)
    requires Inv(s) && Enabled(s, MarkDone(w))
    ensures var t := Apply(s, MarkDone(w)); HomesOk(t) && ThreadsOk(t) && KnownOk(t)
  {
    hide PcOk, Known, LockOk, CorruptOk;
    var t := Apply(s, MarkDone(w));
    KnowsIsTaught(s, s.threads[w]) by { assert PcOk(s, s.threads[w]); }
    forall v | v in t.threads ensures PcOk(t, t.threads[v]) {
      assert PcOk(s, s.threads[v]);
      DoneIrrelevant(s, t, s.threads[v]);
    }
    forall j | j in t.known ensures Known(t, j) {
      KnownIrrelevant(s, t, j);
    }
  }

  lemma KnowsIsTaught(s: System, pc: Pc)
    requires PcOk(s, pc) && pc.Knows?
    ensures Taught(s, pc.job)
  {
  }

  lemma DoneIrrelevant(s: System, t: System, pc: Pc)
    requires PcOk(s, pc) && t == s.(done := t.done, threads := t.threads)
    ensures PcOk(t, pc)
  {
  }

  lemma KnownIrrelevant(s: System, t: System, j: string)
    requires Known(s, j) && t == s.(done := t.done, threads := t.threads, known := t.known)
    ensures Known(t, j)
  {
  }

  /** The shortcut through the shared index is taken only for a job that no batch
      owns: a per-job scan would find no owner either. */
  lemma ShortcutHasNoOwner(s: System, w: nat, j: string)
    requires Inv(s) && Enabled(s, MarkByIndex(w, j))
    ensures Over(s, j) && forall b :: b in s.files ==> !Owns(s.files[b], j)
  {
    hide KnownOk, HomesOk, LockOk, CorruptOk;
    assert PcOk(s, s.threads[w]);
  }

  lemma MarkByIndexKeeps(s: System, w: nat, j: string)
    requires Inv(s) && Enabled(s, MarkByIndex(w, j))
    ensures var t := Apply(s, MarkByIndex(w, j)); HomesOk(t) && ThreadsOk(t) && KnownOk(t)
  {
    hide PcOk, Known, LockOk, CorruptOk, Owns;
    var t := Apply(s, MarkByIndex(w, j));
    ShortcutHasNoOwner(s, w, j);
    forall v | v in t.threads ensures PcOk(t, t.threads[v]) {
      assert PcOk(s, s.threads[v]);
      LearningKeepsPc(s, t, s.threads[v], j);
    }
    forall k | k in t.known ensures Known(t, k) {
      if k == j { NobodyOwns(s, j); }
      KnownIrrelevant(s, t, k);
    }
  }

  lemma NobodyOwns(s: System, j: string)
    requires Over(s, j) && forall b :: b in s.files ==> !Owns(s.files[b], j)
    ensures Known(s, j)
  {
    forall b | b in s.files ensures Reflected(s.files[b], j, s.rows[j], |s.files[b].items|) {
      Unowned(s.files[b], j, s.rows[j]);
    }
  }

  lemma LearningKeepsPc(s: System, t: System, pc: Pc, j: string)
    requires PcOk(s, pc) && t == s.(done := t.done, known := s.known + {j})
    requires forall b :: b in s.files ==> !Owns(s.files[b], j)
    ensures PcOk(t, pc)
  {
    match pc
    case Walking(_, b, rec, _) => LearningKeepsCopy(s, t, b, rec, j);
    case Saving(_, b, rec) => LearningKeepsCopy(s, t, b, rec, j);
    case _ =>
  }

  lemma LearningKeepsCopy(s: System, t: System, b: string, rec: Batch, j: string)
    requires CopyOk(s, b, rec) && t == s.(done := t.done, known := s.known + {j})
    requires b in s.files && !Owns(s.files[b], j)
    ensures CopyOk(t, b, rec)
  {
  }

  // -------------------------------------------------------------------- runs

  lemma StepKeepsInv(s: System, step: Step)
    requires Inv(s) && Enabled(s, step)
    ensures Inv(Apply(s, step))
  {
    hide HomesOk, ThreadsOk, KnownOk, CorruptOk, LockOk, Apply;
    StepKeepsLock(s, step);
    StepKeepsCorrupt(s, step);
    match step
    case Read(w, failing, listed, owner) =>
      if s.threads[w].op.Create? || s.threads[w].op.Delete? {
        WriteAtOnceKeeps(s, w, failing, listed, owner);
      } else {
        ReadOnlyKeeps(s, w, failing, listed, owner);
      }
    case Walk(w, minted) => WalkKeeps(s, w, minted);
    case Save(w, written) => if written { SaveKeeps(s, w); } else { PlainKeeps(s, step); }
    case MarkDone(w) => MarkDoneKeeps(s, w);
    case MarkByIndex(w, j) => MarkByIndexKeeps(s, w, j);
    case _ => if OutsideStep(step) { OutsideKeeps(s, step); } else { PlainKeeps(s, step); }
  }

  lemma {:induction false} RunKeepsInv(s: System, steps: seq<Step>, s': System)
    requires Inv(s) && Run(s, steps, s')
    ensures Inv(s')
    decreases |steps|
  {
    hide Inv, Apply, Enabled;
    if steps != [] {
      StepKeepsInv(s, steps[0]);
      RunKeepsInv(Apply(s, steps[0]), steps[1..], s');
    }
  }
}
