/** "Least recently used" against the history of a run: the order of the table is
    the order of last uses. */
module CacheRecency {
  import opened Wrappers
  import opened RuntimeTable
  import opened CacheModel
  import opened CacheSystem
  import opened CacheBudget
  import opened CacheTheorems

  /** The id a step uses, if any: a hit, a put, a new reservation, a publication. */
  function Used(cfg: Config, s: System, step: Step): Option<string> {
    match step
    case Get(id) =>
      if Find(s.cache.entries, id).Some? && Find(s.cache.entries, id).value.state.Ready? then Some(id) else None
    case Put(id, rt, bucket) => if PutLocked(cfg, s.cache, id, rt, bucket).PutDone? then Some(id) else None
    case Acquire(id, bucket) =>
      var o := AcquireFirst(cfg, s.cache, id, bucket);
      if o.Hit? || o.Reserved? then Some(id) else None
    case AcquireAgain(id, bucket) => if AcquireSecond(cfg, s.cache, id, bucket).Reserved? then Some(id) else None
    case Publish(r, rt) => if Current(s.cache, r.id, r.serial) then Some(r.id) else None
    case _ => None
  }

  function UsedLog(o: Option<string>): seq<string> { if o.Some? then [o.value] else [] }

  /** All uses of a run, oldest first. */
  ghost function UseLog(cfg: Config, s: System, steps: seq<Step>): seq<string>
    decreases |steps|
  {
    if steps == [] || !Enabled(s, steps[0]) then []
    else UsedLog(Used(cfg, s, steps[0])) + UseLog(cfg, Apply(cfg, s, steps[0]), steps[1..])
  }

  /** Position of the last use of `id`, or -1. */
  function LastUse(log: seq<string>, id: string): int {
    if log == [] then -1
    else if log[|log| - 1] == id then |log| - 1
    else LastUse(log[..|log| - 1], id)
  }

  function Ids(es: Table): (r: seq<string>)
    ensures |r| == |es| && forall i :: 0 <= i < |es| ==> r[i] == es[i].id
  {
    seq(|es|, i requires 0 <= i < |es| => es[i].id)
  }

  ghost predicate InUseOrder(ids: seq<string>, log: seq<string>) {
    && (forall i :: 0 <= i < |ids| ==> LastUse(log, ids[i]) >= 0)
    && (forall i, j :: 0 <= i < j < |ids| ==> LastUse(log, ids[i]) < LastUse(log, ids[j]))
  }

  lemma LastUseBound(log: seq<string>, id: string)
    ensures -1 <= LastUse(log, id) < |log|
  {
  }

  lemma LastUseAppend(log: seq<string>, id: string, k: string)
    ensures LastUse(log + [id], k) == if k == id then |log| else LastUse(log, k)
  {
    assert (log + [id])[..|log|] == log;
  }

  lemma ConsInOrder(id: string, ids: seq<string>, log: seq<string>)
    requires InUseOrder(ids, log) && LastUse(log, id) >= 0
    requires forall j :: 0 <= j < |ids| ==> LastUse(log, id) < LastUse(log, ids[j])
    ensures InUseOrder([id] + ids, log)
  {
  }

  lemma TailInOrder(es: Table, log: seq<string>)
    requires es != [] && InUseOrder(Ids(es), log)
    ensures InUseOrder(Ids(es[1..]), log) && LastUse(log, es[0].id) >= 0
    ensures forall e :: e in es[1..] ==> LastUse(log, es[0].id) < LastUse(log, e.id)
  {
    var ids, rest := Ids(es), Ids(es[1..]);
    assert ids[0] == es[0].id;
    assert forall i :: 0 <= i < |rest| ==> rest[i] == ids[i + 1];
    forall e | e in es[1..] ensures LastUse(log, es[0].id) < LastUse(log, e.id) {
      var m :| 0 <= m < |es[1..]| && es[1..][m] == e;
      assert ids[m + 1] == e.id;
    }
  }

  lemma {:induction false} DropKeepsOrder(es: Table, id: string, log: seq<string>)
    requires InUseOrder(Ids(es), log)
    ensures InUseOrder(Ids(Drop(es, id)), log)
  {
    hide InUseOrder;
    if es != [] {
      TailInOrder(es, log);
      DropKeepsOrder(es[1..], id, log);
      if es[0].id != id {
        var tail := Drop(es[1..], id);
        DropMembers(es[1..], id);
        forall j | 0 <= j < |tail| ensures LastUse(log, es[0].id) < LastUse(log, Ids(tail)[j]) {
          assert tail[j] in es[1..];
        }
        ConsInOrder(es[0].id, Ids(tail), log);
        assert Ids(Drop(es, id)) == [es[0].id] + Ids(tail);
      }
    }
  }

  /** Using an id moves it, and only it, to the recent end. */
  lemma RefreshInOrder(es: Table, e: Entry, log: seq<string>)
    requires InUseOrder(Ids(es), log)
    ensures InUseOrder(Ids(Refresh(es, e)), log + [e.id])
  {
    DropKeepsOrder(es, e.id, log);
    DropMembers(es, e.id);
    var kept, ids := Ids(Drop(es, e.id)), Ids(Refresh(es, e));
    assert forall i :: 0 <= i < |kept| ==> ids[i] == kept[i];
    forall i | 0 <= i < |ids|
      ensures LastUse(log + [e.id], ids[i]) == if i < |kept| then LastUse(log, kept[i]) else |log|
    {
      LastUseAppend(log, e.id, ids[i]);
      if i < |kept| {
        assert Drop(es, e.id)[i] in Drop(es, e.id);
      }
    }
    forall i | 0 <= i < |kept| ensures LastUse(log, kept[i]) < |log| {
      LastUseBound(log, kept[i]);
    }
  }

  lemma SameIdsInOrder(es: Table, es': Table, log: seq<string>)
    requires InUseOrder(Ids(es), log) && |es'| == |es| && forall i :: 0 <= i < |es| ==> es'[i].id == es[i].id
    ensures InUseOrder(Ids(es'), log)
  {
    assert Ids(es') == Ids(es);
  }

  lemma ReleaseInOrder(cfg: Config, c: Cache, r: Ref, log: seq<string>)
    requires InUseOrder(Ids(c.entries), log) && Current(c, r.id, r.serial)
    ensures InUseOrder(Ids(ReleaseLocked(cfg, c, r.id, r.serial).cache.entries), log)
  {
    SameIdsInOrder(c.entries, ReleaseLocked(cfg, c, r.id, r.serial).cache.entries, log);
  }

  lemma PutInOrder(cfg: Config, c: Cache, id: string, rt: nat, bucket: string, log: seq<string>)
    requires InUseOrder(Ids(c.entries), log) && PutLocked(cfg, c, id, rt, bucket).PutDone?
    ensures InUseOrder(Ids(PutLocked(cfg, c, id, rt, bucket).cache.entries), log + [id])
  {
    var x := Find(c.entries, id);
    var e := if x.Some? && x.value.runtime == Some(rt) then x.value.(bucket := bucket)
             else Entry(c.nextSerial, id, bucket, Ready, Some(rt), 0, NextGeneration(c, id));
    RefreshInOrder(c.entries, e, log);
    SameIdsInOrder(Refresh(c.entries, e), PutLocked(cfg, c, id, rt, bucket).cache.entries, log + [id]);
  }

  lemma AcquireInOrder(cfg: Config, c: Cache, id: string, bucket: string, log: seq<string>, o: AcquireOutcome)
    requires Distinct(c.entries) && InUseOrder(Ids(c.entries), log)
    requires o == AcquireFirst(cfg, c, id, bucket) || o == AcquireSecond(cfg, c, id, bucket)
    ensures o.Hit? || o.Reserved? ==> InUseOrder(Ids(o.cache.entries), log + [id])
    ensures o.MustRetire? ==> InUseOrder(Ids(o.cache.entries), log)
  {
    if o.Hit? {
      RefreshInOrder(c.entries, o.entry, log);
    } else if o.Reserved? {
      RefreshInOrder(c.entries, o.entry, log);
    } else if o.MustRetire? {
      AfterVictimIsDrop(cfg, c, id, bucket);
      SameIdsInOrder(c.entries, o.cache.entries, log);
    }
  }

  lemma StepInOrder(cfg: Config, s: System, step: Step, log: seq<string>)
    requires Inv(cfg, s) && Enabled(s, step) && InUseOrder(Ids(s.cache.entries), log)
    ensures InUseOrder(Ids(Apply(cfg, s, step).cache.entries), log + UsedLog(Used(cfg, s, step)))
  {
    hide Inv, InUseOrder, Ids;
    var es := s.cache.entries;
    InvDistinct(cfg, s);
    assert log + [] == log;
    match step {
      case Get(id) =>
        if Used(cfg, s, step).Some? { RefreshInOrder(es, Find(es, id).value, log); }
      case Put(id, rt, bucket) =>
        if Used(cfg, s, step).Some? { PutInOrder(cfg, s.cache, id, rt, bucket, log); }
      case Acquire(id, bucket) => AcquireInOrder(cfg, s.cache, id, bucket, log, AcquireFirst(cfg, s.cache, id, bucket));
      case AcquireAgain(id, bucket) => AcquireInOrder(cfg, s.cache, id, bucket, log, AcquireSecond(cfg, s.cache, id, bucket));
      case Publish(r, rt) =>
        if Used(cfg, s, step).Some? {
          RefreshInOrder(es, Find(es, r.id).value.(runtime := Some(rt), state := Ready, leases := 1), log);
        }
      case Abort(r) => DropKeepsOrder(es, r.id, log);
      case Remove(r) => DropKeepsOrder(es, r.id, log);
      case Release(r) =>
        if Current(s.cache, r.id, r.serial) { ReleaseInOrder(cfg, s.cache, r, log); }
      case Invalidate(r) => SameIdsInOrder(es, InvalidateLocked(s.cache, r.id, r.serial).entries, log);
      case Unload(id) => SameIdsInOrder(es, UnloadLocked(s.cache, id).entries, log);
      case UnloadAll => SameIdsInOrder(es, UnloadAllLocked(s.cache).entries, log);
      case CleanDisplaced(_) =>
      case DisposeUnpublished(_) =>
      case Clean(_) =>
      case Park(_, _) =>
    }
  }

  lemma {:induction false} RunInOrder(cfg: Config, s: System, steps: seq<Step>, s': System, log: seq<string>)
    requires Inv(cfg, s) && Run(cfg, s, steps, s') && InUseOrder(Ids(s.cache.entries), log)
    ensures InUseOrder(Ids(s'.cache.entries), log + UseLog(cfg, s, steps))
    decreases |steps|
  {
    hide Inv, InUseOrder, Ids, Apply, Used;
    if steps == [] {
      assert log + [] == log;
    } else {
      var mid := Apply(cfg, s, steps[0]);
      var log' := log + UsedLog(Used(cfg, s, steps[0]));
      StepInOrder(cfg, s, steps[0], log);
      StepKeepsInv(cfg, s, steps[0]);
      RunInOrder(cfg, mid, steps[1..], s', log');
      assert log' + UseLog(cfg, mid, steps[1..]) == log + UseLog(cfg, s, steps);
    }
  }

  /** In any run, what an overflow pass retires was last used before every idle
      entry of the bucket that it spares, the excluded one aside. */
  lemma EvictionIsLeastRecentlyUsed(cfg: Config, steps: seq<Step>, s: System, b: string, exclude: Option<string>,
                                    victim: Entry, spared: Entry)
    requires Run(cfg, Initial(), steps, s)
    requires victim in OverflowVictims(cfg, s.cache.entries, b, exclude)
    requires spared in s.cache.entries && EvictableIn(b, exclude)(spared)
    requires spared !in OverflowVictims(cfg, s.cache.entries, b, exclude)
    ensures var log := UseLog(cfg, Initial(), steps);
      0 <= LastUse(log, victim.id) < LastUse(log, spared.id)
  {
    hide Inv, Run, Overflow, OverflowVictims;
    var log := UseLog(cfg, Initial(), steps);
    var es := s.cache.entries;
    InitialInv(cfg);
    RunKeepsInv(cfg, Initial(), steps, s);
    RunInOrder(cfg, Initial(), steps, s, []);
    assert [] + log == log;
    InvDistinct(cfg, s);
    OverflowIsExact(cfg, es, b, exclude);
    var i :| 0 <= i < |es| && es[i] == victim;
    var j :| 0 <= j < |es| && es[j] == spared;
    assert i < j;
    assert Ids(es)[i] == victim.id && Ids(es)[j] == spared.id;
  }
}
