/** How one entry object may change over time: only forwards. */
module CacheProgress {
  import opened Wrappers
  import opened RuntimeTable
  import opened CacheModel
  import opened CacheSystem
  import opened CacheProofs
  import opened CacheSteps
  import opened CacheBudget
  import opened CacheTheorems

  function Rank(st: RuntimeState): nat {
    match st
    case Loading => 0
    case Ready => 1
    case Invalid => 2
    case Retiring => 3
  }

  /** `y` is a later condition of the object that was `x`: a state it has left is
      never entered again, it keeps its generation, and once it is INVALID its
      lease count only falls. */
  predicate Forward(x: Entry, y: Entry) {
    && y.generation == x.generation && Rank(x.state) <= Rank(y.state)
    && (Rank(x.state) >= Rank(Invalid) ==> y.leases <= x.leases)
  }

  /** An object allocated before `c` is in `c'` only if it was in `c`, and further
      along; an object allocated since has a generation above all earlier ones of
      its id. */
  ghost predicate EntryProgress(c: Cache, k: string, y: Option<Entry>) {
    y.Some? ==>
      if y.value.serial < c.nextSerial then
        Find(c.entries, k).Some? && Find(c.entries, k).value.serial == y.value.serial && Forward(Find(c.entries, k).value, y.value)
      else k in c.lastGeneration ==> c.lastGeneration[k] < y.value.generation
  }

  ghost predicate Progress(c: Cache, c': Cache) {
    && c.nextSerial <= c'.nextSerial
    && (forall k :: k in c.lastGeneration ==> k in c'.lastGeneration && c.lastGeneration[k] <= c'.lastGeneration[k])
    && (forall k :: EntryProgress(c, k, Find(c'.entries, k)))
  }

  lemma ProgressRefl(c: Cache)
    requires WellFormed(c)
    ensures Progress(c, c)
  {
    forall k ensures EntryProgress(c, k, Find(c.entries, k)) {
      assert EntryOk(c, Find(c.entries, k));
    }
  }

  lemma ProgressTrans(c: Cache, c': Cache, c'': Cache)
    requires Progress(c, c') && Progress(c', c'')
    ensures Progress(c, c'')
  {
    forall k ensures EntryProgress(c, k, Find(c''.entries, k)) {
      assert EntryProgress(c', k, Find(c''.entries, k));
      assert EntryProgress(c, k, Find(c'.entries, k));
    }
  }

  lemma UpdateProgress(c: Cache, c': Cache, e: Entry)
    requires WellFormed(c) && UpdatesOne(c.entries, c'.entries, e)
    requires c.nextSerial <= c'.nextSerial
    requires forall k :: k in c.lastGeneration ==> k in c'.lastGeneration && c.lastGeneration[k] <= c'.lastGeneration[k]
    requires EntryProgress(c, e.id, Some(e))
    ensures Progress(c, c')
  {
    forall k ensures EntryProgress(c, k, Find(c'.entries, k)) {
      assert EntryOk(c, Find(c.entries, k));
    }
  }

  lemma RemoveProgress(c: Cache, id: string, serial: nat)
    requires WellFormed(c)
    ensures Progress(c, RemoveLocked(c, id, serial))
  {
    DropRemoves(c.entries, id);
    forall k ensures EntryProgress(c, k, Find(RemoveLocked(c, id, serial).entries, k)) {
      assert EntryOk(c, Find(c.entries, k));
    }
  }

  lemma RetireProgress(c: Cache, es': Table, marks: set<Ref>)
    requires WellFormed(c) && RetiresSome(c.entries, es', marks)
    ensures Progress(c, c.(entries := es'))
  {
    RetiresSomeLookups(c.entries, es', marks);
    forall k ensures EntryProgress(c, k, Find(es', k)) {
      assert EntryOk(c, Find(c.entries, k));
    }
  }

  lemma OverflowProgress(cfg: Config, c: Cache, b: string, exclude: Option<string>)
    requires WellFormed(c)
    ensures Progress(c, c.(entries := Overflow(cfg, c.entries, b, exclude)))
  {
    RetireFirstShape(c.entries, EvictableIn(b, exclude), Excess(cfg, c.entries, b));
    RetireProgress(c, Overflow(cfg, c.entries, b, exclude), Refs(OverflowVictims(cfg, c.entries, b, exclude)));
  }

  lemma RefreshProgress(c: Cache, e: Entry)
    requires WellFormed(c) && EntryProgress(c, e.id, Some(e))
    ensures Progress(c, c.(entries := Refresh(c.entries, e)))
  {
    RefreshUpdates(c.entries, e);
    UpdateProgress(c, c.(entries := Refresh(c.entries, e)), e);
  }

  lemma StoreProgress(c: Cache, e: Entry)
    requires WellFormed(c) && EntryProgress(c, e.id, Some(e)) && Find(c.entries, e.id).Some?
    ensures Progress(c, c.(entries := Store(c.entries, e)))
  {
    StoreUpdates(c.entries, e);
    UpdateProgress(c, c.(entries := Store(c.entries, e)), e);
  }

  lemma InsertProgress(c: Cache, id: string, bucket: string, st: RuntimeState, rt: Option<nat>)
    requires WellFormed(c)
    ensures Progress(c, Insert(c, id, bucket, st, rt))
  {
    var e := Entry(c.nextSerial, id, bucket, st, rt, 0, NextGeneration(c, id));
    RefreshUpdates(c.entries, e);
    UpdateProgress(c, Insert(c, id, bucket, st, rt), e);
  }

  lemma PutProgress(cfg: Config, s: System, id: string, rt: nat, bucket: string)
    requires Core(s) && Enabled(s, Put(id, rt, bucket))
    ensures Progress(s.cache, Apply(cfg, s, Put(id, rt, bucket)).cache)
  {
    var c := s.cache;
    ProgressRefl(c);
    if PutLocked(cfg, c, id, rt, bucket).PutDone? {
      var x := Find(c.entries, id);
      var mid: Cache;
      if x.Some? && x.value.runtime == Some(rt) {
        var e := x.value.(bucket := bucket);
        mid := c.(entries := Refresh(c.entries, e));
        assert EntryOk(c, x);
        RefreshProgress(c, e);
        RefreshUpdates(c.entries, e);
        RefreshIsDistinct(s, e);
        UpdateKeepsTable(c, mid, e);
      } else {
        mid := Insert(c, id, bucket, Ready, Some(rt));
        InsertProgress(c, id, bucket, Ready, Some(rt));
        InsertKeepsCore(s, id, bucket, Some(rt));
      }
      OverflowProgress(cfg, mid, bucket, Some(id));
      ProgressTrans(c, mid, mid.(entries := Overflow(cfg, mid.entries, bucket, Some(id))));
    }
  }

  lemma ReleaseProgress(cfg: Config, s: System, r: Ref)
    requires Core(s) && r in s.handles
    ensures Progress(s.cache, Apply(cfg, s, Release(r)).cache)
  {
    hide Core, Progress;
    var c := s.cache;
    CoreTable(s);
    ReleaseFindsItsLease(cfg, s, r);
    DecrementKeepsCore(s, r);
    Lookup(s, r.id);
    var x := Find(c.entries, r.id).value;
    var mid := c.(entries := Store(c.entries, x.(leases := x.leases - 1)));
    CoreTable(s.(cache := mid, handles := s.handles - multiset{r}, sleepers := map[]));
    StoreProgress(c, x.(leases := x.leases - 1));
    OverflowProgress(cfg, mid, x.bucket, None);
    ProgressTrans(c, mid, mid.(entries := Overflow(cfg, mid.entries, x.bucket, None)));
  }

  lemma AcquireProgress(cfg: Config, s: System, id: string, bucket: string)
    requires Core(s)
    ensures Progress(s.cache, Apply(cfg, s, Acquire(id, bucket)).cache)
    ensures Progress(s.cache, Apply(cfg, s, AcquireAgain(id, bucket)).cache)
  {
    hide Core, Progress;
    assert WellFormed(s.cache) && Distinct(s.cache.entries) by { CoreTable(s); }
    ProgressRefl(s.cache);
    InsertProgress(s.cache, id, bucket, Loading, None);
    var o := AcquireFirst(cfg, s.cache, id, bucket);
    if o.Hit? {
      Lookup(s, id);
      RefreshProgress(s.cache, o.entry);
    } else if o.MustRetire? {
      AfterVictimIsDrop(cfg, s.cache, id, bucket);
      StoreRetires(s.cache.entries, o.victim);
      RetireProgress(s.cache, Store(s.cache.entries, Retired(o.victim)), {RefOf(o.victim)});
    }
  }

  lemma CoreTable(s: System)
    requires Core(s)
    ensures WellFormed(s.cache)
  {
  }

  lemma EditProgress(cfg: Config, s: System, step: Step)
    requires Core(s) && Enabled(s, step)
    requires step.Get? || step.Invalidate? || step.Publish? || step.Unload? || step.UnloadAll?
    ensures Progress(s.cache, Apply(cfg, s, step).cache)
  {
    hide Core, Progress;
    CoreTable(s);
    ProgressRefl(s.cache);
    match step {
      case Get(id) =>
        if Find(s.cache.entries, id).Some? {
          Lookup(s, id);
          RefreshProgress(s.cache, Find(s.cache.entries, id).value);
        }
      case Invalidate(r) =>
        if At(s.cache.entries, r) && Find(s.cache.entries, r.id).value.state.Ready? {
          Lookup(s, r.id);
          StoreProgress(s.cache, Find(s.cache.entries, r.id).value.(state := Invalid));
        }
      case Publish(r, rt) =>
        if At(s.cache.entries, r) {
          HoldersAreCurrent(s, r);
          Lookup(s, r.id);
          RefreshProgress(s.cache, Find(s.cache.entries, r.id).value.(runtime := Some(rt), state := Ready, leases := 1));
        }
      case Unload(id) =>
        if Find(s.cache.entries, id).Some? && !BusyForUnload(Find(s.cache.entries, id).value) {
          var x := Find(s.cache.entries, id).value;
          StoreRetires(s.cache.entries, x);
          RetireProgress(s.cache, Store(s.cache.entries, Retired(x)), {RefOf(x)});
        }
      case UnloadAll =>
        if !AnyBusy(s.cache.entries) {
          AllRetiredShape(s.cache.entries);
          RetireProgress(s.cache, AllRetired(s.cache.entries), Refs(s.cache.entries));
        }
    }
  }

  lemma StepProgress(cfg: Config, s: System, step: Step)
    requires Core(s) && Enabled(s, step)
    ensures Progress(s.cache, Apply(cfg, s, step).cache)
  {
    hide Core, Progress;
    CoreTable(s);
    ProgressRefl(s.cache);
    match step {
      case Put(id, rt, bucket) => PutProgress(cfg, s, id, rt, bucket);
      case Acquire(id, bucket) => AcquireProgress(cfg, s, id, bucket);
      case AcquireAgain(id, bucket) => AcquireProgress(cfg, s, id, bucket);
      case Release(r) => ReleaseProgress(cfg, s, r);
      case Abort(r) => RemoveProgress(s.cache, r.id, r.serial);
      case Remove(r) => RemoveProgress(s.cache, r.id, r.serial);
      case CleanDisplaced(_) =>
      case DisposeUnpublished(_) =>
      case Clean(_) =>
      case Park(_, _) =>
      case _ => EditProgress(cfg, s, step);
    }
  }

  /** Over any run: an entry object only moves forward and never comes back once
      removed, and objects made later under the same id carry larger generations. */
  lemma {:induction false} RunProgress(cfg: Config, s: System, steps: seq<Step>, s': System)
    requires Inv(cfg, s) && Run(cfg, s, steps, s')
    ensures Progress(s.cache, s'.cache)
    decreases |steps|
  {
    if steps == [] {
      ProgressRefl(s.cache);
    } else {
      var mid := Apply(cfg, s, steps[0]);
      StepProgress(cfg, s, steps[0]);
      StepKeepsInv(cfg, s, steps[0]);
      RunProgress(cfg, mid, steps[1..], s');
      ProgressTrans(s.cache, mid.cache, s'.cache);
    }
  }
}
