/** The runtime cache over whole runs. */
module CacheTheorems {
  import opened Wrappers
  import opened RuntimeTable
  import opened CacheModel
  import opened CacheSystem
  import opened CacheProofs
  import opened CacheSteps
  import opened CacheBudget

  // --------------------------------------------------------- single steps

  lemma InvDistinct(cfg: Config, s: System)
    requires Inv(cfg, s)
    ensures Distinct(s.cache.entries)
  {
  }

  /** Adding or moving an entry `e` to its bucket, then the overflow pass there. */
  lemma SettleKeepsInv(cfg: Config, es: Table, mid: System, e: Entry)
    requires Distinct(es) && BudgetsKept(cfg, es)
    requires Core(mid) && mid.cache.entries == Refresh(es, e)
    ensures Inv(cfg, Marking(mid, Overflow(cfg, mid.cache.entries, e.bucket, Some(e.id)),
                             Refs(OverflowVictims(cfg, mid.cache.entries, e.bucket, Some(e.id)))))
  {
    OverflowKeepsCore(cfg, mid, e.bucket, Some(e.id));
    forall b ensures BucketFits(cfg, Overflow(cfg, mid.cache.entries, e.bucket, Some(e.id)), b) {
      assert BucketFits(cfg, es, b);
      if b != e.bucket {
        RefreshFits(cfg, es, e, b);
      }
      OverflowFits(cfg, mid.cache.entries, e.bucket, Some(e.id), b);
    }
  }

  /** `put` of the runtime the entry already holds moves the entry. */
  lemma PutSameKeepsInv(cfg: Config, s: System, id: string, rt: nat, bucket: string)
    requires Inv(cfg, s) && Enabled(s, Put(id, rt, bucket)) && PutLocked(cfg, s.cache, id, rt, bucket).PutDone?
    requires var x := Find(s.cache.entries, id); x.Some? && x.value.runtime == Some(rt)
    ensures Inv(cfg, Apply(cfg, s, Put(id, rt, bucket)))
  {
    var es := s.cache.entries;
    var e := Find(es, id).value.(bucket := bucket);
    var mid := s.(cache := s.cache.(entries := Refresh(es, e)));
    assert Core(mid) by {
      RefreshUpdates(es, e);
      RefreshIsDistinct(s, e);
      HeldRefreshSame(es, e, s.swept);
      RewriteKeepsCore(s, Refresh(es, e), e);
    }
    PresentRuntimeWasIntroduced(s, id, rt);
    assert s.introduced + {rt} == s.introduced;
    assert s.displaced + AsMultiset(None) == s.displaced;
    SettleKeepsInv(cfg, es, mid, e);
  }

  /** `put` of a new runtime replaces what was there, if anything. */
  lemma PutNewKeepsInv(cfg: Config, s: System, id: string, rt: nat, bucket: string)
    requires Inv(cfg, s) && rt !in s.introduced && PutLocked(cfg, s.cache, id, rt, bucket).PutDone?
    requires var x := Find(s.cache.entries, id); x.Some? ==> x.value.runtime != Some(rt)
    ensures Inv(cfg, Apply(cfg, s, Put(id, rt, bucket)))
  {
    var x := Find(s.cache.entries, id);
    var out := if x.Some? then x.value.runtime else None;
    var e := Entry(s.cache.nextSerial, id, bucket, Ready, Some(rt), 0, NextGeneration(s.cache, id));
    var mid := s.(cache := Insert(s.cache, id, bucket, Ready, Some(rt)),
                  displaced := s.displaced + AsMultiset(out), introduced := s.introduced + {rt});
    assert Core(mid) by { InsertKeepsCore(s, id, bucket, Some(rt)); }
    SettleKeepsInv(cfg, s.cache.entries, mid, e);
  }

  lemma PutKeepsInv(cfg: Config, s: System, id: string, rt: nat, bucket: string)
    requires Inv(cfg, s) && Enabled(s, Put(id, rt, bucket))
    ensures Inv(cfg, Apply(cfg, s, Put(id, rt, bucket)))
  {
    hide Inv;
    if PutLocked(cfg, s.cache, id, rt, bucket).PutDone? {
      if Find(s.cache.entries, id).Some? && Find(s.cache.entries, id).value.runtime == Some(rt) {
        PutSameKeepsInv(cfg, s, id, rt, bucket);
      } else {
        PutNewKeepsInv(cfg, s, id, rt, bucket);
      }
    }
  }

  lemma PresentRuntimeWasIntroduced(s: System, id: string, rt: nat)
    requires Core(s) && Find(s.cache.entries, id).Some? && Find(s.cache.entries, id).value.runtime == Some(rt)
    requires !Find(s.cache.entries, id).value.state.Retiring?
    ensures rt in s.introduced
  {
    var x := Find(s.cache.entries, id).value;
    Lookup(s, id);
    HeldDrop(s.cache.entries, x, s.swept);
    assert rt in Held(s.cache.entries, s.swept);
    assert multiset(s.introduced)[rt] > 0;
  }

  lemma RetireOneKeepsInv(cfg: Config, s: System, v: Entry)
    requires Inv(cfg, s) && v in s.cache.entries && Idle(v)
    ensures Inv(cfg, Marking(s, Store(s.cache.entries, Retired(v)), {RefOf(v)}))
  {
    var es := s.cache.entries;
    StoreRetires(es, v);
    RetireKeepsCore(s, Store(es, Retired(v)), {RefOf(v)});
    FindIs(es, v);
    forall b ensures BucketFits(cfg, Store(es, Retired(v)), b) {
      assert BucketFits(cfg, es, b);
      StoreFits(cfg, es, Retired(v), b);
    }
  }

  lemma ReserveKeepsInv(cfg: Config, s: System, id: string, bucket: string, o: AcquireOutcome)
    requires Inv(cfg, s) && o.Reserved?
    requires o == AcquireFirst(cfg, s.cache, id, bucket) || o == AcquireSecond(cfg, s.cache, id, bucket)
    ensures Inv(cfg, s.(cache := o.cache, reservations := s.reservations + {RefOf(o.entry)}))
  {
    hide Core, AcquireFirst, AcquireSecond;
    assert o in [AcquireFirst(cfg, s.cache, id, bucket), AcquireSecond(cfg, s.cache, id, bucket)];
    InvDistinct(cfg, s);
    ReservationsEnterWithRoom(cfg, s.cache, id, bucket);
    InsertKeepsCore(s, id, bucket, None);
    assert s.displaced + AsMultiset(None) == s.displaced;
    forall b ensures BucketFits(cfg, o.cache.entries, b) {
      assert BucketFits(cfg, s.cache.entries, b);
      CountAppend(s.cache.entries, o.entry, LiveIn(b));
      CountAppend(s.cache.entries, o.entry, IdleIn(b));
      OccupancySplits(o.cache.entries, b);
    }
  }

  lemma HitKeepsInv(cfg: Config, s: System, id: string)
    requires Inv(cfg, s) && Find(s.cache.entries, id).Some? && Find(s.cache.entries, id).value.state.Ready?
    ensures var x := Find(s.cache.entries, id).value;
      var e := x.(leases := x.leases + 1);
      Inv(cfg, s.(cache := s.cache.(entries := Refresh(s.cache.entries, e)), handles := s.handles + multiset{RefOf(e)}))
  {
    HitKeepsCore(s, id);
    var es := s.cache.entries;
    var x := Find(es, id).value;
    var e := x.(leases := x.leases + 1);
    forall b ensures BucketFits(cfg, Refresh(es, e), b) {
      assert BucketFits(cfg, es, b);
      RefreshFits(cfg, es, e, b);
    }
  }

  lemma VictimKeepsInv(cfg: Config, s: System, id: string, bucket: string, o: AcquireOutcome)
    requires Inv(cfg, s) && o == AcquireFirst(cfg, s.cache, id, bucket) && o.MustRetire?
    ensures Inv(cfg, s.(cache := o.cache, marked := s.marked + {RefOf(o.victim)}))
  {
    hide Inv, AcquireFirst;
    InvDistinct(cfg, s);
    AfterVictimIsDrop(cfg, s.cache, id, bucket);
    RetireOneKeepsInv(cfg, s, o.victim);
  }

  lemma AcquireKeepsInv(cfg: Config, s: System, id: string, bucket: string)
    requires Inv(cfg, s)
    ensures Inv(cfg, Apply(cfg, s, Acquire(id, bucket)))
  {
    hide Inv;
    var o := AcquireFirst(cfg, s.cache, id, bucket);
    if o.Reserved? {
      ReserveKeepsInv(cfg, s, id, bucket, o);
    } else if o.MustRetire? {
      VictimKeepsInv(cfg, s, id, bucket, o);
    } else if o.Hit? {
      HitKeepsInv(cfg, s, id);
    }
  }

  lemma AcquireAgainKeepsInv(cfg: Config, s: System, id: string, bucket: string)
    requires Inv(cfg, s)
    ensures Inv(cfg, Apply(cfg, s, AcquireAgain(id, bucket)))
  {
    var o := AcquireSecond(cfg, s.cache, id, bucket);
    if o.Reserved? {
      ReserveKeepsInv(cfg, s, id, bucket, o);
    }
  }

  lemma ReleaseKeepsInv(cfg: Config, s: System, r: Ref)
    requires Inv(cfg, s) && Enabled(s, Release(r))
    ensures Inv(cfg, Apply(cfg, s, Release(r)))
  {
    ReleaseKeepsCore(cfg, s, r);
    ReleaseFindsItsLease(cfg, s, r);
    ReleaseKeepsBudgets(cfg, s.cache, r);
  }

  lemma ReleaseKeepsBudgets(cfg: Config, c: Cache, r: Ref)
    requires Distinct(c.entries) && BudgetsKept(cfg, c.entries)
    requires Current(c, r.id, r.serial) && Find(c.entries, r.id).value.leases > 0
    ensures BudgetsKept(cfg, ReleaseLocked(cfg, c, r.id, r.serial).cache.entries)
  {
    var x := Find(c.entries, r.id).value;
    var e := x.(leases := x.leases - 1);
    StoreDistinct(c.entries, x, e);
    forall b ensures BucketFits(cfg, ReleaseLocked(cfg, c, r.id, r.serial).cache.entries, b) {
      assert BucketFits(cfg, c.entries, b);
      if e.leases > 0 || b != x.bucket {
        StoreFits(cfg, c.entries, e, b);
      }
      if e.leases == 0 {
        OverflowFits(cfg, Store(c.entries, e), x.bucket, None, b);
      }
    }
  }

  lemma UnloadAllKeepsInv(cfg: Config, s: System)
    requires Inv(cfg, s)
    ensures Inv(cfg, Apply(cfg, s, UnloadAll))
  {
    if !AnyBusy(s.cache.entries) {
      AllRetiredShape(s.cache.entries);
      RetireKeepsCore(s, AllRetired(s.cache.entries), Refs(s.cache.entries));
      forall b ensures BucketFits(cfg, AllRetired(s.cache.entries), b) {
        AllRetiredEmpty(s.cache.entries, b);
      }
    }
  }

  lemma PublishKeepsInv(cfg: Config, s: System, r: Ref, rt: nat)
    requires Inv(cfg, s) && Enabled(s, Publish(r, rt))
    ensures Inv(cfg, Apply(cfg, s, Publish(r, rt)))
  {
    PublishKeepsCore(cfg, s, r, rt);
    HoldersAreCurrent(s, r);
    Lookup(s, r.id);
    var e := Find(s.cache.entries, r.id).value.(runtime := Some(rt), state := Ready, leases := 1);
    forall b ensures BucketFits(cfg, Refresh(s.cache.entries, e), b) {
      assert BucketFits(cfg, s.cache.entries, b);
      RefreshFits(cfg, s.cache.entries, e, b);
    }
  }

  lemma RemovalKeepsBudgets(cfg: Config, c: Cache, id: string, serial: nat)
    requires Distinct(c.entries) && BudgetsKept(cfg, c.entries)
    ensures BudgetsKept(cfg, RemoveLocked(c, id, serial).entries)
  {
    forall b ensures BucketFits(cfg, RemoveLocked(c, id, serial).entries, b) {
      assert BucketFits(cfg, c.entries, b);
      DropFits(cfg, c.entries, id, b);
    }
  }

  lemma TouchesKeepInv(cfg: Config, s: System, id: string, r: Ref)
    requires Inv(cfg, s)
    ensures Inv(cfg, Apply(cfg, s, Get(id)))
    ensures Inv(cfg, Apply(cfg, s, Invalidate(r)))
  {
    GetKeepsCore(s, id);
    InvalidateKeepsCore(s, r);
    forall b
      ensures BucketFits(cfg, GetLocked(s.cache, id).entries, b)
      ensures BucketFits(cfg, InvalidateLocked(s.cache, r.id, r.serial).entries, b)
    {
      assert BucketFits(cfg, s.cache.entries, b);
      if Find(s.cache.entries, id).Some? {
        RefreshFits(cfg, s.cache.entries, Find(s.cache.entries, id).value, b);
      }
      if Find(s.cache.entries, r.id).Some? && Find(s.cache.entries, r.id).value.state.Ready? {
        StoreFits(cfg, s.cache.entries, Find(s.cache.entries, r.id).value.(state := Invalid), b);
      }
    }
  }

  lemma MoveOver(h: multiset<nat>, displaced: multiset<nat>, cleaned: multiset<nat>, rt: nat)
    requires rt in displaced
    ensures h + (displaced - multiset{rt}) + (cleaned + multiset{rt}) == h + displaced + cleaned
  {
    assert (displaced - multiset{rt}) + multiset{rt} == displaced;
  }

  lemma DisposeKeepsCore(cfg: Config, s: System, step: Step)
    requires Core(s) && Enabled(s, step) && (step.CleanDisplaced? || step.DisposeUnpublished?)
    ensures Core(Apply(cfg, s, step))
  {
    assert Conserved(Apply(cfg, s, step)) by {
      if step.CleanDisplaced? {
        MoveOver(Held(s.cache.entries, s.swept), s.displaced, s.cleaned, step.rt);
      } else {
        assert multiset(s.introduced + {step.rt}) == multiset(s.introduced) + multiset{step.rt};
      }
    }
  }

  /** Steps that leave the table alone. */
  lemma QuietStepKeepsInv(cfg: Config, s: System, step: Step)
    requires Inv(cfg, s) && Enabled(s, step)
    requires step.CleanDisplaced? || step.DisposeUnpublished? || step.Clean? || step.Park?
    ensures Inv(cfg, Apply(cfg, s, step))
  {
    if step.Clean? {
      CleanKeepsCore(cfg, s, step.ref);
    } else if !step.Park? {
      DisposeKeepsCore(cfg, s, step);
    }
  }

  lemma RemovalKeepsInv(cfg: Config, s: System, r: Ref)
    requires Inv(cfg, s)
    ensures r in s.reservations ==> Inv(cfg, Apply(cfg, s, Abort(r)))
    ensures r in s.swept ==> Inv(cfg, Apply(cfg, s, Remove(r)))
  {
    hide Core, BudgetsKept;
    InvDistinct(cfg, s);
    RemovalKeepsBudgets(cfg, s.cache, r.id, r.serial);
    if r in s.reservations {
      AbortKeepsCore(cfg, s, r);
    }
    if r in s.swept {
      RemoveKeepsCore(cfg, s, r);
    }
  }

  lemma UnloadKeepsInv(cfg: Config, s: System, id: string)
    requires Inv(cfg, s)
    ensures Inv(cfg, Apply(cfg, s, Unload(id)))
  {
    hide Inv;
    if Find(s.cache.entries, id).Some? && !BusyForUnload(Find(s.cache.entries, id).value) {
      RetireOneKeepsInv(cfg, s, Find(s.cache.entries, id).value);
    }
  }

  /** Every step every caller or operation may take keeps the invariant. */
  lemma StepKeepsInv(cfg: Config, s: System, step: Step)
    requires Inv(cfg, s) && Enabled(s, step)
    ensures Inv(cfg, Apply(cfg, s, step))
  {
    hide Inv, Apply;
    match step {
      case Get(id) => TouchesKeepInv(cfg, s, id, Ref(id, 0));
      case Put(id, rt, bucket) => PutKeepsInv(cfg, s, id, rt, bucket);
      case CleanDisplaced(_) => QuietStepKeepsInv(cfg, s, step);
      case DisposeUnpublished(_) => QuietStepKeepsInv(cfg, s, step);
      case Unload(id) => UnloadKeepsInv(cfg, s, id);
      case UnloadAll => UnloadAllKeepsInv(cfg, s);
      case Acquire(id, bucket) => AcquireKeepsInv(cfg, s, id, bucket);
      case AcquireAgain(id, bucket) => AcquireAgainKeepsInv(cfg, s, id, bucket);
      case Publish(r, rt) => PublishKeepsInv(cfg, s, r, rt);
      case Abort(r) => RemovalKeepsInv(cfg, s, r);
      case Release(r) => ReleaseKeepsInv(cfg, s, r);
      case Invalidate(r) => TouchesKeepInv(cfg, s, r.id, r);
      case Clean(r) => QuietStepKeepsInv(cfg, s, step);
      case Remove(r) => RemovalKeepsInv(cfg, s, r);
      case Park(w, r) => QuietStepKeepsInv(cfg, s, step);
    }
  }

  // ------------------------------------------------------------ whole runs

  lemma {:induction false} RunKeepsInv(cfg: Config, s: System, steps: seq<Step>, s': System)
    requires Inv(cfg, s) && Run(cfg, s, steps, s')
    ensures Inv(cfg, s')
    decreases |steps|
  {
    if steps != [] {
      StepKeepsInv(cfg, s, steps[0]);
      RunKeepsInv(cfg, Apply(cfg, s, steps[0]), steps[1..], s');
    }
  }

  ghost predicate Reachable(cfg: Config, s: System) {
    exists steps :: Run(cfg, Initial(), steps, s)
  }

  lemma InitialInv(cfg: Config)
    ensures Inv(cfg, Initial())
  {
  }

  lemma ReachableInv(cfg: Config, s: System)
    requires Reachable(cfg, s)
    ensures Inv(cfg, s)
  {
    var steps :| Run(cfg, Initial(), steps, s);
    RunKeepsInv(cfg, Initial(), steps, s);
  }
}
