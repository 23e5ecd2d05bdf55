/** Every step of the system keeps the core invariant. */
module CacheSteps {
  import opened Wrappers
  import opened RuntimeTable
  import opened CacheModel
  import opened CacheSystem
  import opened CacheProofs

  /** What the invariant says about the entry found under `k`, spelled out. */
  lemma Lookup(s: System, k: string)
    requires Core(s) && Find(s.cache.entries, k).Some?
    ensures var e := Find(s.cache.entries, k).value;
      && EntryOk(s.cache, Some(e)) && LeaseOk(s.handles, Some(e)) && e in s.cache.entries && e.id == k
      && (e.state.Loading? <==> RefOf(e) in s.reservations)
      && (e.state.Retiring? <==> RefOf(e) in s.marked + s.swept)
  {
    var e := Find(s.cache.entries, k).value;
    assert EntryOk(s.cache, Find(s.cache.entries, k));
    assert LeaseOk(s.handles, Find(s.cache.entries, k));
    assert RecordedIf(Find(s.cache.entries, k), Loading, s.reservations);
    assert RecordedIf(Find(s.cache.entries, k), Retiring, s.marked + s.swept);
  }

  /** A holder of an object holds the one currently in the table under its id. */
  lemma HoldersAreCurrent(s: System, r: Ref)
    requires Core(s)
    requires r in s.handles || r in s.reservations || r in s.marked || r in s.swept
    ensures At(s.cache.entries, r) && RefOf(Find(s.cache.entries, r.id).value) == r
    ensures r.serial < s.cache.nextSerial
  {
    if r in s.reservations {
      assert InState(s.cache.entries, r, Loading);
    } else if r in s.marked + s.swept {
      assert InState(s.cache.entries, r, Retiring);
    }
    Lookup(s, r.id);
  }

  /** All holders of `id` hold the same object, the one in the table. */
  ghost predicate OnlyHolds(s: System, id: string, r: Ref) {
    && (forall q: Ref :: q.id == id && q in s.handles ==> q == r)
    && (forall q: Ref :: q.id == id && q in s.reservations ==> q == r)
    && (forall q: Ref :: q.id == id && q in s.marked + s.swept ==> q == r)
  }

  lemma HoldersOf(s: System, id: string)
    requires Core(s) && Find(s.cache.entries, id).Some?
    ensures OnlyHolds(s, id, RefOf(Find(s.cache.entries, id).value))
  {
    var r := RefOf(Find(s.cache.entries, id).value);
    forall q: Ref | q.id == id && (q in s.handles || q in s.reservations || q in s.marked + s.swept) ensures q == r {
      HoldersAreCurrent(s, q);
    }
  }

  lemma RefreshIsDistinct(s: System, e: Entry)
    requires Core(s)
    requires e.serial == s.cache.nextSerial || (Find(s.cache.entries, e.id).Some? && Find(s.cache.entries, e.id).value.serial == e.serial)
    ensures Distinct(Refresh(s.cache.entries, e))
  {
    var es := s.cache.entries;
    forall x | x in es && x.id != e.id ensures x.serial != e.serial {
      FindIs(es, x);
      assert EntryOk(s.cache, Find(es, x.id));
      if e.serial != s.cache.nextSerial {
        var y := Find(es, e.id).value;
        var i :| 0 <= i < |es| && es[i] == x;
        var j :| 0 <= j < |es| && es[j] == y;
        assert i != j;
      }
    }
    RefreshDistinct(es, e);
  }

  // ------------------------------------------------- an entry is rewritten

  /** Rewriting an entry in place or at the end of the order, when neither the
      holders of its id nor the runtime it carries change. */
  lemma RewriteKeepsCore(s: System, es': Table, e: Entry)
    requires Core(s) && UpdatesOne(s.cache.entries, es', e) && Distinct(es')
    requires Held(es', s.swept) == Held(s.cache.entries, s.swept)
    requires Find(s.cache.entries, e.id).Some?
    requires var x := Find(s.cache.entries, e.id).value;
      && e == x.(bucket := e.bucket, state := e.state)
      && (e.state == x.state || (x.state.Ready? && e.state.Invalid?))
    ensures Core(s.(cache := s.cache.(entries := es')))
  {
    hide LeasesMatch, NoLostWakeup, ExactlyIn;
    var es := s.cache.entries;
    var s' := s.(cache := s.cache.(entries := es'));
    Lookup(s, e.id);
    HoldersOf(s, e.id);
    assert WellFormed(s'.cache) by { UpdateKeepsTable(s.cache, s'.cache, e); }
    assert LeasesMatch(s') by { UpdateKeepsLeases(s, s', e); }
    assert ReservationsMatch(s') by { UpdateKeepsExact(es, es', e, Loading, s.reservations, s.reservations); }
    assert RetirementsMatch(s') by {
      UpdateKeepsExact(es, es', e, Retiring, s.marked + s.swept, s.marked + s.swept);
    }
    assert NoLostWakeup(s') by { UpdateKeepsSleepers(s, s', e); }
  }

  lemma GetKeepsCore(s: System, id: string)
    requires Core(s)
    ensures Core(s.(cache := GetLocked(s.cache, id)))
  {
    var x := Find(s.cache.entries, id);
    if x.Some? && x.value.state.Ready? {
      RefreshUpdates(s.cache.entries, x.value);
      RefreshIsDistinct(s, x.value);
      HeldRefreshSame(s.cache.entries, x.value, s.swept);
      RewriteKeepsCore(s, Refresh(s.cache.entries, x.value), x.value);
    }
  }

  lemma StoreKeepsHeld(s: System, e: Entry)
    requires Core(s) && Find(s.cache.entries, e.id).Some?
    requires var x := Find(s.cache.entries, e.id).value; RefOf(x) == RefOf(e) && x.runtime == e.runtime
    ensures Held(Store(s.cache.entries, e), s.swept) == Held(s.cache.entries, s.swept)
    ensures Distinct(Store(s.cache.entries, e)) && UpdatesOne(s.cache.entries, Store(s.cache.entries, e), e)
  {
    var es := s.cache.entries;
    var x := Find(es, e.id).value;
    StoreDistinct(es, x, e);
    StoreUpdates(es, e);
    var j :| 0 <= j < |es| && es[j] == x;
    forall i | 0 <= i < |es|
      ensures RefOf(es[i]) == RefOf(Store(es, e)[i]) && es[i].runtime == Store(es, e)[i].runtime
    {
      if es[i].id == e.id {
        assert i == j;
      }
    }
    HeldSame(es, Store(es, e), s.swept);
  }

  lemma InvalidateKeepsCore(s: System, r: Ref)
    requires Core(s)
    ensures Core(s.(cache := InvalidateLocked(s.cache, r.id, r.serial)))
  {
    if At(s.cache.entries, r) {
      var x := Find(s.cache.entries, r.id).value;
      if x.state.Ready? {
        var e := x.(state := Invalid);
        StoreKeepsHeld(s, e);
        RewriteKeepsCore(s, Store(s.cache.entries, e), e);
      }
    }
  }

  // --------------------------------------------------- leases come and go

  /** The holders of one entry's id changed together with its lease count. */
  lemma RecountKeepsLeases(s: System, s': System, e: Entry)
    requires UpdatesOne(s.cache.entries, s'.cache.entries, e) && LeasesMatch(s)
    requires forall q: Ref :: q.id == e.id && q in s.handles ==> q == RefOf(e)
    requires e.state.Loading? || e.state.Retiring? ==> e.leases == 0
    requires s'.handles == s.handles[RefOf(e) := e.leases]
    ensures LeasesMatch(s')
  {
    UpdateKeepsLeases(s, s', e);
  }

  lemma LeaseKeepsCore(s: System, es': Table, e: Entry, handles': multiset<Ref>, sleepers': map<nat, Ref>)
    requires Core(s) && UpdatesOne(s.cache.entries, es', e) && Distinct(es')
    requires Held(es', s.swept) == Held(s.cache.entries, s.swept)
    requires Find(s.cache.entries, e.id).Some?
    requires var x := Find(s.cache.entries, e.id).value;
      e == x.(leases := e.leases) && (x.state.Ready? || x.state.Invalid?)
    requires handles' == s.handles[RefOf(e) := e.leases]
    requires sleepers' == map[] || (sleepers' == s.sleepers && e.leases > 0)
    ensures Core(s.(cache := s.cache.(entries := es'), handles := handles', sleepers := sleepers'))
  {
    hide LeasesMatch, NoLostWakeup, ExactlyIn;
    var es := s.cache.entries;
    var s' := s.(cache := s.cache.(entries := es'), handles := handles', sleepers := sleepers');
    Lookup(s, e.id);
    HoldersOf(s, e.id);
    assert WellFormed(s'.cache) by { UpdateKeepsTable(s.cache, s'.cache, e); }
    assert LeasesMatch(s') by { RecountKeepsLeases(s, s', e); }
    assert ReservationsMatch(s') by { UpdateKeepsExact(es, es', e, Loading, s.reservations, s.reservations); }
    assert RetirementsMatch(s') by {
      UpdateKeepsExact(es, es', e, Retiring, s.marked + s.swept, s.marked + s.swept);
    }
    assert NoLostWakeup(s') by { UpdateKeepsSleepers(s, s', e); }
  }

  /** A cache hit pins the entry it returns. */
  lemma HitKeepsCore(s: System, id: string)
    requires Core(s) && Find(s.cache.entries, id).Some? && Find(s.cache.entries, id).value.state.Ready?
    ensures var x := Find(s.cache.entries, id).value;
      var e := x.(leases := x.leases + 1);
      Core(s.(cache := s.cache.(entries := Refresh(s.cache.entries, e)), handles := s.handles + multiset{RefOf(e)}))
  {
    var x := Find(s.cache.entries, id).value;
    var e := x.(leases := x.leases + 1);
    Lookup(s, id);
    RefreshUpdates(s.cache.entries, e);
    RefreshIsDistinct(s, e);
    HeldRefreshSame(s.cache.entries, e, s.swept);
    assert s.handles + multiset{RefOf(e)} == s.handles[RefOf(e) := e.leases];
    LeaseKeepsCore(s, Refresh(s.cache.entries, e), e, s.handles + multiset{RefOf(e)}, s.sleepers);
  }

  /** In every state the invariant allows, a release finds its own entry and a
      positive count: neither the stale branch nor the clamp is taken. */
  lemma ReleaseFindsItsLease(cfg: Config, s: System, r: Ref)
    requires Core(s) && r in s.handles
    ensures Current(s.cache, r.id, r.serial) && ReleaseLocked(cfg, s.cache, r.id, r.serial).Released?
    ensures var x := Find(s.cache.entries, r.id).value;
      RefOf(x) == r && x.leases == s.handles[r] > 0 && (x.state.Ready? || x.state.Invalid?)
  {
    HoldersAreCurrent(s, r);
    Lookup(s, r.id);
  }

  /** The decrement of a release, before its overflow pass. */
  lemma DecrementKeepsCore(s: System, r: Ref)
    requires Core(s) && r in s.handles && At(s.cache.entries, r)
    ensures var x := Find(s.cache.entries, r.id).value;
      x.leases > 0 &&
      Core(s.(cache := s.cache.(entries := Store(s.cache.entries, x.(leases := x.leases - 1))),
              handles := s.handles - multiset{r}, sleepers := map[]))
  {
    HoldersAreCurrent(s, r);
    Lookup(s, r.id);
    var x := Find(s.cache.entries, r.id).value;
    var e := x.(leases := x.leases - 1);
    StoreKeepsHeld(s, e);
    assert s.handles - multiset{r} == s.handles[r := e.leases];
    LeaseKeepsCore(s, Store(s.cache.entries, e), e, s.handles - multiset{r}, map[]);
  }

  // ------------------------------------------------------ overflow passes

  lemma OverflowKeepsCore(cfg: Config, s: System, b: string, exclude: Option<string>)
    requires Core(s)
    ensures Core(Marking(s, Overflow(cfg, s.cache.entries, b, exclude), Refs(OverflowVictims(cfg, s.cache.entries, b, exclude))))
  {
    var es := s.cache.entries;
    RetireFirstShape(es, EvictableIn(b, exclude), Excess(cfg, es, b));
    RetireKeepsCore(s, Overflow(cfg, es, b, exclude), Refs(OverflowVictims(cfg, es, b, exclude)));
  }

  lemma ReleaseKeepsCore(cfg: Config, s: System, r: Ref)
    requires Core(s) && Enabled(s, Release(r))
    ensures Core(Apply(cfg, s, Release(r)))
  {
    hide Core;
    ReleaseFindsItsLease(cfg, s, r);
    DecrementKeepsCore(s, r);
    var x := Find(s.cache.entries, r.id).value;
    var es := Store(s.cache.entries, x.(leases := x.leases - 1));
    var mid := s.(cache := s.cache.(entries := es), handles := s.handles - multiset{r}, sleepers := map[]);
    if x.leases == 1 {
      OverflowKeepsCore(cfg, mid, x.bucket, None);
      assert Apply(cfg, s, Release(r)) == Marking(mid, Overflow(cfg, es, x.bucket, None), Refs(OverflowVictims(cfg, es, x.bucket, None)));
    } else {
      assert s.marked + Refs([]) == s.marked;
      assert Apply(cfg, s, Release(r)) == mid;
    }
  }

  // ----------------------------------------------------------- new entries

  /** Inserting a new object: a reservation, or a runtime put directly. */
  lemma InsertKeepsCore(s: System, id: string, bucket: string, rt: Option<nat>)
    requires Core(s)
    requires rt.Some? ==> rt.value !in s.introduced
    requires rt.None? ==> Find(s.cache.entries, id).None?
    requires Find(s.cache.entries, id).Some? ==> !BusyForUnload(Find(s.cache.entries, id).value)
    ensures var c := s.cache; var x := Find(c.entries, id);
      var out := if x.Some? then x.value.runtime else None;
      Core(s.(cache := Insert(c, id, bucket, if rt.Some? then Ready else Loading, rt),
              displaced := s.displaced + AsMultiset(out),
              introduced := if rt.Some? then s.introduced + {rt.value} else s.introduced,
              reservations := if rt.Some? then s.reservations else s.reservations + {Ref(id, c.nextSerial)}))
  {
    hide LeasesMatch, NoLostWakeup, ExactlyIn;
    var c := s.cache;
    var es := c.entries;
    var x := Find(es, id);
    var out := if x.Some? then x.value.runtime else None;
    var c' := Insert(c, id, bucket, if rt.Some? then Ready else Loading, rt);
    var e := Entry(c.nextSerial, id, bucket, if rt.Some? then Ready else Loading, rt, 0, NextGeneration(c, id));
    var s' := s.(cache := c', displaced := s.displaced + AsMultiset(out),
                 introduced := if rt.Some? then s.introduced + {rt.value} else s.introduced,
                 reservations := if rt.Some? then s.reservations else s.reservations + {Ref(id, c.nextSerial)});
    NewObjectIsUnknown(s, id);
    RefreshUpdates(es, e);
    assert Distinct(c'.entries) by { RefreshIsDistinct(s, e); }
    assert WellFormed(c') by { UpdateKeepsTable(c, c', e); }
    assert LeasesMatch(s') by { UpdateKeepsLeases(s, s', e); }
    assert ReservationsMatch(s') by {
      UpdateKeepsExact(es, c'.entries, e, Loading, s.reservations, s'.reservations);
    }
    assert RetirementsMatch(s') by {
      UpdateKeepsExact(es, c'.entries, e, Retiring, s.marked + s.swept, s.marked + s.swept);
    }
    assert NoLostWakeup(s') by { UpdateKeepsSleepers(s, s', e); }
    assert Conserved(s') by { InsertConserves(s, s', e, out); }
  }

  /** Nobody holds an idle entry, nor an object not yet allocated. */
  lemma NewObjectIsUnknown(s: System, id: string)
    requires Core(s) && (Find(s.cache.entries, id).Some? ==> !BusyForUnload(Find(s.cache.entries, id).value))
    ensures forall q: Ref :: q.id == id ==> q !in s.handles && q !in s.reservations && q !in s.marked && q !in s.swept
    ensures forall q: Ref :: q.id == id ==> !Blocks(s.cache.entries, q)
  {
    forall q: Ref | q.id == id ensures q !in s.handles && q !in s.reservations && q !in s.marked && q !in s.swept {
      if q in s.handles || q in s.reservations || q in s.marked || q in s.swept {
        HoldersAreCurrent(s, q);
        Lookup(s, id);
      }
    }
  }

  /** A runtime enters the table; the one that was there before, if any, moves on. */
  lemma InsertConserves(s: System, s': System, e: Entry, out: Option<nat>)
    requires Distinct(s.cache.entries) && Conserved(s)
    requires s'.cache.entries == Refresh(s.cache.entries, e) && RefOf(e) !in s.swept && s'.swept == s.swept
    requires var x := Find(s.cache.entries, e.id);
      (if x.Some? then RefOf(x.value) !in s.swept && out == x.value.runtime else out.None?)
    requires s'.displaced == s.displaced + AsMultiset(out) && s'.cleaned == s.cleaned
    requires e.runtime.Some? ==> e.runtime.value !in s.introduced
    requires s'.introduced == if e.runtime.Some? then s.introduced + {e.runtime.value} else s.introduced
    ensures Conserved(s')
  {
    HeldRefresh(s.cache.entries, e, s.swept);
    assert multiset(s'.introduced) == multiset(s.introduced) + AsMultiset(e.runtime);
    Exchange(Held(s.cache.entries, s.swept), Held(s'.cache.entries, s.swept), AsMultiset(out), AsMultiset(e.runtime),
             s.displaced, s.cleaned);
  }

  lemma Exchange(before: multiset<nat>, after: multiset<nat>, out: multiset<nat>, new': multiset<nat>,
                 displaced: multiset<nat>, cleaned: multiset<nat>)
    requires after + out == before + new'
    ensures after + (displaced + out) + cleaned == before + displaced + cleaned + new'
  {
    assert after + (displaced + out) + cleaned == (after + out) + displaced + cleaned;
    assert before + displaced + cleaned + new' == (before + new') + displaced + cleaned;
  }

  /** Publishing turns the reservation into a READY entry with one lease. */
  lemma PublishKeepsCore(cfg: Config, s: System, r: Ref, rt: nat)
    requires Core(s) && Enabled(s, Publish(r, rt))
    ensures PublishLocked(s.cache, r.id, r.serial, rt).Some?
    ensures Core(Apply(cfg, s, Publish(r, rt)))
  {
    hide LeasesMatch, NoLostWakeup, ExactlyIn;
    HoldersAreCurrent(s, r);
    Lookup(s, r.id);
    var es := s.cache.entries;
    var x := Find(es, r.id).value;
    var e := x.(runtime := Some(rt), state := Ready, leases := 1);
    var s' := Apply(cfg, s, Publish(r, rt));
    HoldersOf(s, r.id);
    RefreshUpdates(es, e);
    assert Distinct(s'.cache.entries) by { RefreshIsDistinct(s, e); }
    assert WellFormed(s'.cache) by { UpdateKeepsTable(s.cache, s'.cache, e); }
    assert LeasesMatch(s') by {
      assert s'.handles == s.handles[r := 1];
      RecountKeepsLeases(s, s', e);
    }
    assert ReservationsMatch(s') by {
      UpdateKeepsExact(es, s'.cache.entries, e, Loading, s.reservations, s'.reservations);
    }
    assert RetirementsMatch(s') by {
      UpdateKeepsExact(es, s'.cache.entries, e, Retiring, s.marked + s.swept, s.marked + s.swept);
    }
    assert NoLostWakeup(s') by { UpdateKeepsSleepers(s, s', e); }
    assert Conserved(s') by {
      InsertConserves(s, s', e, None);
    }
  }

  // -------------------------------------------------------------- removals

  lemma AbortKeepsCore(cfg: Config, s: System, r: Ref)
    requires Core(s) && Enabled(s, Abort(r))
    ensures Core(Apply(cfg, s, Abort(r)))
  {
    hide LeasesMatch, NoLostWakeup, ExactlyIn;
    HoldersAreCurrent(s, r);
    Lookup(s, r.id);
    var es := s.cache.entries;
    var x := Find(es, r.id).value;
    var s' := Apply(cfg, s, Abort(r));
    DropRemoves(es, r.id);
    DropDistinct(es, r.id);
    HoldersOf(s, r.id);
    RemoveKeepsTable(s.cache, s'.cache, r.id);
    RemoveKeepsLeases(s, s', r.id);
    RemoveKeepsExact(es, s'.cache.entries, r.id, Loading, s.reservations, s'.reservations);
    RemoveKeepsExact(es, s'.cache.entries, r.id, Retiring, s.marked + s.swept, s.marked + s.swept);
    RemoveKeepsSleepers(s, s', r.id);
    HeldDrop(es, x, s.swept);
  }

  lemma CleanConserves(s: System, s': System, x: Entry)
    requires Distinct(s.cache.entries) && Conserved(s) && x in s.cache.entries && RefOf(x) !in s.swept
    requires s' == s.(marked := s.marked - {RefOf(x)}, swept := s.swept + {RefOf(x)}, cleaned := s.cleaned + AsMultiset(x.runtime))
    ensures Conserved(s')
  {
    HeldSweep(s.cache.entries, s.swept, x);
    var rest, m := Held(s.cache.entries, s'.swept), AsMultiset(x.runtime);
    assert rest + s.displaced + (s.cleaned + m) == (rest + m) + s.displaced + s.cleaned;
  }

  lemma CleanKeepsCore(cfg: Config, s: System, r: Ref)
    requires Core(s) && Enabled(s, Clean(r))
    ensures Core(Apply(cfg, s, Clean(r)))
  {
    HoldersAreCurrent(s, r);
    var s' := Apply(cfg, s, Clean(r));
    assert Conserved(s') by { CleanConserves(s, s', Find(s.cache.entries, r.id).value); }
    assert s'.marked + s'.swept == s.marked + s.swept;
  }

  lemma RemoveKeepsCore(cfg: Config, s: System, r: Ref)
    requires Core(s) && Enabled(s, Remove(r))
    ensures Core(Apply(cfg, s, Remove(r)))
    ensures !At(Apply(cfg, s, Remove(r)).cache.entries, r)
  {
    hide LeasesMatch, NoLostWakeup, ExactlyIn;
    HoldersAreCurrent(s, r);
    Lookup(s, r.id);
    var es := s.cache.entries;
    var x := Find(es, r.id).value;
    var s' := Apply(cfg, s, Remove(r));
    DropRemoves(es, r.id);
    DropDistinct(es, r.id);
    HoldersOf(s, r.id);
    RemoveKeepsTable(s.cache, s'.cache, r.id);
    RemoveKeepsLeases(s, s', r.id);
    RemoveKeepsExact(es, s'.cache.entries, r.id, Loading, s.reservations, s.reservations);
    RemoveKeepsExact(es, s'.cache.entries, r.id, Retiring, s.marked + s.swept, s'.marked + s'.swept);
    RemoveKeepsSleepers(s, s', r.id);
    HeldDrop(es, x, s.swept);
    DropMembers(es, r.id);
    HeldUnswept(s'.cache.entries, s.swept, r);
  }
}
