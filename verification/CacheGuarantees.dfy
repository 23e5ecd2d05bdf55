/** What callers of the runtime cache may rely on, in every reachable state. */
module CacheGuarantees {
  import opened Wrappers
  import opened RuntimeTable
  import opened CacheModel
  import opened CacheSystem
  import opened CacheProofs
  import opened CacheSteps
  import opened CacheTheorems
  import opened CacheProgress

  lemma {:induction false} HeldOf(es: Table, swept: set<Ref>, e: Entry)
    requires e in es && RefOf(e) !in swept && e.runtime.Some?
    ensures e.runtime.value in Held(es, swept)
  {
    if es[0] != e {
      HeldOf(es[1..], swept, e);
    }
  }

  lemma {:induction false} HeldTwice(es: Table, swept: set<Ref>, i: nat, j: nat)
    requires i < j < |es| && RefOf(es[i]) !in swept && RefOf(es[j]) !in swept
    requires es[i].runtime.Some? && es[i].runtime == es[j].runtime
    ensures Held(es, swept)[es[i].runtime.value] >= 2
  {
    if i == 0 {
      HeldOf(es[1..], swept, es[j]);
    } else {
      HeldTwice(es[1..], swept, i - 1, j - 1);
    }
  }

  /** A leased runtime is safe: the lease is on the entry the table holds, that
      entry counts exactly the outstanding leases, is neither retiring nor gone,
      and its runtime has not been given to the cleanup hook nor is about to be. */
  lemma LeasedRuntimesAreSafe(cfg: Config, s: System, r: Ref)
    requires Reachable(cfg, s) && r in s.handles
    ensures At(s.cache.entries, r)
    ensures var e := Find(s.cache.entries, r.id).value;
      && e.leases == s.handles[r] > 0
      && (e.state.Ready? || e.state.Invalid?) && r !in s.marked && r !in s.swept
      && e.runtime.Some? && e.runtime.value !in s.cleaned && e.runtime.value !in s.displaced
  {
    ReachableInv(cfg, s);
    ReleaseFindsItsLease(cfg, s, r);
    Lookup(s, r.id);
    var e := Find(s.cache.entries, r.id).value;
    HeldOf(s.cache.entries, s.swept, e);
    OnceOnly(Held(s.cache.entries, s.swept), s.displaced, s.cleaned, s.introduced, e.runtime.value);
  }

  /** Every share of a conserved total is at most one. */
  lemma OnceOnly(held: multiset<nat>, displaced: multiset<nat>, cleaned: multiset<nat>, total: set<nat>, rt: nat)
    requires held + displaced + cleaned == multiset(total)
    ensures held[rt] + displaced[rt] + cleaned[rt] == if rt in total then 1 else 0
  {
    assert (held + displaced + cleaned)[rt] == held[rt] + displaced[rt] + cleaned[rt];
  }

  /** Conservation: a runtime ever given to the cache is in exactly one uncleaned
      table entry, or waiting for one cleanup, or cleaned once; never two of these. */
  lemma RuntimesAreConserved(cfg: Config, s: System, rt: nat)
    requires Reachable(cfg, s)
    ensures Held(s.cache.entries, s.swept)[rt] + s.displaced[rt] + s.cleaned[rt] == if rt in s.introduced then 1 else 0
    ensures var es := s.cache.entries;
      forall i, j :: 0 <= i < j < |es| && es[i].runtime == es[j].runtime == Some(rt) ==>
        RefOf(es[i]) in s.swept || RefOf(es[j]) in s.swept
  {
    ReachableInv(cfg, s);
    var es := s.cache.entries;
    OnceOnly(Held(es, s.swept), s.displaced, s.cleaned, s.introduced, rt);
    forall i, j | 0 <= i < j < |es| && es[i].runtime == es[j].runtime == Some(rt)
      ensures RefOf(es[i]) in s.swept || RefOf(es[j]) in s.swept
    {
      if RefOf(es[i]) !in s.swept && RefOf(es[j]) !in s.swept {
        HeldTwice(es, s.swept, i, j);
      }
    }
  }

  /** Budget of every reachable state. */
  lemma BucketsFitOrArePinned(cfg: Config, s: System, b: string)
    requires Reachable(cfg, s)
    ensures Count(s.cache.entries, LiveIn(b)) <= cfg.Budget(b) || Count(s.cache.entries, IdleIn(b)) <= 1
  {
    ReachableInv(cfg, s);
    assert BucketFits(cfg, s.cache.entries, b);
  }

  /** A parked drain waiter is still blocked, and only a release or a removal, both
      of which wake every waiter, can end what it waits for. */
  lemma WakeupsAreNotLost(cfg: Config, s: System, step: Step, r: Ref)
    requires Reachable(cfg, s) && Enabled(s, step)
    requires Blocks(s.cache.entries, r) && !Blocks(Apply(cfg, s, step).cache.entries, r)
    ensures (step == Release(r) || step == Remove(r)) && Apply(cfg, s, step).sleepers == map[]
    ensures forall w :: w in s.sleepers ==> Blocks(s.cache.entries, s.sleepers[w])
  {
    ReachableInv(cfg, s);
    if step != Release(r) && step != Remove(r) {
      BlockingSurvives(cfg, s, step, r);
    }
  }

  lemma ParkedInv(cfg: Config, s: System, r: Ref)
    requires Inv(cfg, s) && Blocks(s.cache.entries, r)
    ensures Inv(cfg, s.(sleepers := map[0 := r]))
  {
  }

  lemma ParkedStep(cfg: Config, s: System, m: map<nat, Ref>, step: Step)
    requires Enabled(s, step) && !step.Release? && !step.Remove? && !step.Park?
    ensures Enabled(s.(sleepers := m), step)
    ensures Apply(cfg, s.(sleepers := m), step) == Apply(cfg, s, step).(sleepers := m)
  {
  }

  lemma InvWakeups(cfg: Config, s: System, w: nat)
    requires Inv(cfg, s) && w in s.sleepers
    ensures Blocks(s.cache.entries, s.sleepers[w])
  {
  }

  /** Nobody else ends the wait: imagine a waiter parked on `r`; a step that leaves
      it parked leaves it blocked, because the invariant of parked waiters is kept. */
  lemma BlockingSurvives(cfg: Config, s: System, step: Step, r: Ref)
    requires Inv(cfg, s) && Enabled(s, step) && Blocks(s.cache.entries, r)
    requires step != Release(r) && step != Remove(r)
    ensures Blocks(Apply(cfg, s, step).cache.entries, r)
  {
    hide Inv, Blocks;
    if step.Release? || step.Remove? {
      OthersKeepBlocking(cfg, s, step, r);
    } else if !step.Park? {
      hide Apply;
      var parked := s.(sleepers := map[0 := r]);
      ParkedInv(cfg, s, r);
      ParkedStep(cfg, s, map[0 := r], step);
      StepKeepsInv(cfg, parked, step);
      InvWakeups(cfg, Apply(cfg, parked, step), 0);
    }
  }

  /** A release leaves the entries of other ids alone, or retires idle ones. */
  lemma ReleaseElsewhere(cfg: Config, c: Cache, q: Ref, k: string)
    requires Distinct(c.entries) && Current(c, q.id, q.serial) && k != q.id && Find(c.entries, k).Some?
    ensures var es' := ReleaseLocked(cfg, c, q.id, q.serial).cache.entries;
      Find(es', k) == Find(c.entries, k) || Find(es', k) == Some(Retired(Find(c.entries, k).value))
  {
    var x := Find(c.entries, q.id).value;
    var e := x.(leases := Max(0, x.leases - 1));
    var mid := Store(c.entries, e);
    FindStore(c.entries, e, k);
    StoreDistinct(c.entries, x, e);
    if e.leases == 0 {
      var victims := Refs(OverflowVictims(cfg, mid, x.bucket, None));
      RetireFirstShape(mid, EvictableIn(x.bucket, None), Excess(cfg, mid, x.bucket));
      FindPointwise(mid, Overflow(cfg, mid, x.bucket, None), victims, k);
    }
  }

  lemma OthersKeepBlocking(cfg: Config, s: System, step: Step, r: Ref)
    requires Inv(cfg, s) && Enabled(s, step) && Blocks(s.cache.entries, r)
    requires (step.Release? || step.Remove?) && step.ref != r
    ensures Blocks(Apply(cfg, s, step).cache.entries, r)
  {
    var q := step.ref;
    HoldersAreCurrent(s, q);
    assert q.id != r.id;
    if step.Remove? {
      FindDrop(s.cache.entries, q.id, r.id);
    } else {
      ReleaseFindsItsLease(cfg, s, q);
      ReleaseElsewhere(cfg, s.cache, q, r.id);
    }
  }

  /** A retirement in flight is finished by the operation that owes it and by
      nothing else: its entry stays RETIRING under its id until that operation
      removes it, and cleanup then removal are always possible. */
  lemma RetirementsFinish(cfg: Config, s: System, r: Ref)
    requires Reachable(cfg, s) && (r in s.marked || r in s.swept)
    ensures InState(s.cache.entries, r, Retiring)
    ensures r in s.marked ==> Enabled(s, Clean(r)) && r in Apply(cfg, s, Clean(r)).swept
    ensures r in s.swept ==> Enabled(s, Remove(r)) && !At(Apply(cfg, s, Remove(r)).cache.entries, r)
    ensures forall step :: Enabled(s, step) && step != Remove(r) ==> At(Apply(cfg, s, step).cache.entries, r)
  {
    ReachableInv(cfg, s);
    assert r in s.marked + s.swept;
    assert InState(s.cache.entries, r, Retiring);
    if r in s.swept {
      RemoveKeepsCore(cfg, s, r);
    }
    forall step | Enabled(s, step) && step != Remove(r) ensures At(Apply(cfg, s, step).cache.entries, r) {
      Lookup(s, r.id);
      assert step != Release(r);
      BlockingSurvives(cfg, s, step, r);
    }
  }

  /** A reservation is published into the slot it reserved: the backstop against a
      lost reservation is never taken. */
  lemma ReservationsAreNeverLost(cfg: Config, s: System, r: Ref, rt: nat)
    requires Reachable(cfg, s) && r in s.reservations && rt !in s.introduced
    ensures PublishLocked(s.cache, r.id, r.serial, rt).Some?
    ensures InState(Apply(cfg, s, Publish(r, rt)).cache.entries, r, Ready)
    ensures r in Apply(cfg, s, Publish(r, rt)).handles
  {
    ReachableInv(cfg, s);
    PublishKeepsCore(cfg, s, r, rt);
    HoldersAreCurrent(s, r);
    var x := Find(s.cache.entries, r.id).value;
    FindRefresh(s.cache.entries, x.(runtime := Some(rt), state := Ready, leases := 1), r.id);
  }

  /** Two entries of one id seen at two moments of a run are the same object if
      and only if their generations agree. */
  lemma GenerationsIdentifyEntries(cfg: Config, s: System, steps: seq<Step>, s': System, id: string)
    requires Reachable(cfg, s) && Run(cfg, s, steps, s')
    requires Find(s.cache.entries, id).Some? && Find(s'.cache.entries, id).Some?
    ensures var x, y := Find(s.cache.entries, id).value, Find(s'.cache.entries, id).value;
      && (x.serial == y.serial <==> x.generation == y.generation)
      && (x.serial != y.serial ==> x.generation < y.generation)
      && (x.serial == y.serial ==> Forward(x, y))
  {
    ReachableInv(cfg, s);
    RunProgress(cfg, s, steps, s');
    assert EntryOk(s.cache, Find(s.cache.entries, id));
    assert EntryProgress(s.cache, id, Find(s'.cache.entries, id));
  }

  /** A caller waits exactly for an object that is still under its id and leased or
      RETIRING, and is then on record; a release of an object that is gone gives the
      handle back and changes nothing. */
  lemma WaitingAndStaleReleases(cfg: Config, s: System, w: nat, r: Ref)
    ensures Enabled(s, Park(w, r)) <==>
      var x := Find(s.cache.entries, r.id);
      x.Some? && x.value.serial == r.serial && (x.value.leases > 0 || x.value.state == Retiring)
    ensures Enabled(s, Park(w, r)) ==> Apply(cfg, s, Park(w, r)) == s.(sleepers := s.sleepers[w := r])
    ensures r in s.handles && !At(s.cache.entries, r) ==> Apply(cfg, s, Release(r)) == s.(handles := s.handles - multiset{r})
  {
  }
}
