/** Budgets: what overflow eviction retires, that every step keeps every bucket
    within budget or nearly pinned, and when a reservation is admitted. */
module CacheBudget {
  import opened Wrappers
  import opened RuntimeTable
  import opened CacheModel
  import opened CacheSystem

  // ----------------------------------------------------- overflow eviction

  /** An overflow pass retires exactly min(excess, idle others) entries, all of
      them idle, in that bucket and not the excluded one, and none of them was
      used more recently than an idle other it left alone. */
  lemma OverflowIsExact(cfg: Config, es: Table, b: string, exclude: Option<string>)
    requires Distinct(es)
    ensures var victims := OverflowVictims(cfg, es, b, exclude);
      && |victims| == Min(Excess(cfg, es, b), Count(es, EvictableIn(b, exclude)))
      && (forall v :: v in victims ==> v in es && v.bucket == b && Idle(v) && Some(v.id) != exclude)
      && (forall i, j :: 0 <= i < j < |es| && EvictableIn(b, exclude)(es[i]) && es[j] in victims ==> es[i] in victims)
      && (forall i :: 0 <= i < |es| ==>
            Overflow(cfg, es, b, exclude)[i] == if es[i] in victims then Retired(es[i]) else es[i])
  {
    var f, k := EvictableIn(b, exclude), Excess(cfg, es, b);
    FirstOfCount(es, f, k);
    RetireFirstMarks(es, f, k);
    forall i, j | 0 <= i < j < |es| && f(es[i]) && es[j] in FirstOf(es, f, k) ensures es[i] in FirstOf(es, f, k) {
      FirstOfOldest(es, f, k, i, j);
    }
  }

  lemma {:induction false} ExcludedApart(es: Table, b: string, exclude: Option<string>)
    requires Distinct(es)
    ensures Count(es, IdleIn(b)) <= Count(es, EvictableIn(b, exclude)) + 1
    ensures exclude.None? ==> Count(es, IdleIn(b)) == Count(es, EvictableIn(b, exclude))
  {
    if es != [] {
      assert Distinct(es[1..]);
      ExcludedApart(es[1..], b, exclude);
      if exclude == Some(es[0].id) {
        CountLe(es[1..], IdleIn(b), EvictableIn(b, exclude));
      }
    }
  }

  /** After an overflow pass over `b` the bucket fits, or only the excluded entry
      of it is still idle; other buckets are as they were. */
  lemma OverflowFits(cfg: Config, es: Table, b0: string, exclude: Option<string>, b: string)
    requires Distinct(es)
    requires b == b0 || BucketFits(cfg, es, b)
    ensures BucketFits(cfg, Overflow(cfg, es, b0, exclude), b)
  {
    var f, k := EvictableIn(b0, exclude), Excess(cfg, es, b0);
    if b == b0 {
      CountRetireFirst(es, f, k, LiveIn(b));
      CountRetireFirst(es, f, k, IdleIn(b));
      ExcludedApart(es, b, exclude);
    } else {
      CountRetireFirstSame(es, f, k, LiveIn(b));
      CountRetireFirstSame(es, f, k, IdleIn(b));
    }
  }

  // ------------------------------------------------- other edits of a table

  lemma RefreshFits(cfg: Config, es: Table, e: Entry, b: string)
    requires Distinct(es) && BucketFits(cfg, es, b)
    requires var x := Find(es, e.id);
      if x.Some? then One(LiveIn(b), e) <= One(LiveIn(b), x.value) && One(IdleIn(b), e) <= One(IdleIn(b), x.value)
      else One(LiveIn(b), e) == 0
    ensures BucketFits(cfg, Refresh(es, e), b)
  {
    RefreshCount(es, e, LiveIn(b));
    RefreshCount(es, e, IdleIn(b));
  }

  lemma RefreshCount(es: Table, e: Entry, f: Entry -> bool)
    requires Distinct(es)
    ensures var x := Find(es, e.id);
      Count(Refresh(es, e), f) + (if x.Some? then One(f, x.value) else 0) == Count(es, f) + One(f, e)
  {
    CountAppend(Drop(es, e.id), e, f);
    if Find(es, e.id).Some? {
      CountDrop(es, Find(es, e.id).value, f);
    } else {
      CountDropAbsent(es, e.id);
    }
  }

  lemma StoreFits(cfg: Config, es: Table, e: Entry, b: string)
    requires Distinct(es) && BucketFits(cfg, es, b) && Find(es, e.id).Some?
    requires var x := Find(es, e.id).value;
      One(LiveIn(b), e) <= One(LiveIn(b), x) && One(IdleIn(b), e) <= One(IdleIn(b), x)
    ensures BucketFits(cfg, Store(es, e), b)
  {
    var x := Find(es, e.id).value;
    CountStore(es, x, e, LiveIn(b));
    CountStore(es, x, e, IdleIn(b));
  }

  lemma DropFits(cfg: Config, es: Table, id: string, b: string)
    requires Distinct(es) && BucketFits(cfg, es, b)
    ensures BucketFits(cfg, Drop(es, id), b)
  {
    if Find(es, id).Some? {
      CountDrop(es, Find(es, id).value, LiveIn(b));
      CountDrop(es, Find(es, id).value, IdleIn(b));
    } else {
      CountDropAbsent(es, id);
    }
  }

  lemma {:induction false} AllRetiredEmpty(es: Table, b: string)
    ensures Count(AllRetired(es), LiveIn(b)) == 0
  {
    CountZero(AllRetired(es), LiveIn(b));
  }

  // ---------------------------------------------------------- reservations

  /** Room means room: no reservation enters a bucket whose raw occupancy has
      reached the budget, whichever of the two critical sections makes it and
      whatever the table looks like when it runs. */
  lemma ReservationsEnterWithRoom(cfg: Config, c: Cache, id: string, bucket: string)
    requires Distinct(c.entries)
    ensures forall o :: o in [AcquireFirst(cfg, c, id, bucket), AcquireSecond(cfg, c, id, bucket)] && o.Reserved? ==>
      && Find(c.entries, id).None? && o == Reserve(c, id, bucket)
      && Occupancy(c.entries, bucket) < cfg.Budget(bucket)
      && Occupancy(o.cache.entries, bucket) <= cfg.Budget(bucket)
      && o.cache.entries == c.entries + [o.entry] && o.entry.state.Loading? && o.entry.bucket == bucket
  {
    forall o | o in [AcquireFirst(cfg, c, id, bucket), AcquireSecond(cfg, c, id, bucket)] && o.Reserved?
      ensures o.cache.entries == c.entries + [o.entry]
      ensures Occupancy(o.cache.entries, bucket) <= cfg.Budget(bucket)
    {
      CountDropAbsent(c.entries, id);
      CountAppend(c.entries, o.entry, InBucket(bucket));
    }
  }

  /** A victim was picked: it is idle, in the bucket, the oldest such, and the
      bucket is exactly full without counting retirements. */
  lemma PickedVictim(cfg: Config, es: Table, b: string)
    requires Distinct(es) && SelectVictim(cfg, es, b).Pick?
    ensures var v := SelectVictim(cfg, es, b).victim;
      && v in es && IdleIn(b)(v) && Count(es, LiveIn(b)) == cfg.Budget(b)
      && (forall i, j :: 0 <= i < j < |es| && es[j] == v ==> !IdleIn(b)(es[i]))
  {
    OccupancySplits(es, b);
    FirstOfCount(es, IdleIn(b), 1);
    OldestIsFirst(es, IdleIn(b));
  }

  lemma {:induction false} OldestIsFirst(es: Table, f: Entry -> bool)
    requires Distinct(es) && Count(es, f) > 0
    ensures |FirstOf(es, f, 1)| == 1 && FirstOf(es, f, 1)[0] in es && f(FirstOf(es, f, 1)[0])
    ensures forall i, j :: 0 <= i < j < |es| && es[j] == FirstOf(es, f, 1)[0] ==> !f(es[i])
  {
    assert Distinct(es[1..]);
    if !f(es[0]) {
      OldestIsFirst(es[1..], f);
    }
  }

  /** The table right after the reservation's own victim was cleaned up and
      removed, nothing else having happened in between. */
  function AfterVictim(o: AcquireOutcome): Cache
    requires o.MustRetire?
  {
    RemoveLocked(o.cache, o.victim.id, o.victim.serial)
  }

  lemma AfterVictimIsDrop(cfg: Config, c: Cache, id: string, bucket: string)
    requires Distinct(c.entries) && AcquireFirst(cfg, c, id, bucket).MustRetire?
    ensures var o := AcquireFirst(cfg, c, id, bucket);
      && o.victim in c.entries && Idle(o.victim)
      && o.cache == c.(entries := Store(c.entries, Retired(o.victim)))
      && AfterVictim(o).entries == Drop(c.entries, o.victim.id)
  {
    var o := AcquireFirst(cfg, c, id, bucket);
    if Find(c.entries, id).None? {
      PickedVictim(cfg, c.entries, bucket);
    }
    FindIs(c.entries, o.victim);
    FindStore(c.entries, Retired(o.victim), o.victim.id);
    DropAfterStore(c.entries, Retired(o.victim));
  }

  lemma {:induction false} DropAfterStore(es: Table, e: Entry)
    ensures Drop(Store(es, e), e.id) == Drop(es, e.id)
  {
    if es != [] {
      DropAfterStore(es[1..], e);
      assert Store(es, e)[1..] == Store(es[1..], e);
    }
  }

  lemma SecondSectionAdmits(cfg: Config, c: Cache, id: string, bucket: string)
    ensures AcquireSecond(cfg, c, id, bucket).Reserved? <==>
      Find(c.entries, id).None? && Occupancy(c.entries, bucket) < cfg.Budget(bucket)
  {
  }

  /** A victim is retired for a reason: with no other retirement in the bucket and
      no interleaved step, the second section admits the reservation if and only
      if the requested bucket, the victim aside, is below its budget. A victim
      picked for capacity always leaves it so. An INVALID entry replaced under its
      own id may not: when it lives in another bucket and the requested one is full,
      or in the requested one while that is over budget. */
  lemma VictimIsWorthIt(cfg: Config, c: Cache, id: string, bucket: string)
    requires Distinct(c.entries) && AcquireFirst(cfg, c, id, bucket).MustRetire?
    requires Count(c.entries, RetiringIn(bucket)) == 0
    ensures var o := AcquireFirst(cfg, c, id, bucket);
      && (AcquireSecond(cfg, AfterVictim(o), id, bucket).Reserved? <==>
            Occupancy(c.entries, bucket) < cfg.Budget(bucket) + One(InBucket(bucket), o.victim))
      && (Find(c.entries, id).None? ==> AcquireSecond(cfg, AfterVictim(o), id, bucket).Reserved?)
  {
    hide AcquireFirst, AcquireSecond, SelectVictim, RemoveLocked, Distinct, Drop, Count;
    var o := AcquireFirst(cfg, c, id, bucket);
    var es := c.entries;
    AfterVictimIsDrop(cfg, c, id, bucket);
    SecondSectionAdmits(cfg, AfterVictim(o), id, bucket);
    CountDrop(es, o.victim, InBucket(bucket));
    FindDrop(es, o.victim.id, id);
    VictimOrigin(cfg, c, id, bucket);
    if Find(es, id).None? {
      OccupancySplits(es, bucket);
      PickedVictim(cfg, es, bucket);
    }
  }

  /** A victim is the stale entry under the requested id, or was picked for capacity. */
  lemma VictimOrigin(cfg: Config, c: Cache, id: string, bucket: string)
    requires AcquireFirst(cfg, c, id, bucket).MustRetire?
    ensures var v := AcquireFirst(cfg, c, id, bucket).victim;
      if Find(c.entries, id).Some? then Find(c.entries, id) == Some(v) else SelectVictim(cfg, c.entries, bucket) == Pick(v)
  {
  }

  /** In particular an entry replaced within its own, fitting bucket is admitted. */
  lemma OwnBucketIsWorthIt(cfg: Config, c: Cache, id: string, bucket: string)
    requires Distinct(c.entries) && AcquireFirst(cfg, c, id, bucket).MustRetire?
    requires Count(c.entries, RetiringIn(bucket)) == 0
    requires Count(c.entries, LiveIn(bucket)) <= cfg.Budget(bucket)
    requires AcquireFirst(cfg, c, id, bucket).victim.bucket == bucket
    ensures AcquireSecond(cfg, AfterVictim(AcquireFirst(cfg, c, id, bucket)), id, bucket).Reserved?
  {
    VictimIsWorthIt(cfg, c, id, bucket);
    OccupancySplits(c.entries, bucket);
  }
}
