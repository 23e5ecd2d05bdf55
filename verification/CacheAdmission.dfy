/** Who is admitted: the outcome of a request for a runtime, from the table alone. */
module CacheAdmission {
  import opened Wrappers
  import opened RuntimeTable
  import opened CacheModel
  import opened CacheBudget

  /** Not pinned and not on its way in or out. */
  ghost predicate IsIdle(e: Entry, b: string) {
    e.bucket == b && e.leases == 0 && e.state != Loading && e.state != Retiring
  }

  ghost predicate HasIdle(es: Table, b: string) { exists e :: e in es && IsIdle(e, b) }

  /** The least recently used idle entry of the bucket. */
  ghost predicate IsFirstIdle(es: Table, b: string, v: Entry) {
    && v in es && IsIdle(v, b)
    && forall i, j :: 0 <= i < j < |es| && es[j] == v ==> !IsIdle(es[i], b)
  }

  /** One retirement would make room: the bucket is occupied up to its budget or more,
      what is not already going fills it exactly, and something in it is idle. */
  ghost predicate OneTooMany(cfg: Config, es: Table, b: string) {
    Occupancy(es, b) >= cfg.Budget(b) && Count(es, LiveIn(b)) == cfg.Budget(b) && HasIdle(es, b)
  }

  /** Exactly when there is room, a victim or neither, and which victim. */
  lemma SelectionIsExact(cfg: Config, es: Table, b: string)
    requires Distinct(es)
    ensures var s := SelectVictim(cfg, es, b);
      && (s.Room? <==> Occupancy(es, b) < cfg.Budget(b))
      && (s.Pick? <==> OneTooMany(cfg, es, b))
      && (s.Pick? ==> IsFirstIdle(es, b, s.victim))
  {
    OccupancySplits(es, b);
    CountZero(es, IdleIn(b));
    LiveAtLeastOneIdle(es, b);
    if SelectVictim(cfg, es, b).Pick? { PickedVictim(cfg, es, b); }
  }

  lemma LiveAtLeastOneIdle(es: Table, b: string)
    ensures Count(es, IdleIn(b)) <= Count(es, LiveIn(b))
  {
    CountLe(es, IdleIn(b), LiveIn(b));
  }

  /** The first critical section, case by case. */
  lemma FirstSectionIsExact(cfg: Config, c: Cache, id: string, b: string)
    requires Distinct(c.entries)
    ensures var o, x := AcquireFirst(cfg, c, id, b), Find(c.entries, id);
      && (o.Hit? <==> x.Some? && x.value.state == Ready)
      && (o.Hit? ==> o.entry == x.value.(leases := x.value.leases + 1) && o.cache == c.(entries := Drop(c.entries, id) + [o.entry]))
      && (o.Draining? <==> x.Some? && x.value.state == Invalid && x.value.leases > 0)
      && (o.Draining? ==> o.stale == x.value)
      && (o.Reserved? <==> x.None? && Occupancy(c.entries, b) < cfg.Budget(b))
      && (o.Reserved? ==> IsReservation(c, id, b, o))
      && (o.MustRetire? <==> (x.Some? && x.value.state == Invalid && x.value.leases == 0) || (x.None? && OneTooMany(cfg, c.entries, b)))
      && (o.MustRetire? && x.Some? ==> o.victim == x.value)
      && (o.MustRetire? && x.None? ==> IsFirstIdle(c.entries, b, o.victim))
  {
    hide OneTooMany, SelectVictim;
    if Find(c.entries, id).None? {
      SelectionIsExact(cfg, c.entries, b);
      CountDropAbsent(c.entries, id);
    }
  }

  /** A new LOADING entry at the end, of a generation the id never had. */
  ghost predicate IsReservation(c: Cache, id: string, b: string, o: AcquireOutcome) {
    && o.Reserved? && o.cache.entries == c.entries + [o.entry]
    && o.entry.id == id && o.entry.bucket == b && o.entry.state == Loading && o.entry.runtime.None? && o.entry.leases == 0
    && o.entry.serial == c.nextSerial && o.cache.nextSerial == c.nextSerial + 1
    && o.cache.lastGeneration == c.lastGeneration[id := o.entry.generation]
    && (id in c.lastGeneration ==> o.entry.generation > c.lastGeneration[id])
  }

  /** The recheck: a place, or nothing. */
  lemma SecondSectionIsExact(cfg: Config, c: Cache, id: string, b: string)
    requires Distinct(c.entries)
    ensures var o := AcquireSecond(cfg, c, id, b);
      && (o.Reserved? <==> Find(c.entries, id).None? && Occupancy(c.entries, b) < cfg.Budget(b))
      && (o.Reserved? ==> IsReservation(c, id, b, o)) && (!o.Reserved? ==> o.AcquireBusy?)
  {
    hide SelectVictim;
    SelectionIsExact(cfg, c.entries, b);
    if Find(c.entries, id).None? { CountDropAbsent(c.entries, id); }
  }

  /** Occupancy once the victim is gone. */
  lemma VictimGone(cfg: Config, c: Cache, id: string, b: string)
    requires Distinct(c.entries) && AcquireFirst(cfg, c, id, b).MustRetire?
    ensures var o := AcquireFirst(cfg, c, id, b);
      && AfterVictim(o) == c.(entries := Drop(c.entries, o.victim.id)) && Distinct(AfterVictim(o).entries)
      && Occupancy(AfterVictim(o).entries, b) == Occupancy(c.entries, b) - (if o.victim.bucket == b then 1 else 0)
      && Find(AfterVictim(o).entries, id).None?
      && (Find(c.entries, id).None? ==> o.victim.bucket == b && Occupancy(c.entries, b) == cfg.Budget(b) + Count(c.entries, RetiringIn(b)))
  {
    hide AcquireFirst, OneTooMany, Drop, Distinct, SelectVictim;
    var o := AcquireFirst(cfg, c, id, b);
    AfterVictimIsDrop(cfg, c, id, b);
    AfterVictimRest(cfg, c, id, b);
    CountDrop(c.entries, o.victim, InBucket(b));
    FindDrop(c.entries, o.victim.id, id);
    DropDistinct(c.entries, o.victim.id);
    VictimOrigin(cfg, c, id, b);
    if Find(c.entries, id).None? {
      OccupancySplits(c.entries, b);
      PickedVictim(cfg, c.entries, b);
    }
  }

  lemma AfterVictimRest(cfg: Config, c: Cache, id: string, b: string)
    requires AcquireFirst(cfg, c, id, b).MustRetire?
    ensures var o := AcquireFirst(cfg, c, id, b); AfterVictim(o) == c.(entries := AfterVictim(o).entries)
  {
  }

  /** A reservation of this id will be admitted, if the cleanup it may need does not
      raise: there is room, or its stale entry makes room, or a surplus one does while
      no other entry of the bucket is still on its way out. */
  ghost predicate Admits(cfg: Config, es: Table, id: string, b: string) {
    match Find(es, id)
    case Some(x) => x.state == Invalid && x.leases == 0 && Occupancy(es, b) < cfg.Budget(b) + (if x.bucket == b then 1 else 0)
    case None => Occupancy(es, b) < cfg.Budget(b) || (OneTooMany(cfg, es, b) && Count(es, RetiringIn(b)) == 0)
  }

  /** What one call retires, and nothing else: the unpinned INVALID entry under the id,
      or for a new id the least recently used idle entry when one is surplus. */
  ghost predicate RetiresRightly(cfg: Config, es: Table, id: string, b: string, retired: Option<Entry>) {
    match Find(es, id)
    case Some(x) => retired == if x.state == Invalid && x.leases == 0 then Some(x) else None
    case None => (retired.Some? <==> OneTooMany(cfg, es, b)) && (retired.Some? ==> IsFirstIdle(es, b, retired.value))
  }

  /** The table without what was retired. */
  function Left(c: Cache, retired: Option<Entry>): Cache {
    if retired.Some? then c.(entries := Drop(c.entries, retired.value.id)) else c
  }

  /** What one call answers, and the table it leaves. */
  ghost predicate AnswersRightly(cfg: Config, c: Cache, id: string, b: string, o: AcquireOutcome, c': Cache, raised: bool, retired: Option<Entry>) {
    var x := Find(c.entries, id);
    && (o.Hit? || o.Draining? || o.Reserved? || o.AcquireBusy?)
    && (o.Hit? <==> x.Some? && x.value.state == Ready)
    && (o.Hit? ==> o.entry == x.value.(leases := x.value.leases + 1) && c' == c.(entries := Drop(c.entries, id) + [o.entry]))
    && (o.Draining? <==> x.Some? && x.value.state == Invalid && x.value.leases > 0)
    && (o.Draining? ==> o.stale == x.value)
    && (o.Reserved? <==> Admits(cfg, c.entries, id, b) && !raised)
    && (o.Reserved? ==> IsReservation(Left(c, retired), id, b, o) && c' == o.cache)
    && (o.AcquireBusy? || o.Draining? ==> c' == Left(c, retired))
  }

  lemma WithoutRetirement(cfg: Config, c: Cache, id: string, b: string)
    requires Distinct(c.entries) && !AcquireFirst(cfg, c, id, b).MustRetire?
    ensures RetiresRightly(cfg, c.entries, id, b, None)
    ensures var o := AcquireFirst(cfg, c, id, b);
      AnswersRightly(cfg, c, id, b, o, if o.Hit? || o.Reserved? then o.cache else c, false, None)
  {
    hide AcquireFirst, IsFirstIdle, IsReservation, Occupancy, HasIdle;
    FirstSectionIsExact(cfg, c, id, b);
  }

  lemma WithRetirement(cfg: Config, c: Cache, id: string, b: string, raised: bool)
    requires Distinct(c.entries) && AcquireFirst(cfg, c, id, b).MustRetire?
    ensures var first := AcquireFirst(cfg, c, id, b);
      var o := if raised then AcquireBusy else AcquireSecond(cfg, AfterVictim(first), id, b);
      && RetiresRightly(cfg, c.entries, id, b, Some(first.victim))
      && AnswersRightly(cfg, c, id, b, o, if o.Reserved? then o.cache else AfterVictim(first), raised, Some(first.victim))
  {
    hide AcquireFirst, AcquireSecond, IsFirstIdle, IsReservation, Occupancy, HasIdle, AfterVictim, Distinct, Drop;
    FirstSectionIsExact(cfg, c, id, b);
    VictimGone(cfg, c, id, b);
    SecondSectionIsExact(cfg, AfterVictim(AcquireFirst(cfg, c, id, b)), id, b);
  }

  /** A full bucket with an idle entry and nothing on its way out admits a new id. */
  lemma FullBucketAdmits(cfg: Config, es: Table, id: string, b: string)
    requires Find(es, id).None? && Occupancy(es, b) == cfg.Budget(b) && HasIdle(es, b) && Count(es, RetiringIn(b)) == 0
    ensures Admits(cfg, es, id, b)
  {
    OccupancySplits(es, b);
  }

  /** Limits are per media type: each limited type has its own bucket and budget, and
      all others share one bucket under the total. */
  lemma BucketsArePerMedia(cfg: Config, m: string, n: string)
    ensures m in cfg.limits ==> cfg.Budget(cfg.BucketFor(Some(m))) == cfg.limits[m]
    ensures m in cfg.limits && n in cfg.limits && m != n ==> cfg.BucketFor(Some(m)) != cfg.BucketFor(Some(n))
    ensures m !in cfg.limits ==> cfg.BucketFor(Some(m)) == cfg.BucketFor(None) == DEFAULT_BUCKET
    ensures DEFAULT_BUCKET !in cfg.limits ==> cfg.Budget(cfg.BucketFor(None)) == cfg.maxEntries
  {
  }
}
