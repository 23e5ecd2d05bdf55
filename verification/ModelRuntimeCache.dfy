/** The cache as the object callers use: its methods update the table in place and
    are proved against the critical sections of `CacheModel`. Here each operation
    runs to its end without interleaving; `CacheSystem` interleaves their sections. */
module ModelRuntimeCacheClass {
  import opened Wrappers
  import opened RuntimeTable
  import opened CacheModel
  import opened CacheBudget
  import opened CacheAdmission

  class ModelRuntimeCache {
    const cfg: Config
    var entries: Table
    var lastGeneration: map<string, nat>
    var nextSerial: nat
    var cleanups: seq<nat>      // runtimes given to the eviction hook, in call order
    var notifications: nat      // wakeups of everybody parked on the condition

    ghost predicate Valid() reads this {
      cfg.Accepted() && Distinct(entries) && forall e :: e in entries ==> Sound(e, nextSerial)
    }

    function Data(): Cache reads this {
      Cache(entries, lastGeneration, nextSerial)
    }

    constructor (maxEntries: nat, limits: map<string, nat>)
      requires Config(maxEntries, limits).Accepted()
      ensures Valid() && cfg == Config(maxEntries, limits)
      ensures Data() == Cache([], map[], 0) && cleanups == [] && notifications == 0
    {
      cfg := Config(maxEntries, limits);
      entries, lastGeneration, nextSerial, cleanups, notifications := [], map[], 0, [], 0;
    }

    /** The overflow loop: rescan the bucket, retire its oldest evictable entry, and
        stop when the bucket fits or nothing is evictable. Taken as a whole it
        retires the first min(excess, evictable) candidates. */
    method EvictBucketOverflow(bucket: string, exclude: Option<string>) returns (victims: seq<Entry>)
      requires Valid()
      modifies this`entries
      ensures Valid()
      ensures entries == Overflow(cfg, old(entries), bucket, exclude)
      ensures victims == OverflowVictims(cfg, old(entries), bucket, exclude)
    {
      hide Overflow, OverflowVictims, Excess, EvictableIn;
      ghost var es0 := entries;
      victims := [];
      assert OverflowVictims(cfg, es0, bucket, exclude) == victims + OverflowVictims(cfg, entries, bucket, exclude);
      while true
        invariant Valid()
        invariant Overflow(cfg, es0, bucket, exclude) == Overflow(cfg, entries, bucket, exclude)
        invariant OverflowVictims(cfg, es0, bucket, exclude) == victims + OverflowVictims(cfg, entries, bucket, exclude)
        decreases Excess(cfg, entries, bucket)
      {
        OccupancySplits(entries, bucket);
        var live := Count(entries, InBucket(bucket)) - Count(entries, RetiringIn(bucket));
        if live <= cfg.Budget(bucket) {
          OverflowStops(cfg, entries, bucket, exclude);
          break;
        }
        var i := FirstEvictable(bucket, exclude);
        if i == |entries| {
          OverflowStops(cfg, entries, bucket, exclude);
          break;
        }
        OverflowStep(cfg, entries, bucket, exclude, i);
        RetireAtIsStore(entries, i);
        RetireAtSound(entries, i, bucket, exclude, nextSerial);
        ghost var rest := OverflowVictims(cfg, entries[i := Retired(entries[i])], bucket, exclude);
        assert victims + ([entries[i]] + rest) == victims + [entries[i]] + rest;
        victims := victims + [entries[i]];
        entries := entries[i := Retired(entries[i])];
      }
    }

    /** Index of the oldest evictable entry of the bucket, or the table's length. */
    method FirstEvictable(bucket: string, exclude: Option<string>) returns (i: nat)
      ensures i <= |entries|
      ensures forall j :: 0 <= j < i ==> !EvictableIn(bucket, exclude)(entries[j])
      ensures i < |entries| ==> EvictableIn(bucket, exclude)(entries[i])
    {
      i := 0;
      while i < |entries|
        invariant i <= |entries|
        invariant forall j :: 0 <= j < i ==> !EvictableIn(bucket, exclude)(entries[j])
      {
        if EvictableIn(bucket, exclude)(entries[i]) { return; }
        i := i + 1;
      }
    }

    /** Cleanup, then removal and a wakeup of all waiters whatever cleanup raised; a
        raise reaches the caller. */
    method FinishRetirement(e: Entry, raises: nat -> bool) returns (raised: Option<nat>)
      requires Valid()
      modifies this`entries, this`cleanups, this`notifications
      ensures Valid()
      ensures entries == RemoveLocked(old(Data()), e.id, e.serial).entries
      ensures cleanups == old(cleanups) + (if e.runtime.Some? then [e.runtime.value] else [])
      ensures notifications == old(notifications) + 1
      ensures raised == if e.runtime.Some? && raises(e.runtime.value) then e.runtime else None
    {
      raised := None;
      if e.runtime.Some? {
        cleanups := cleanups + [e.runtime.value];
        if raises(e.runtime.value) { raised := e.runtime; }
      }
      var current := Find(entries, e.id);
      if current.Some? && current.value.serial == e.serial {
        DropDistinct(entries, e.id);
        DropMembers(entries, e.id);
        entries := Drop(entries, e.id);
      }
      notifications := notifications + 1;
    }

    /** Finalizes every victim, in order, whatever any cleanup raises; reports the
        first raise once all of them are gone. */
    method FinalizeAll(victims: seq<Entry>, raises: nat -> bool) returns (first: Option<nat>)
      requires Valid()
      requires forall v :: v in victims ==> v.runtime.Some?
      modifies this`entries, this`cleanups, this`notifications
      ensures Valid()
      ensures entries == RemoveEach(old(entries), victims)
      ensures cleanups == old(cleanups) + Runtimes(victims)
      ensures notifications == old(notifications) + |victims|
      ensures first == FirstRaised(Runtimes(victims), raises)
    {
      first := None;
      var i := 0;
      while i < |victims|
        invariant 0 <= i <= |victims| && Valid()
        invariant RemoveEach(old(entries), victims) == RemoveEach(entries, victims[i..])
        invariant cleanups == old(cleanups) + Runtimes(victims[..i])
        invariant notifications == old(notifications) + i
        invariant first == FirstRaised(Runtimes(victims[..i]), raises)
      {
        var raised := FinishRetirement(victims[i], raises);
        assert victims[i..][1..] == victims[i + 1..];
        RuntimesSnoc(victims, i);
        FirstRaisedSnoc(Runtimes(victims[..i]), victims[i].runtime.value, raises);
        if first.None? { first := raised; }
        i := i + 1;
      }
      assert victims[..|victims|] == victims;
    }

    /** `unload_all`: all entries or none. */
    method UnloadAll(raises: nat -> bool) returns (busy: bool, first: Option<nat>)
      requires Valid()
      modifies this`entries, this`cleanups, this`notifications
      ensures Valid()
      ensures busy == AnyBusy(old(entries))
      ensures busy ==> entries == old(entries) && cleanups == old(cleanups) && first.None?
      ensures !busy ==> entries == [] && cleanups == old(cleanups) + Runtimes(old(entries))
      ensures notifications == old(notifications) + (if busy then 0 else |old(entries)|)
      ensures !busy ==> first == FirstRaised(Runtimes(old(entries)), raises)
    {
      busy := AnyBusy(entries);
      if busy { return busy, None; }
      var targets := AllRetired(entries);
      RetiredRuntimes(entries);
      entries := targets;
      forall i, j | 0 <= i < j < |targets| ensures targets[i].id != targets[j].id && targets[i].serial != targets[j].serial {
        assert targets[i] == Retired(old(entries)[i]) && targets[j] == Retired(old(entries)[j]);
      }
      forall e | e in targets ensures Sound(e, nextSerial) && e.runtime.Some? {
        var i :| 0 <= i < |targets| && targets[i] == e;
        assert Sound(old(entries)[i], nextSerial) && !BusyForUnload(old(entries)[i]);
      }
      first := FinalizeAll(targets, raises);
      RemoveEachSelf(targets);
    }

    /** The locked section of `put`: insert or refresh, then one overflow pass. */
    method PutSection(id: string, rt: nat, bucket: string) returns (o: PutOutcome)
      requires Valid()
      modifies this`entries, this`lastGeneration, this`nextSerial
      ensures Valid()
      ensures o == PutLocked(cfg, old(Data()), id, rt, bucket)
      ensures Data() == if o.PutBusy? then old(Data()) else o.cache
      ensures o.PutDone? ==> forall v :: v in o.victims ==> v.runtime.Some?
    {
      hide Overflow, OverflowVictims;
      var existing := Find(entries, id);
      if existing.Some? && (BusyForUnload(existing.value) || (existing.value.runtime == Some(rt) && existing.value.state.Invalid?)) {
        return PutBusy;
      }
      var displaced: Option<nat> := None;
      if existing.Some? && existing.value.runtime == Some(rt) {
        MoveKeepsValid(entries, existing.value.(bucket := bucket), nextSerial);
        entries := Refresh(entries, existing.value.(bucket := bucket));
      } else {
        var g := NextGeneration(Data(), id);
        var added := Entry(nextSerial, id, bucket, Ready, Some(rt), 0, g);
        if existing.Some? { displaced := existing.value.runtime; }
        MoveKeepsValid(entries, added, nextSerial);
        entries, lastGeneration, nextSerial := Refresh(entries, added), lastGeneration[id := g], nextSerial + 1;
      }
      VictimsAreSound(cfg, entries, bucket, Some(id), nextSerial);
      var victims := EvictBucketOverflow(bucket, Some(id));
      o := PutDone(Data(), displaced, victims);
    }

    /** `put`: the locked section, then the cleanup of what it displaced and the
        finalization of every overflow victim. */
    method Put(id: string, rt: nat, mediaType: Option<string>, raises: nat -> bool) returns (busy: bool, first: Option<nat>)
      requires Valid()
      modifies this
      ensures Valid()
      ensures busy == PutLocked(cfg, old(Data()), id, rt, cfg.BucketFor(mediaType)).PutBusy?
      ensures busy ==> Data() == old(Data()) && cleanups == old(cleanups) && notifications == old(notifications) && first.None?
      ensures !busy ==>
        var o := PutLocked(cfg, old(Data()), id, rt, cfg.BucketFor(mediaType));
        var doomed := (if o.displaced.Some? then [o.displaced.value] else []) + Runtimes(o.victims);
        && Data() == o.cache.(entries := RemoveEach(o.cache.entries, o.victims))
        && cleanups == old(cleanups) + doomed && notifications == old(notifications) + |o.victims| && first == FirstRaised(doomed, raises)
    {
      hide PutLocked, RemoveEach, Runtimes;
      var o := PutSection(id, rt, cfg.BucketFor(mediaType));
      busy, first := o.PutBusy?, None;
      if busy { return; }
      ghost var was, later := cleanups, Runtimes(o.victims);
      if o.displaced.Some? {
        cleanups := cleanups + [o.displaced.value];
        if raises(o.displaced.value) { first := o.displaced; }
        assert ([o.displaced.value] + later)[1..] == later;
        assert was + [o.displaced.value] + later == was + ([o.displaced.value] + later);
      } else {
        assert [] + later == later;
      }
      var raised := FinalizeAll(o.victims, raises);
      if first.None? { first := raised; }
    }

    /** The locked section of `release_lease`: the decrement, and the overflow pass
        when it reaches zero. */
    method ReleaseSection(id: string, serial: nat) returns (o: ReleaseOutcome)
      requires Valid()
      modifies this`entries, this`notifications
      ensures Valid()
      ensures o == ReleaseLocked(cfg, old(Data()), id, serial)
      ensures Data() == if o.Stale? then old(Data()) else o.cache
      ensures notifications == old(notifications) + (if o.Stale? then 0 else 1)
      ensures o.Released? ==> forall v :: v in o.victims ==> v.runtime.Some?
    {
      hide Overflow, OverflowVictims, Store, Distinct;
      var current := Find(entries, id);
      if current.None? || current.value.serial != serial { return Stale; }
      var x := current.value;
      var e := x.(leases := Max(0, x.leases - 1));
      RewriteKeepsValid(entries, x, e, nextSerial);
      entries := Store(entries, e);
      notifications := notifications + 1;
      var victims: seq<Entry> := [];
      if e.leases == 0 {
        VictimsAreSound(cfg, entries, x.bucket, None, nextSerial);
        victims := EvictBucketOverflow(x.bucket, None);
      }
      o := Released(Data(), victims);
    }

    /** `release_lease`: the locked section, then the finalization of what its
        overflow pass retired. */
    method ReleaseLease(id: string, serial: nat, raises: nat -> bool) returns (stale: bool, first: Option<nat>)
      requires Valid()
      modifies this`entries, this`cleanups, this`notifications
      ensures Valid()
      ensures stale == ReleaseLocked(cfg, old(Data()), id, serial).Stale?
      ensures stale ==> Data() == old(Data()) && cleanups == old(cleanups) && notifications == old(notifications) && first.None?
      ensures !stale ==>
        var o := ReleaseLocked(cfg, old(Data()), id, serial);
        && notifications == old(notifications) + 1 + |o.victims|
        && entries == RemoveEach(o.cache.entries, o.victims)
        && cleanups == old(cleanups) + Runtimes(o.victims) && first == FirstRaised(Runtimes(o.victims), raises)
    {
      hide ReleaseLocked, RemoveEach, Runtimes, FirstRaised;
      var o := ReleaseSection(id, serial);
      stale, first := o.Stale?, None;
      if o.Released? { first := FinalizeAll(o.victims, raises); }
    }

    /** First critical section of `acquire_or_reserve`: pin a READY entry, refuse,
        mark the stale or surplus entry that has to go, or reserve a free place. */
    method AcquireLocked(id: string, mediaType: Option<string>) returns (o: AcquireOutcome)
      requires Valid()
      modifies this`entries, this`lastGeneration, this`nextSerial
      ensures Valid()
      ensures o == AcquireFirst(cfg, old(Data()), id, cfg.BucketFor(mediaType))
      ensures Data() == if o.Hit? || o.Reserved? || o.MustRetire? then o.cache else old(Data())
    {
      hide SelectVictim, Refresh;
      var bucket := cfg.BucketFor(mediaType);
      var existing := Find(entries, id);
      if existing.Some? {
        var x := existing.value;
        if x.state.Ready? {
          var pinned := x.(leases := x.leases + 1);
          MoveKeepsValid(entries, pinned, nextSerial);
          entries := Refresh(entries, pinned);
          return Hit(Data(), pinned);
        } else if x.state.Loading? || x.state.Retiring? {
          return AcquireBusy;
        } else if x.leases > 0 {
          return Draining(x);
        }
        MarkRetiring(x);
        return MustRetire(Data(), x);
      }
      var choice := SelectVictim(cfg, entries, bucket);
      match choice {
        case Room => o := ReservePlace(id, bucket);
        case NoCapacity => o := AcquireBusy;
        case Pick(v) =>
          PickedVictim(cfg, entries, bucket);
          MarkRetiring(v);
          o := MustRetire(Data(), v);
      }
    }

    method MarkRetiring(v: Entry)
      requires Valid() && v in entries && Idle(v)
      modifies this`entries
      ensures Valid() && entries == Store(old(entries), Retired(v))
    {
      StoreDistinct(entries, v, Retired(v));
      StoreMembers(entries, v, Retired(v));
      assert Sound(v, nextSerial);
      entries := Store(entries, Retired(v));
    }

    /** A LOADING entry under a new generation of the id. */
    method ReservePlace(id: string, bucket: string) returns (o: AcquireOutcome)
      requires Valid()
      modifies this`entries, this`lastGeneration, this`nextSerial
      ensures Valid() && o == Reserve(old(Data()), id, bucket) && Data() == o.cache
    {
      var g := NextGeneration(Data(), id);
      var e := Entry(nextSerial, id, bucket, Loading, None, 0, g);
      MoveKeepsValid(entries, e, nextSerial);
      entries, lastGeneration, nextSerial := Refresh(entries, e), lastGeneration[id := g], nextSerial + 1;
      o := Reserved(Data(), e);
    }

    /** Second critical section: recheck the id and the capacity, then reserve. */
    method ReserveLocked(id: string, mediaType: Option<string>) returns (o: AcquireOutcome)
      requires Valid()
      modifies this`entries, this`lastGeneration, this`nextSerial
      ensures Valid()
      ensures o == AcquireSecond(cfg, old(Data()), id, cfg.BucketFor(mediaType))
      ensures Data() == if o.Reserved? then o.cache else old(Data())
    {
      var bucket := cfg.BucketFor(mediaType);
      if Find(entries, id).Some? || !SelectVictim(cfg, entries, bucket).Room? {
        return AcquireBusy;
      }
      o := ReservePlace(id, bucket);
    }

    /** `acquire_or_reserve` as a whole, from the table it finds: a READY entry is
        pinned; a leased stale one is handed back to wait for; an id on its way in or
        out is refused; a free place is reserved; and one stale or surplus entry,
        `retired`, is cleaned and gone before the capacity is looked at again. */
    method AcquireOrReserve(id: string, mediaType: Option<string>, raises: nat -> bool)
      returns (o: AcquireOutcome, raised: Option<nat>, ghost retired: Option<Entry>)
      requires Valid()
      modifies this
      ensures Valid()
      ensures RetiresRightly(cfg, old(entries), id, cfg.BucketFor(mediaType), retired)
      ensures AnswersRightly(cfg, old(Data()), id, cfg.BucketFor(mediaType), o, Data(), raised.Some?, retired)
      ensures retired.Some? ==> retired.value.runtime.Some?
      ensures raised == if retired.Some? && raises(retired.value.runtime.value) then retired.value.runtime else None
      ensures cleanups == old(cleanups) + (if retired.Some? then [retired.value.runtime.value] else [])
      ensures notifications == old(notifications) + (if retired.Some? then 1 else 0)
    {
      hide AcquireFirst, AcquireSecond, RetiresRightly, AnswersRightly, Distinct, Drop;
      ghost var c0, b := Data(), cfg.BucketFor(mediaType);
      o := AcquireLocked(id, mediaType);
      raised, retired := None, None;
      if !o.MustRetire? {
        WithoutRetirement(cfg, c0, id, b);
        return;
      }
      AfterVictimIsDrop(cfg, c0, id, b);
      assert Sound(o.victim, c0.nextSerial);
      retired := Some(o.victim);
      raised := FinishRetirement(o.victim, raises);
      WithRetirement(cfg, c0, id, b, raised.Some?);
      if raised.Some? { return AcquireBusy, raised, retired; }
      o := ReserveLocked(id, mediaType);
    }

    /** `publish_ready_and_pin`: the reservation becomes READY with one lease, unless
        the slot is no longer this reservation's. */
    method PublishReadyAndPin(id: string, serial: nat, rt: nat) returns (lost: bool)
      requires Valid()
      modifies this`entries
      ensures Valid()
      ensures lost == PublishLocked(old(Data()), id, serial, rt).None?
      ensures Data() == if lost then old(Data()) else PublishLocked(old(Data()), id, serial, rt).value
    {
      var current := Find(entries, id);
      if current.None? || current.value.serial != serial { return true; }
      var x := current.value.(runtime := Some(rt), state := Ready, leases := 1);
      MoveKeepsValid(entries, x, nextSerial);
      entries := Refresh(entries, x);
      lost := false;
    }

    /** `mark_invalid`: only the current, READY object is marked. */
    method MarkInvalid(id: string, serial: nat)
      requires Valid()
      modifies this`entries
      ensures Valid() && Data() == InvalidateLocked(old(Data()), id, serial)
    {
      var current := Find(entries, id);
      if current.Some? && current.value.serial == serial && current.value.state.Ready? {
        var x := current.value;
        StoreDistinct(entries, x, x.(state := Invalid));
        StoreMembers(entries, x, x.(state := Invalid));
        assert Sound(x, nextSerial);
        entries := Store(entries, x.(state := Invalid));
      }
    }

    /** `unload`: a busy entry is refused, an idle one is retired and removed even if
        its cleanup raises. */
    method Unload(id: string, raises: nat -> bool) returns (busy: bool, raised: Option<nat>)
      requires Valid()
      modifies this`entries, this`cleanups, this`notifications
      ensures Valid()
      ensures var x := Find(old(entries), id);
        && busy == (x.Some? && BusyForUnload(x.value))
        && (busy || x.None? ==> entries == old(entries) && cleanups == old(cleanups) && notifications == old(notifications) && raised.None?)
        && (!busy && x.Some? ==> entries == Drop(old(entries), id))
        && (!busy && x.Some? ==> notifications == old(notifications) + 1)
        && (!busy && x.Some? ==> cleanups == old(cleanups) + Runtimes([x.value]))
        && (!busy && x.Some? ==> raised == FirstRaised(Runtimes([x.value]), raises))
    {
      hide Drop, Store, Distinct, Find;
      var x := Find(entries, id);
      busy, raised := x.Some? && BusyForUnload(x.value), None;
      if busy || x.None? { return; }
      assert Sound(x.value, nextSerial);
      StoreThenDrop(entries, x.value);
      MarkRetiring(x.value);
      raised := FinishRetirement(x.value, raises);
    }
  }

  // ------------------------------------------------------- specification

  /** Of an entry object: allocated, and holding a runtime once it is past loading. */
  predicate Sound(e: Entry, next: nat) {
    e.serial < next && (e.state.Loading? || e.runtime.Some?)
  }

  /** Removes each of these objects that is still in the table. */
  function RemoveEach(es: Table, victims: seq<Entry>): Table
    decreases |victims|
  {
    if victims == [] then es
    else RemoveEach(RemoveLocked(Cache(es, map[], 0), victims[0].id, victims[0].serial).entries, victims[1..])
  }

  /** The runtimes of a list of entries, in order. */
  function Runtimes(es: seq<Entry>): seq<nat> {
    if es == [] then []
    else (if es[0].runtime.Some? then [es[0].runtime.value] else []) + Runtimes(es[1..])
  }

  function FirstRaised(rts: seq<nat>, raises: nat -> bool): Option<nat> {
    if rts == [] then None
    else if raises(rts[0]) then Some(rts[0])
    else FirstRaised(rts[1..], raises)
  }

  lemma {:induction false} RuntimesAppend(a: seq<Entry>, b: seq<Entry>)
    ensures Runtimes(a + b) == Runtimes(a) + Runtimes(b)
  {
    if a == [] {
      assert a + b == b;
    } else {
      assert (a + b)[1..] == a[1..] + b && (a + b)[0] == a[0];
      RuntimesAppend(a[1..], b);
      var head := if a[0].runtime.Some? then [a[0].runtime.value] else [];
      assert head + (Runtimes(a[1..]) + Runtimes(b)) == head + Runtimes(a[1..]) + Runtimes(b);
    }
  }

  lemma RuntimesSnoc(victims: seq<Entry>, i: nat)
    requires i < |victims| && victims[i].runtime.Some?
    ensures Runtimes(victims[..i + 1]) == Runtimes(victims[..i]) + [victims[i].runtime.value]
  {
    assert victims[..i + 1] == victims[..i] + [victims[i]];
    RuntimesAppend(victims[..i], [victims[i]]);
    assert Runtimes([victims[i]]) == [victims[i].runtime.value];
  }

  lemma {:induction false} FirstRaisedSnoc(rts: seq<nat>, rt: nat, raises: nat -> bool)
    ensures FirstRaised(rts + [rt], raises) ==
      if FirstRaised(rts, raises).Some? then FirstRaised(rts, raises) else if raises(rt) then Some(rt) else None
  {
    if rts == [] {
      assert rts + [rt] == [rt];
    } else {
      assert (rts + [rt])[1..] == rts[1..] + [rt];
      FirstRaisedSnoc(rts[1..], rt, raises);
    }
  }

  lemma {:induction false} RetiredRuntimes(es: Table)
    ensures Runtimes(AllRetired(es)) == Runtimes(es)
  {
    if es != [] {
      assert AllRetired(es)[1..] == AllRetired(es[1..]);
      RetiredRuntimes(es[1..]);
    }
  }

  /** What is left after the removals: exactly the objects that were not listed. */
  lemma {:induction false} RemoveEachMembers(es: Table, victims: seq<Entry>)
    requires Distinct(es)
    ensures forall e :: e in RemoveEach(es, victims) <==> e in es && !Listed(e, victims)
    decreases |victims|
  {
    if victims != [] {
      var v := victims[0];
      var rest := RemoveLocked(Cache(es, map[], 0), v.id, v.serial).entries;
      DropMembers(es, v.id);
      DropDistinct(es, v.id);
      RemoveEachMembers(rest, victims[1..]);
      forall e | e in es ensures e in RemoveEach(es, victims) <==> !Listed(e, victims) {
        FindIs(es, e);
      }
    }
  }

  predicate Listed(e: Entry, victims: seq<Entry>) {
    victims != [] && ((e.id == victims[0].id && e.serial == victims[0].serial) || Listed(e, victims[1..]))
  }

  /** Removing every entry of a table empties it. */
  lemma {:induction false} RemoveEachSelf(es: Table)
    requires Distinct(es)
    ensures RemoveEach(es, es) == []
  {
    if es != [] {
      CountDropAbsent(es[1..], es[0].id);
      assert Drop(es, es[0].id) == es[1..];
      assert Distinct(es[1..]);
      RemoveEachSelf(es[1..]);
    }
  }

  /** One turn of the overflow loop: the rest of the pass, started from the table
      with one more mark, does what the whole pass would have done. */
  lemma OverflowStep(cfg: Config, es: Table, b: string, exclude: Option<string>, i: nat)
    requires Distinct(es) && i < |es| && EvictableIn(b, exclude)(es[i])
    requires forall j :: 0 <= j < i ==> !EvictableIn(b, exclude)(es[j])
    requires Count(es, LiveIn(b)) > cfg.Budget(b)
    ensures var es' := es[i := Retired(es[i])];
      && Excess(cfg, es', b) == Excess(cfg, es, b) - 1
      && Overflow(cfg, es, b, exclude) == Overflow(cfg, es', b, exclude)
      && OverflowVictims(cfg, es, b, exclude) == [es[i]] + OverflowVictims(cfg, es', b, exclude)
  {
    hide Distinct, Count, RetireFirst, FirstOf, Store;
    RetireAtIsStore(es, i);
    CountStore(es, es[i], Retired(es[i]), LiveIn(b));
    RetireFirstUnroll(es, EvictableIn(b, exclude), Excess(cfg, es, b), i);
  }

  lemma OverflowStops(cfg: Config, es: Table, b: string, exclude: Option<string>)
    requires Count(es, LiveIn(b)) <= cfg.Budget(b)
      || forall j :: 0 <= j < |es| ==> !EvictableIn(b, exclude)(es[j])
    ensures Overflow(cfg, es, b, exclude) == es && OverflowVictims(cfg, es, b, exclude) == []
  {
    CountZero(es, EvictableIn(b, exclude));
    FirstOfNone(es, EvictableIn(b, exclude), Excess(cfg, es, b));
  }

  lemma RetireAtIsStore(es: Table, i: nat)
    requires Distinct(es) && i < |es|
    ensures es[i := Retired(es[i])] == Store(es, Retired(es[i])) && Distinct(es[i := Retired(es[i])])
  {
  }

  /** Marked and then removed, an entry is simply gone. */
  lemma StoreThenDrop(es: Table, x: Entry)
    requires Find(es, x.id) == Some(x)
    ensures Find(Store(es, Retired(x)), x.id) == Some(Retired(x))
    ensures Drop(Store(es, Retired(x)), x.id) == Drop(es, x.id)
  {
    FindStore(es, Retired(x), x.id);
    DropAfterStore(es, Retired(x));
  }

  lemma RetireAtSound(es: Table, i: nat, b: string, exclude: Option<string>, next: nat)
    requires i < |es| && EvictableIn(b, exclude)(es[i]) && forall e :: e in es ==> Sound(e, next)
    ensures forall e :: e in es[i := Retired(es[i])] ==> Sound(e, next)
  {
    assert Sound(es[i], next);
  }

  lemma VictimsAreSound(cfg: Config, es: Table, b: string, exclude: Option<string>, next: nat)
    requires forall e :: e in es ==> Sound(e, next)
    ensures forall v :: v in OverflowVictims(cfg, es, b, exclude) ==> v.runtime.Some?
  {
  }

  lemma RewriteKeepsValid(es: Table, x: Entry, e: Entry, next: nat)
    requires Distinct(es) && x in es && forall y :: y in es ==> Sound(y, next)
    requires e.id == x.id && e.serial == x.serial && (e.state.Loading? || e.runtime.Some? || e == x.(leases := e.leases))
    ensures Distinct(Store(es, e)) && forall y :: y in Store(es, e) ==> Sound(y, next)
  {
    assert Sound(x, next);
    StoreDistinct(es, x, e);
    StoreMembers(es, x, e);
  }

  lemma MoveKeepsValid(es: Table, e: Entry, next: nat)
    requires Distinct(es) && forall x :: x in es ==> Sound(x, next)
    requires e.serial == next || exists x :: x in es && x.id == e.id && x.serial == e.serial
    ensures Distinct(Refresh(es, e))
    ensures forall x :: x in Refresh(es, e) ==> Sound(x, next) || x == e
  {
    forall x | x in es && x.id != e.id ensures x.serial != e.serial {
      if e.serial != next {
        var y :| y in es && y.id == e.id && y.serial == e.serial;
        var i :| 0 <= i < |es| && es[i] == x;
        var j :| 0 <= j < |es| && es[j] == y;
        assert i != j;
      }
    }
    RefreshDistinct(es, e);
    DropMembers(es, e.id);
  }
}
