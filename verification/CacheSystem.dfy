/** Every interleaving of cache operations: each short critical section is one
    atomic step, slow cleanup runs between steps, and the state also records what
    callers and in-flight operations still hold. */
module CacheSystem {
  import opened Wrappers
  import opened RuntimeTable
  import opened CacheModel

  /** What a caller that was given an entry object holds. */
  datatype Ref = Ref(id: string, serial: nat)

  function RefOf(e: Entry): Ref { Ref(e.id, e.serial) }

  function Refs(es: seq<Entry>): set<Ref> { set e | e in es :: RefOf(e) }

  datatype System = System(
    cache: Cache,
    handles: multiset<Ref>,      // leases handed out and not yet released
    reservations: set<Ref>,      // reservations neither published nor aborted
    marked: set<Ref>,            // retirements whose cleanup has not been attempted
    swept: set<Ref>,             // retirements cleaned up but not yet removed
    displaced: multiset<nat>,    // runtimes `put` replaced, cleanup still to come
    cleaned: multiset<nat>,      // runtimes handed to the cleanup hook
    introduced: set<nat>,        // runtimes ever given to the cache
    sleepers: map<nat, Ref>)     // drain waiters parked on the condition variable

  datatype Step =
    | Get(id: string)
    | Put(id: string, rt: nat, bucket: string)
    | CleanDisplaced(rt: nat)
    | DisposeUnpublished(rt: nat)
    | Unload(id: string)
    | UnloadAll
    | Acquire(id: string, bucket: string)
    | AcquireAgain(id: string, bucket: string)
    | Publish(ref: Ref, rt: nat)
    | Abort(ref: Ref)
    | Release(ref: Ref)
    | Invalidate(ref: Ref)
    | Clean(ref: Ref)
    | Remove(ref: Ref)
    | Park(waiter: nat, ref: Ref)

  /** `current is entry` for the object a caller holds. */
  predicate At(es: Table, r: Ref) {
    var x := Find(es, r.id);
    x.Some? && x.value.serial == r.serial
  }

  /** The drain waiter's predicate: this object still blocks its id. */
  predicate Blocks(es: Table, r: Ref) {
    At(es, r) && (Find(es, r.id).value.leases > 0 || Find(es, r.id).value.state.Retiring?)
  }

  /** The protocol of callers: a fresh runtime object for every publication, one
      publication or abort per reservation, one release per lease, and a cleanup
      followed by a removal per retirement. Everything else is unrestricted. */
  predicate Enabled(s: System, step: Step) {
    match step
    case Put(id, rt, _) =>
      rt !in s.introduced || (Find(s.cache.entries, id).Some? && Find(s.cache.entries, id).value.runtime == Some(rt))
    case CleanDisplaced(rt) => rt in s.displaced
    case DisposeUnpublished(rt) => rt !in s.introduced
    case Publish(r, rt) => r in s.reservations && rt !in s.introduced
    case Abort(r) => r in s.reservations
    case Release(r) => r in s.handles
    case Clean(r) => r in s.marked && At(s.cache.entries, r)
    case Remove(r) => r in s.swept
    case Park(_, r) => Blocks(s.cache.entries, r)
    case _ => true
  }

  function AsMultiset(o: Option<nat>): multiset<nat> {
    if o.Some? then multiset{o.value} else multiset{}
  }

  function Apply(cfg: Config, s: System, step: Step): System
    requires Enabled(s, step)
  {
    var c := s.cache;
    match step
    case Get(id) => s.(cache := GetLocked(c, id))
    case Put(id, rt, bucket) =>
      (match PutLocked(cfg, c, id, rt, bucket)
       case PutBusy => s
       case PutDone(c', out, victims) =>
         s.(cache := c', displaced := s.displaced + AsMultiset(out),
            marked := s.marked + Refs(victims), introduced := s.introduced + {rt}))
    case CleanDisplaced(rt) =>
      s.(displaced := s.displaced - multiset{rt}, cleaned := s.cleaned + multiset{rt})
    case DisposeUnpublished(rt) =>
      s.(introduced := s.introduced + {rt}, cleaned := s.cleaned + multiset{rt})
    case Unload(id) =>
      (match Find(c.entries, id)
       case Some(x) =>
         if BusyForUnload(x) then s
         else s.(cache := UnloadLocked(c, id), marked := s.marked + {RefOf(x)})
       case None => s)
    case UnloadAll =>
      if AnyBusy(c.entries) then s
      else s.(cache := UnloadAllLocked(c), marked := s.marked + Refs(c.entries))
    case Acquire(id, bucket) =>
      (match AcquireFirst(cfg, c, id, bucket)
       case Hit(c', e) => s.(cache := c', handles := s.handles + multiset{RefOf(e)})
       case Reserved(c', e) => s.(cache := c', reservations := s.reservations + {RefOf(e)})
       case MustRetire(c', v) => s.(cache := c', marked := s.marked + {RefOf(v)})
       case Draining(_) => s
       case AcquireBusy => s)
    case AcquireAgain(id, bucket) =>
      (match AcquireSecond(cfg, c, id, bucket)
       case Reserved(c', e) => s.(cache := c', reservations := s.reservations + {RefOf(e)})
       case _ => s)
    case Publish(r, rt) =>
      (match PublishLocked(c, r.id, r.serial, rt)
       case None => s
       case Some(c') =>
         s.(cache := c', reservations := s.reservations - {r}, introduced := s.introduced + {rt},
            handles := s.handles + multiset{r}))
    case Abort(r) =>
      s.(cache := RemoveLocked(c, r.id, r.serial), reservations := s.reservations - {r})
    case Release(r) =>
      (match ReleaseLocked(cfg, c, r.id, r.serial)
       case Stale => s.(handles := s.handles - multiset{r})
       case Released(c', victims) =>
         s.(cache := c', handles := s.handles - multiset{r},
            marked := s.marked + Refs(victims), sleepers := map[]))
    case Invalidate(r) => s.(cache := InvalidateLocked(c, r.id, r.serial))
    case Clean(r) =>
      s.(marked := s.marked - {r}, swept := s.swept + {r},
         cleaned := s.cleaned + AsMultiset(Find(c.entries, r.id).value.runtime))
    case Remove(r) =>
      s.(cache := RemoveLocked(c, r.id, r.serial), swept := s.swept - {r}, sleepers := map[])
    case Park(w, r) => s.(sleepers := s.sleepers[w := r])
  }

  function Initial(): System {
    System(Cache([], map[], 0), multiset{}, {}, {}, {}, multiset{}, multiset{}, {}, map[])
  }

  /** `s'` is reached from `s` by these steps, each enabled when it is taken. */
  ghost predicate Run(cfg: Config, s: System, steps: seq<Step>, s': System)
    decreases |steps|
  {
    if steps == [] then s' == s
    else Enabled(s, steps[0]) && Run(cfg, Apply(cfg, s, steps[0]), steps[1..], s')
  }

  // ------------------------------------------------------------- invariant

  /** Runtimes the table holds that have not been cleaned. */
  function Held(es: Table, swept: set<Ref>): multiset<nat> {
    if es == [] then multiset{}
    else HeldBy(es[0], swept) + Held(es[1..], swept)
  }

  function HeldBy(e: Entry, swept: set<Ref>): multiset<nat> {
    if RefOf(e) in swept then multiset{} else AsMultiset(e.runtime)
  }

  ghost predicate EntryOk(c: Cache, x: Option<Entry>) {
    x.Some? ==>
      && x.value.serial < c.nextSerial
      && x.value.id in c.lastGeneration && x.value.generation <= c.lastGeneration[x.value.id]
      && (x.value.runtime.None? <==> x.value.state.Loading?)
  }

  ghost predicate WellFormed(c: Cache) {
    Distinct(c.entries) && forall k :: EntryOk(c, Find(c.entries, k))
  }

  ghost predicate LeaseOk(handles: multiset<Ref>, x: Option<Entry>) {
    x.Some? ==>
      && x.value.leases == handles[RefOf(x.value)]
      && (x.value.state.Loading? || x.value.state.Retiring? ==> x.value.leases == 0)
  }

  /** A lease count is the number of outstanding handles of that very object, and
      only READY or INVALID entries can have any. */
  ghost predicate LeasesMatch(s: System) {
    && (forall k :: LeaseOk(s.handles, Find(s.cache.entries, k)))
    && (forall r :: r in s.handles ==> At(s.cache.entries, r))
  }

  /** The object `r` is in the table, in state `st`. */
  predicate InState(es: Table, r: Ref, st: RuntimeState) {
    At(es, r) && Find(es, r.id).value.state == st
  }

  ghost predicate RecordedIf(x: Option<Entry>, st: RuntimeState, refs: set<Ref>) {
    x.Some? && x.value.state == st ==> RefOf(x.value) in refs
  }

  /** `refs` are exactly the objects in state `st`. */
  ghost predicate ExactlyIn(es: Table, st: RuntimeState, refs: set<Ref>) {
    && (forall k :: RecordedIf(Find(es, k), st, refs))
    && (forall r :: r in refs ==> InState(es, r, st))
  }

  ghost predicate ReservationsMatch(s: System) {
    ExactlyIn(s.cache.entries, Loading, s.reservations)
  }

  /** The RETIRING entries are exactly those some operation still owes a removal. */
  ghost predicate RetirementsMatch(s: System) {
    s.marked !! s.swept && ExactlyIn(s.cache.entries, Retiring, s.marked + s.swept)
  }

  /** Conservation: a runtime given to the cache is in the table, on its way to
      cleanup or cleaned, exactly once in total. */
  ghost predicate Conserved(s: System) {
    Held(s.cache.entries, s.swept) + s.displaced + s.cleaned == multiset(s.introduced)
  }

  /** A bucket fits its budget, or at most one of its entries is idle. */
  ghost predicate BucketFits(cfg: Config, es: Table, b: string) {
    Count(es, LiveIn(b)) <= cfg.Budget(b) || Count(es, IdleIn(b)) <= 1
  }

  ghost predicate BudgetsKept(cfg: Config, es: Table) {
    forall b :: BucketFits(cfg, es, b)
  }

  /** No parked waiter whose wait is over: nothing is lost between a check and a wakeup. */
  ghost predicate NoLostWakeup(s: System) {
    forall w :: w in s.sleepers ==> Blocks(s.cache.entries, s.sleepers[w])
  }

  ghost predicate Core(s: System) {
    WellFormed(s.cache) && LeasesMatch(s) && ReservationsMatch(s) && RetirementsMatch(s) && Conserved(s) && NoLostWakeup(s)
  }

  ghost predicate Inv(cfg: Config, s: System) {
    Core(s) && BudgetsKept(cfg, s.cache.entries)
  }
}
