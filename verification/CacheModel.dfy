/** What each short critical section of the runtime cache does to the cache's
    own data, as a function of the data it finds. */
module CacheModel {
  import opened Wrappers
  import opened RuntimeTable

  const DEFAULT_BUCKET := "__default__"

  datatype Config = Config(maxEntries: nat, limits: map<string, nat>) {
    /** What the constructor insists on. */
    predicate Accepted() {
      maxEntries >= 1 && forall m :: m in limits ==> limits[m] >= 1
    }

    function BucketFor(mediaType: Option<string>): string {
      if mediaType.Some? && mediaType.value in limits then mediaType.value else DEFAULT_BUCKET
    }

    function Budget(bucket: string): nat {
      if bucket in limits then limits[bucket] else maxEntries
    }
  }

  /** `nextSerial` stands for object allocation; the rest are the cache's fields. */
  datatype Cache = Cache(entries: Table, lastGeneration: map<string, nat>, nextSerial: nat)

  // -------------------------------------------------- classes of entries

  function InBucket(b: string): Entry -> bool {
    (e: Entry) => e.bucket == b
  }

  function RetiringIn(b: string): Entry -> bool {
    (e: Entry) => e.bucket == b && e.state.Retiring?
  }

  /** Occupies a place in the bucket and is not already on its way out. */
  function LiveIn(b: string): Entry -> bool {
    (e: Entry) => e.bucket == b && !e.state.Retiring?
  }

  predicate Idle(e: Entry) {
    e.leases == 0 && (e.state.Ready? || e.state.Invalid?)
  }

  function IdleIn(b: string): Entry -> bool {
    (e: Entry) => e.bucket == b && Idle(e)
  }

  /** Candidates of an overflow pass; `exclude` is the id just inserted, if any. */
  function EvictableIn(b: string, exclude: Option<string>): Entry -> bool {
    (e: Entry) => e.bucket == b && Some(e.id) != exclude && Idle(e)
  }

  predicate BusyForUnload(e: Entry) {
    e.leases > 0 || e.state.Loading? || e.state.Retiring?
  }

  function Occupancy(es: Table, b: string): nat { Count(es, InBucket(b)) }

  lemma {:induction false} OccupancySplits(es: Table, b: string)
    ensures Occupancy(es, b) == Count(es, RetiringIn(b)) + Count(es, LiveIn(b))
  {
    if es != [] {
      OccupancySplits(es[1..], b);
    }
  }

  // ------------------------------------------------------------ eviction

  function Excess(cfg: Config, es: Table, b: string): nat {
    Max(0, Count(es, LiveIn(b)) - cfg.Budget(b))
  }

  /** The table after an overflow pass over bucket `b`. */
  function Overflow(cfg: Config, es: Table, b: string, exclude: Option<string>): Table {
    RetireFirst(es, EvictableIn(b, exclude), Excess(cfg, es, b))
  }

  function OverflowVictims(cfg: Config, es: Table, b: string, exclude: Option<string>): seq<Entry> {
    FirstOf(es, EvictableIn(b, exclude), Excess(cfg, es, b))
  }

  datatype Selection = Room | Pick(victim: Entry) | NoCapacity

  /** Victim for one new reservation: at most one, and only if retiring it would
      really make room. */
  function SelectVictim(cfg: Config, es: Table, b: string): Selection {
    var occupied := Occupancy(es, b);
    var retiring := Count(es, RetiringIn(b));
    if occupied < cfg.Budget(b) then Room
    else if occupied - retiring < cfg.Budget(b) then NoCapacity
    else if Count(es, IdleIn(b)) == 0 then NoCapacity
    else if occupied - retiring - 1 >= cfg.Budget(b) then NoCapacity
    else
      FirstOfCount(es, IdleIn(b), 1);
      Pick(FirstOf(es, IdleIn(b), 1)[0])
  }

  // ----------------------------------------------------- critical sections

  function NextGeneration(c: Cache, id: string): nat {
    if id in c.lastGeneration then c.lastGeneration[id] + 1 else 0
  }

  /** A new entry object for `id`, placed last in the order. */
  function Insert(c: Cache, id: string, bucket: string, state: RuntimeState, runtime: Option<nat>): Cache {
    var g := NextGeneration(c, id);
    Cache(Refresh(c.entries, Entry(c.nextSerial, id, bucket, state, runtime, 0, g)),
          c.lastGeneration[id := g], c.nextSerial + 1)
  }

  datatype PutOutcome =
    | PutBusy
    | PutDone(cache: Cache, displaced: Option<nat>, victims: seq<Entry>)

  function Settle(cfg: Config, c: Cache, id: string, bucket: string, displaced: Option<nat>): PutOutcome {
    PutDone(c.(entries := Overflow(cfg, c.entries, bucket, Some(id))), displaced,
            OverflowVictims(cfg, c.entries, bucket, Some(id)))
  }

  function PutLocked(cfg: Config, c: Cache, id: string, rt: nat, bucket: string): PutOutcome {
    match Find(c.entries, id)
    case None => Settle(cfg, Insert(c, id, bucket, Ready, Some(rt)), id, bucket, None)
    case Some(x) =>
      if BusyForUnload(x) then PutBusy
      else if x.runtime == Some(rt) then
        if x.state.Invalid? then PutBusy
        else Settle(cfg, c.(entries := Refresh(c.entries, x.(bucket := bucket))), id, bucket, None)
      else Settle(cfg, Insert(c, id, bucket, Ready, Some(rt)), id, bucket, x.runtime)
  }

  function GetLocked(c: Cache, id: string): Cache {
    match Find(c.entries, id)
    case None => c
    case Some(x) => if x.state.Ready? then c.(entries := Refresh(c.entries, x)) else c
  }

  /** Marks the entry under `id`, if there is one and it is idle. */
  function UnloadLocked(c: Cache, id: string): Cache {
    match Find(c.entries, id)
    case None => c
    case Some(x) => if BusyForUnload(x) then c else c.(entries := Store(c.entries, Retired(x)))
  }

  predicate AnyBusy(es: Table) { exists e :: e in es && BusyForUnload(e) }

  function AllRetired(es: Table): (r: Table)
    ensures |r| == |es| && forall i :: 0 <= i < |es| ==> r[i] == Retired(es[i])
  {
    if es == [] then [] else [Retired(es[0])] + AllRetired(es[1..])
  }

  function UnloadAllLocked(c: Cache): Cache {
    if AnyBusy(c.entries) then c else c.(entries := AllRetired(c.entries))
  }

  datatype AcquireOutcome =
    | Hit(cache: Cache, entry: Entry)
    | Reserved(cache: Cache, entry: Entry)
    | MustRetire(cache: Cache, victim: Entry)
    | Draining(stale: Entry)
    | AcquireBusy

  function Reserve(c: Cache, id: string, bucket: string): AcquireOutcome {
    Reserved(Insert(c, id, bucket, Loading, None),
             Entry(c.nextSerial, id, bucket, Loading, None, 0, NextGeneration(c, id)))
  }

  /** First critical section of `acquire_or_reserve`. */
  function AcquireFirst(cfg: Config, c: Cache, id: string, bucket: string): AcquireOutcome {
    match Find(c.entries, id)
    case Some(x) =>
      if x.state.Ready? then
        var pinned := x.(leases := x.leases + 1);
        Hit(c.(entries := Refresh(c.entries, pinned)), pinned)
      else if x.state.Loading? || x.state.Retiring? then AcquireBusy
      else if x.leases > 0 then Draining(x)
      else MustRetire(c.(entries := Store(c.entries, Retired(x))), x)
    case None =>
      match SelectVictim(cfg, c.entries, bucket)
      case Room => Reserve(c, id, bucket)
      case NoCapacity => AcquireBusy
      case Pick(v) => MustRetire(c.(entries := Store(c.entries, Retired(v))), v)
  }

  /** Second critical section, after the victim was cleaned up and removed. */
  function AcquireSecond(cfg: Config, c: Cache, id: string, bucket: string): AcquireOutcome {
    if Find(c.entries, id).Some? then AcquireBusy
    else if SelectVictim(cfg, c.entries, bucket).Room? then Reserve(c, id, bucket)
    else AcquireBusy
  }

  /** `current is entry`: the table still holds this very object under its id. */
  predicate Current(c: Cache, id: string, serial: nat) {
    var x := Find(c.entries, id);
    x.Some? && x.value.serial == serial
  }

  function PublishLocked(c: Cache, id: string, serial: nat, rt: nat): Option<Cache> {
    if !Current(c, id, serial) then None
    else
      var x := Find(c.entries, id).value;
      Some(c.(entries := Refresh(c.entries, x.(runtime := Some(rt), state := Ready, leases := 1))))
  }

  function RemoveLocked(c: Cache, id: string, serial: nat): Cache {
    if Current(c, id, serial) then c.(entries := Drop(c.entries, id)) else c
  }

  function InvalidateLocked(c: Cache, id: string, serial: nat): Cache {
    if !Current(c, id, serial) then c
    else
      var x := Find(c.entries, id).value;
      if x.state.Ready? then c.(entries := Store(c.entries, x.(state := Invalid))) else c
  }

  datatype ReleaseOutcome =
    | Stale
    | Released(cache: Cache, victims: seq<Entry>)

  function ReleaseLocked(cfg: Config, c: Cache, id: string, serial: nat): ReleaseOutcome {
    if !Current(c, id, serial) then Stale
    else
      var x := Find(c.entries, id).value;
      var n := Max(0, x.leases - 1);
      var es := Store(c.entries, x.(leases := n));
      if n == 0 then
        Released(c.(entries := Overflow(cfg, es, x.bucket, None)), OverflowVictims(cfg, es, x.bucket, None))
      else Released(c.(entries := es), [])
  }
}
