/** Each edit of the table keeps the system invariant. */
module CacheProofs {
  import opened Wrappers
  import opened RuntimeTable
  import opened CacheModel
  import opened CacheSystem

  /** `unload_all` marks every entry, or with a busy one among them none. */
  lemma UnloadAllOrNone(c: Cache)
    ensures var r := UnloadAllLocked(c);
      && r == c.(entries := r.entries)
      && ((exists e :: e in c.entries && (e.leases > 0 || e.state in {Loading, Retiring})) ==> r == c)
      && ((forall e :: e in c.entries ==> e.leases == 0 && e.state in {Ready, Invalid}) ==>
            |r.entries| == |c.entries| && forall i :: 0 <= i < |r.entries| ==> r.entries[i] == c.entries[i].(state := Retiring))
  {
  }

  // ---------------------------------------------- how edits look to lookups

  ghost predicate UpdatesOne(es: Table, es': Table, e: Entry) {
    forall k :: Find(es', k) == if k == e.id then Some(e) else Find(es, k)
  }

  ghost predicate RemovesOne(es: Table, es': Table, id: string) {
    forall k :: Find(es', k) == if k == id then None else Find(es, k)
  }

  /** Some idle entries, those in `marks`, were turned to RETIRING in place. */
  ghost predicate RetiresSome(es: Table, es': Table, marks: set<Ref>) {
    && |es'| == |es|
    && (forall i :: 0 <= i < |es| ==> es'[i] == if RefOf(es[i]) in marks then Retired(es[i]) else es[i])
    && (forall i :: 0 <= i < |es| && RefOf(es[i]) in marks ==> Idle(es[i]))
    && (forall r :: r in marks ==> At(es, r))
  }

  lemma RefreshUpdates(es: Table, e: Entry)
    ensures UpdatesOne(es, Refresh(es, e), e)
  {
    forall k ensures Find(Refresh(es, e), k) == if k == e.id then Some(e) else Find(es, k) {
      FindRefresh(es, e, k);
    }
  }

  lemma StoreUpdates(es: Table, e: Entry)
    requires Find(es, e.id).Some?
    ensures UpdatesOne(es, Store(es, e), e)
  {
    forall k ensures Find(Store(es, e), k) == if k == e.id then Some(e) else Find(es, k) {
      FindStore(es, e, k);
    }
  }

  lemma DropRemoves(es: Table, id: string)
    ensures RemovesOne(es, Drop(es, id), id)
  {
    forall k ensures Find(Drop(es, id), k) == if k == id then None else Find(es, k) {
      FindDrop(es, id, k);
    }
  }

  function MarkedIn(x: Option<Entry>, marks: set<Ref>): Option<Entry> {
    if x.Some? && RefOf(x.value) in marks then Some(Retired(x.value)) else x
  }

  lemma {:induction false} FindPointwise(es: Table, es': Table, marks: set<Ref>, k: string)
    requires |es'| == |es|
    requires forall i :: 0 <= i < |es| ==> es'[i] == if RefOf(es[i]) in marks then Retired(es[i]) else es[i]
    ensures Find(es', k) == MarkedIn(Find(es, k), marks)
  {
    if es != [] {
      FindPointwise(es[1..], es'[1..], marks, k);
    }
  }

  lemma RetiresSomeLookups(es: Table, es': Table, marks: set<Ref>)
    requires RetiresSome(es, es', marks)
    ensures forall k :: Find(es', k) == MarkedIn(Find(es, k), marks)
    ensures forall r :: r in marks ==>
      Find(es, r.id).Some? && RefOf(Find(es, r.id).value) == r && Idle(Find(es, r.id).value)
  {
    forall k ensures Find(es', k) == MarkedIn(Find(es, k), marks) {
      FindPointwise(es, es', marks, k);
    }
    forall r | r in marks
      ensures Find(es, r.id).Some? && RefOf(Find(es, r.id).value) == r && Idle(Find(es, r.id).value)
    {
      assert At(es, r);
      var i :| 0 <= i < |es| && es[i] == Find(es, r.id).value;
    }
  }

  lemma RetireFirstShape(es: Table, f: Entry -> bool, k: nat)
    requires Distinct(es) && forall e :: e in es && f(e) ==> Idle(e)
    ensures RetiresSome(es, RetireFirst(es, f, k), Refs(FirstOf(es, f, k)))
  {
    var victims := FirstOf(es, f, k);
    RetireFirstMarks(es, f, k);
    forall i | 0 <= i < |es| ensures RefOf(es[i]) in Refs(victims) <==> es[i] in victims {
      if RefOf(es[i]) in Refs(victims) {
        var v :| v in victims && RefOf(v) == RefOf(es[i]);
        var j :| 0 <= j < |es| && es[j] == v;
        assert i == j;
      }
    }
    forall r | r in Refs(victims) ensures At(es, r) {
      var v :| v in victims && RefOf(v) == r;
      FindIs(es, v);
    }
  }

  lemma StoreRetires(es: Table, v: Entry)
    requires Distinct(es) && v in es && Idle(v)
    ensures RetiresSome(es, Store(es, Retired(v)), {RefOf(v)})
  {
    FindIs(es, v);
    var j :| 0 <= j < |es| && es[j] == v;
    assert forall i :: 0 <= i < |es| && es[i].id == v.id ==> i == j;
  }

  lemma AllRetiredShape(es: Table)
    requires Distinct(es) && !AnyBusy(es)
    ensures RetiresSome(es, AllRetired(es), Refs(es))
  {
    forall i | 0 <= i < |es| ensures Idle(es[i]) && RefOf(es[i]) in Refs(es) {
      assert es[i] in es;
    }
    forall r | r in Refs(es) ensures At(es, r) {
      var v :| v in es && RefOf(v) == r;
      FindIs(es, v);
    }
  }

  // ------------------------------------------------------ held runtimes

  lemma {:induction false} HeldAppend(es: Table, e: Entry, swept: set<Ref>)
    ensures Held(es + [e], swept) == Held(es, swept) + HeldBy(e, swept)
  {
    if es == [] {
      assert es + [e] == [e];
      assert [e][1..] == [];
    } else {
      assert (es + [e])[1..] == es[1..] + [e];
      HeldAppend(es[1..], e, swept);
    }
  }

  lemma {:induction false} HeldDrop(es: Table, e: Entry, swept: set<Ref>)
    requires Distinct(es) && e in es
    ensures Held(es, swept) == Held(Drop(es, e.id), swept) + HeldBy(e, swept)
  {
    assert Distinct(es[1..]);
    if es[0] == e {
      CountDropAbsent(es[1..], e.id);
    } else {
      assert e in es[1..];
      HeldDrop(es[1..], e, swept);
      assert Drop(es, e.id) == [es[0]] + Drop(es[1..], e.id);
    }
  }

  /** Refreshing under the same id exchanges what that entry holds. */
  lemma HeldRefresh(es: Table, e: Entry, swept: set<Ref>)
    requires Distinct(es)
    ensures Held(Refresh(es, e), swept) + (var x := Find(es, e.id); if x.Some? then HeldBy(x.value, swept) else multiset{})
         == Held(es, swept) + HeldBy(e, swept)
  {
    HeldAppend(Drop(es, e.id), e, swept);
    var x := Find(es, e.id);
    if x.Some? {
      HeldDrop(es, x.value, swept);
    } else {
      CountDropAbsent(es, e.id);
    }
  }

  lemma HeldRefreshSame(es: Table, e: Entry, swept: set<Ref>)
    requires Distinct(es) && Find(es, e.id).Some?
    requires HeldBy(Find(es, e.id).value, swept) == HeldBy(e, swept)
    ensures Held(Refresh(es, e), swept) == Held(es, swept)
  {
    HeldRefresh(es, e, swept);
    Cancel(Held(Refresh(es, e), swept), Held(es, swept), HeldBy(e, swept));
  }

  lemma Cancel(a: multiset<nat>, b: multiset<nat>, m: multiset<nat>)
    requires a + m == b + m
    ensures a == b
  {
    forall x ensures a[x] == b[x] {
      assert (a + m)[x] == a[x] + m[x] && (b + m)[x] == b[x] + m[x];
    }
  }

  lemma {:induction false} HeldSame(es: Table, es': Table, swept: set<Ref>)
    requires |es| == |es'|
    requires forall i :: 0 <= i < |es| ==> RefOf(es[i]) == RefOf(es'[i]) && es[i].runtime == es'[i].runtime
    ensures Held(es, swept) == Held(es', swept)
  {
    if es != [] {
      HeldSame(es[1..], es'[1..], swept);
    }
  }

  lemma {:induction false} HeldUnswept(es: Table, swept: set<Ref>, r: Ref)
    requires forall e :: e in es ==> RefOf(e) != r
    ensures Held(es, swept + {r}) == Held(es, swept) == Held(es, swept - {r})
  {
    if es != [] {
      HeldUnswept(es[1..], swept, r);
      assert RefOf(es[0]) in swept + {r} <==> RefOf(es[0]) in swept;
    }
  }

  lemma {:induction false} HeldSweep(es: Table, swept: set<Ref>, e: Entry)
    requires Distinct(es) && e in es && RefOf(e) !in swept
    ensures Held(es, swept) == Held(es, swept + {RefOf(e)}) + AsMultiset(e.runtime)
  {
    hide Held, Distinct;
    var more := swept + {RefOf(e)};
    HeldFirst(es, swept);
    HeldFirst(es, more);
    FirstIsDistinct(es);
    if es[0] == e {
      HeldUnswept(es[1..], swept, RefOf(e));
      assert HeldBy(e, more) == multiset{};
    } else {
      assert e in es[1..];
      HeldSweep(es[1..], swept, e);
      assert HeldBy(es[0], more) == HeldBy(es[0], swept);
    }
  }

  lemma HeldFirst(es: Table, swept: set<Ref>)
    requires es != []
    ensures Held(es, swept) == HeldBy(es[0], swept) + Held(es[1..], swept)
  {
  }

  lemma FirstIsDistinct(es: Table)
    requires Distinct(es) && es != []
    ensures Distinct(es[1..]) && forall e :: e in es[1..] ==> RefOf(e) != RefOf(es[0])
  {
  }

  // ----------------------------------------------------- edits keep Core

  /** The system after some idle entries were turned to RETIRING. */
  function Marking(s: System, es': Table, marks: set<Ref>): System {
    s.(cache := s.cache.(entries := es'), marked := s.marked + marks)
  }

  lemma SameKeysDistinct(es: Table, es': Table)
    requires Distinct(es) && |es| == |es'| && forall i :: 0 <= i < |es| ==> RefOf(es[i]) == RefOf(es'[i])
    ensures Distinct(es')
  {
    forall i, j | 0 <= i < j < |es'| ensures es'[i].id != es'[j].id && es'[i].serial != es'[j].serial {
      assert RefOf(es[i]) == RefOf(es'[i]) && RefOf(es[j]) == RefOf(es'[j]);
    }
  }

  lemma RetireKeepsTable(s: System, es': Table, marks: set<Ref>)
    requires WellFormed(s.cache) && RetiresSome(s.cache.entries, es', marks)
    ensures WellFormed(Marking(s, es', marks).cache)
  {
    SameKeysDistinct(s.cache.entries, es');
    RetiresSomeLookups(s.cache.entries, es', marks);
  }

  lemma RetireKeepsLeases(s: System, es': Table, marks: set<Ref>)
    requires RetiresSome(s.cache.entries, es', marks) && LeasesMatch(s)
    ensures LeasesMatch(Marking(s, es', marks))
  {
    RetiresSomeLookups(s.cache.entries, es', marks);
  }

  lemma RetireKeepsReservations(s: System, es': Table, marks: set<Ref>)
    requires RetiresSome(s.cache.entries, es', marks) && ReservationsMatch(s)
    ensures ReservationsMatch(Marking(s, es', marks))
  {
    RetiresSomeLookups(s.cache.entries, es', marks);
  }

  lemma RetireKeepsRetirements(s: System, es': Table, marks: set<Ref>)
    requires RetiresSome(s.cache.entries, es', marks) && RetirementsMatch(s)
    ensures RetirementsMatch(Marking(s, es', marks))
  {
    RetiresSomeLookups(s.cache.entries, es', marks);
    var s' := Marking(s, es', marks);
    forall r | r in s.swept ensures r !in marks {
      assert r in s.marked + s.swept;
    }
  }

  lemma RetireKeepsSleepers(s: System, es': Table, marks: set<Ref>)
    requires RetiresSome(s.cache.entries, es', marks) && NoLostWakeup(s)
    ensures NoLostWakeup(Marking(s, es', marks))
  {
    RetiresSomeLookups(s.cache.entries, es', marks);
  }

  /** Retiring idle entries: the marked ones become owed removals. */
  lemma RetireKeepsCore(s: System, es': Table, marks: set<Ref>)
    requires Core(s) && RetiresSome(s.cache.entries, es', marks)
    ensures Core(Marking(s, es', marks))
  {
    RetireKeepsTable(s, es', marks);
    RetireKeepsLeases(s, es', marks);
    RetireKeepsReservations(s, es', marks);
    RetireKeepsRetirements(s, es', marks);
    RetireKeepsSleepers(s, es', marks);
    HeldSame(s.cache.entries, es', s.swept);
  }

  // One entry changed: what must hold of it and of the holders of its id.

  lemma UpdateKeepsTable(c: Cache, c': Cache, e: Entry)
    requires WellFormed(c) && UpdatesOne(c.entries, c'.entries, e) && Distinct(c'.entries)
    requires EntryOk(c', Some(e)) && c.nextSerial <= c'.nextSerial
    requires forall k :: k in c.lastGeneration && k != e.id ==> k in c'.lastGeneration && c'.lastGeneration[k] == c.lastGeneration[k]
    ensures WellFormed(c')
  {
    forall k ensures EntryOk(c', Find(c'.entries, k)) {
      assert EntryOk(c, Find(c.entries, k));
    }
  }

  lemma UpdateKeepsLeases(s: System, s': System, e: Entry)
    requires UpdatesOne(s.cache.entries, s'.cache.entries, e) && LeasesMatch(s)
    requires LeaseOk(s'.handles, Some(e))
    requires forall r: Ref :: r.id != e.id ==> s'.handles[r] == s.handles[r]
    requires forall r: Ref :: r.id == e.id && r in s'.handles ==> r == RefOf(e)
    ensures LeasesMatch(s')
  {
    forall k ensures LeaseOk(s'.handles, Find(s'.cache.entries, k)) {
      assert LeaseOk(s.handles, Find(s.cache.entries, k));
    }
    forall r | r in s'.handles ensures At(s'.cache.entries, r) {
      if r.id != e.id {
        assert r in s.handles;
      }
    }
  }

  lemma UpdateKeepsExact(es: Table, es': Table, e: Entry, st: RuntimeState, refs: set<Ref>, refs': set<Ref>)
    requires UpdatesOne(es, es', e) && ExactlyIn(es, st, refs)
    requires forall r: Ref :: r.id != e.id ==> (r in refs <==> r in refs')
    requires RefOf(e) in refs' <==> e.state == st
    requires forall r: Ref :: r.id == e.id && r in refs' ==> r == RefOf(e)
    ensures ExactlyIn(es', st, refs')
  {
    forall k ensures RecordedIf(Find(es', k), st, refs') {
      assert RecordedIf(Find(es, k), st, refs);
    }
    forall r | r in refs' ensures InState(es', r, st) {
      if r.id != e.id {
        assert InState(es, r, st);
      }
    }
  }

  lemma UpdateKeepsSleepers(s: System, s': System, e: Entry)
    requires UpdatesOne(s.cache.entries, s'.cache.entries, e) && NoLostWakeup(s)
    requires || s'.sleepers == map[]
             || (s'.sleepers == s.sleepers &&
                 forall r: Ref :: r.id == e.id && Blocks(s.cache.entries, r) ==>
                   r == RefOf(e) && (e.leases > 0 || e.state.Retiring?))
    ensures NoLostWakeup(s')
  {
    forall w | w in s'.sleepers ensures Blocks(s'.cache.entries, s'.sleepers[w]) {
      assert Blocks(s.cache.entries, s.sleepers[w]);
    }
  }

  // One entry removed.

  lemma RemoveKeepsTable(c: Cache, c': Cache, id: string)
    requires WellFormed(c) && RemovesOne(c.entries, c'.entries, id) && Distinct(c'.entries)
    requires c'.nextSerial == c.nextSerial && c'.lastGeneration == c.lastGeneration
    ensures WellFormed(c')
  {
    forall k ensures EntryOk(c', Find(c'.entries, k)) {
      assert EntryOk(c, Find(c.entries, k));
    }
  }

  lemma RemoveKeepsLeases(s: System, s': System, id: string)
    requires RemovesOne(s.cache.entries, s'.cache.entries, id) && LeasesMatch(s) && s'.handles == s.handles
    requires Find(s.cache.entries, id).Some? && Find(s.cache.entries, id).value.leases == 0
    ensures LeasesMatch(s')
  {
    assert LeaseOk(s.handles, Find(s.cache.entries, id));
    forall k ensures LeaseOk(s'.handles, Find(s'.cache.entries, k)) {
      assert LeaseOk(s.handles, Find(s.cache.entries, k));
    }
    forall r | r in s'.handles ensures At(s'.cache.entries, r) {
      assert At(s.cache.entries, r);
    }
  }

  lemma RemoveKeepsExact(es: Table, es': Table, id: string, st: RuntimeState, refs: set<Ref>, refs': set<Ref>)
    requires RemovesOne(es, es', id) && ExactlyIn(es, st, refs)
    requires forall r :: r in refs' <==> r in refs && r.id != id
    ensures ExactlyIn(es', st, refs')
  {
    forall k ensures RecordedIf(Find(es', k), st, refs') {
      assert RecordedIf(Find(es, k), st, refs);
    }
    forall r | r in refs' ensures InState(es', r, st) {
      assert InState(es, r, st);
    }
  }

  lemma RemoveKeepsSleepers(s: System, s': System, id: string)
    requires RemovesOne(s.cache.entries, s'.cache.entries, id) && NoLostWakeup(s)
    requires s'.sleepers == map[] || (s'.sleepers == s.sleepers && forall r: Ref :: r.id == id ==> !Blocks(s.cache.entries, r))
    ensures NoLostWakeup(s')
  {
    forall w | w in s'.sleepers ensures Blocks(s'.cache.entries, s'.sleepers[w]) {
      assert Blocks(s.cache.entries, s.sleepers[w]);
    }
  }
}
