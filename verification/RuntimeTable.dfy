/** The cache's table of runtime entries: an ordered dictionary, least recently
    used entry first, with the edits that cache operations are built from. */
module RuntimeTable {
  import opened Wrappers

  /** Lifecycle of one cache slot; a slot that was removed has no entry at all. */
  datatype RuntimeState = Loading | Ready | Invalid | Retiring

  /** `serial` is the identity of the entry object: two entries are the same
      object exactly when their serials agree. Runtimes are numbered the same way. */
  datatype Entry = Entry(
    serial: nat,
    id: string,
    bucket: string,
    state: RuntimeState,
    runtime: Option<nat>,
    leases: nat,
    generation: nat)

  type Table = seq<Entry>

  // ------------------------------------------------------------ dictionary

  /** The dictionary lookup. */
  function Find(es: Table, id: string): (r: Option<Entry>)
    ensures r.Some? ==> r.value in es && r.value.id == id
    ensures r.None? ==> forall e :: e in es ==> e.id != id
  {
    if es == [] then None
    else if es[0].id == id then Some(es[0])
    else Find(es[1..], id)
  }

  /** Keys of a dictionary are distinct, and so are the objects it holds. */
  ghost predicate Distinct(es: Table) {
    forall i, j :: 0 <= i < j < |es| ==> es[i].id != es[j].id && es[i].serial != es[j].serial
  }

  /** `del d[id]`: drops the entry, keeps the order of the rest. */
  function Drop(es: Table, id: string): Table {
    if es == [] then []
    else if es[0].id == id then Drop(es[1..], id)
    else [es[0]] + Drop(es[1..], id)
  }

  /** Mutation of the object stored under `e.id`: its place in the order is kept. */
  function Store(es: Table, e: Entry): (r: Table)
    ensures |r| == |es|
    ensures forall i :: 0 <= i < |es| ==> r[i] == if es[i].id == e.id then e else es[i]
  {
    if es == [] then [] else [if es[0].id == e.id then e else es[0]] + Store(es[1..], e)
  }

  /** `move_to_end`, with `e` the (possibly updated) object under its id. */
  function Refresh(es: Table, e: Entry): Table {
    Drop(es, e.id) + [e]
  }

  lemma DropMembers(es: Table, id: string)
    ensures forall e :: e in Drop(es, id) <==> e in es && e.id != id
    ensures |Drop(es, id)| <= |es|
  {
    if es != [] {
      assert es == [es[0]] + es[1..];
      DropMembers(es[1..], id);
    }
  }

  lemma DropDistinct(es: Table, id: string)
    requires Distinct(es)
    ensures Distinct(Drop(es, id))
  {
    if es != [] {
      assert Distinct(es[1..]);
      DropDistinct(es[1..], id);
      DropMembers(es[1..], id);
      var rest := Drop(es[1..], id);
      forall j | 0 <= j < |rest|
        ensures es[0].id != rest[j].id && es[0].serial != rest[j].serial
      {
        assert rest[j] in es[1..];
      }
    }
  }

  lemma FindIs(es: Table, e: Entry)
    requires Distinct(es) && e in es
    ensures Find(es, e.id) == Some(e)
  {
    if es[0] != e {
      assert e in es[1..];
      assert Distinct(es[1..]);
      FindIs(es[1..], e);
    }
  }

  lemma FindDrop(es: Table, id: string, k: string)
    ensures Find(Drop(es, id), k) == if k == id then None else Find(es, k)
  {
    if es != [] {
      FindDrop(es[1..], id, k);
      DropMembers(es, id);
      if es[0].id != id {
        assert Drop(es, id)[1..] == Drop(es[1..], id);
      }
    }
  }

  lemma FindStore(es: Table, e: Entry, k: string)
    ensures Find(Store(es, e), k) == if k == e.id && Find(es, k).Some? then Some(e) else Find(es, k)
  {
    if es != [] {
      FindStore(es[1..], e, k);
      assert Store(es, e)[1..] == Store(es[1..], e);
    }
  }

  lemma FindAppend(es: Table, e: Entry, k: string)
    ensures Find(es + [e], k) ==
      if Find(es, k).Some? then Find(es, k) else if k == e.id then Some(e) else None
  {
    if es != [] {
      FindAppend(es[1..], e, k);
      assert (es + [e])[1..] == es[1..] + [e];
    }
  }

  /** Seen through lookups, a refresh is an update of one key. */
  lemma FindRefresh(es: Table, e: Entry, k: string)
    ensures Find(Refresh(es, e), k) == if k == e.id then Some(e) else Find(es, k)
  {
    FindDrop(es, e.id, k);
    FindAppend(Drop(es, e.id), e, k);
  }

  lemma RefreshDistinct(es: Table, e: Entry)
    requires Distinct(es) && forall x :: x in es && x.id != e.id ==> x.serial != e.serial
    ensures Distinct(Refresh(es, e))
  {
    DropDistinct(es, e.id);
    DropMembers(es, e.id);
  }

  lemma StoreMembers(es: Table, old': Entry, e: Entry)
    requires Distinct(es) && old' in es && old'.id == e.id
    ensures forall x :: x in Store(es, e) <==> x == e || (x in es && x.id != e.id)
  {
    var r := Store(es, e);
    forall x | x in es && x.id != e.id ensures x in r {
      var i :| 0 <= i < |es| && es[i] == x;
      assert r[i] == x;
    }
    var k :| 0 <= k < |es| && es[k] == old';
    assert r[k] == e;
  }

  lemma StoreDistinct(es: Table, old': Entry, e: Entry)
    requires Distinct(es) && old' in es && old'.id == e.id && old'.serial == e.serial
    ensures Distinct(Store(es, e))
  {
    var r := Store(es, e);
    forall i | 0 <= i < |es| ensures r[i].id == es[i].id && r[i].serial == es[i].serial {
      if es[i].id == e.id {
        var k :| 0 <= k < |es| && es[k] == old';
        assert i == k;
      }
    }
  }

  // -------------------------------------------------------------- counting

  /** How many entries satisfy `f`. */
  function Count(es: Table, f: Entry -> bool): nat {
    if es == [] then 0 else (if f(es[0]) then 1 else 0) + Count(es[1..], f)
  }

  function One(f: Entry -> bool, e: Entry): nat { if f(e) then 1 else 0 }

  lemma {:induction false} CountAppend(es: Table, e: Entry, f: Entry -> bool)
    ensures Count(es + [e], f) == Count(es, f) + One(f, e)
  {
    if es == [] {
      assert es + [e] == [e];
    } else {
      assert (es + [e])[1..] == es[1..] + [e];
      CountAppend(es[1..], e, f);
    }
  }

  lemma {:induction false} CountDropAbsent(es: Table, id: string)
    requires forall e :: e in es ==> e.id != id
    ensures Drop(es, id) == es
  {
    if es != [] {
      CountDropAbsent(es[1..], id);
    }
  }

  lemma {:induction false} CountDrop(es: Table, e: Entry, f: Entry -> bool)
    requires Distinct(es) && e in es
    ensures Count(es, f) == Count(Drop(es, e.id), f) + One(f, e)
  {
    assert Distinct(es[1..]);
    if es[0] == e {
      CountDropAbsent(es[1..], e.id);
    } else {
      assert e in es[1..];
      CountDrop(es[1..], e, f);
    }
  }

  lemma {:induction false} CountStore(es: Table, old': Entry, e: Entry, f: Entry -> bool)
    requires Distinct(es) && old' in es && old'.id == e.id
    ensures Count(Store(es, e), f) + One(f, old') == Count(es, f) + One(f, e)
  {
    assert Distinct(es[1..]);
    if es[0] == old' {
      StoreAbsent(es[1..], e);
    } else {
      assert old' in es[1..];
      CountStore(es[1..], old', e, f);
    }
  }

  lemma {:induction false} StoreAbsent(es: Table, e: Entry)
    requires forall x :: x in es ==> x.id != e.id
    ensures Store(es, e) == es
  {
  }

  lemma {:induction false} CountZero(es: Table, f: Entry -> bool)
    ensures Count(es, f) == 0 <==> forall e :: e in es ==> !f(e)
  {
    if es != [] {
      CountZero(es[1..], f);
      assert forall e :: e in es <==> e == es[0] || e in es[1..];
    }
  }

  lemma {:induction false} CountLe(es: Table, f: Entry -> bool, g: Entry -> bool)
    requires forall e :: e in es && f(e) ==> g(e)
    ensures Count(es, f) <= Count(es, g)
  {
    if es != [] {
      CountLe(es[1..], f, g);
    }
  }

  // -------------------------------------------------------------- retiring

  function Retired(e: Entry): Entry { e.(state := Retiring) }

  /** Marks the first `k` entries satisfying `f`, in table order. */
  function RetireFirst(es: Table, f: Entry -> bool, k: nat): (r: Table)
    ensures |r| == |es|
    ensures forall i :: 0 <= i < |es| ==> r[i] == es[i] || (f(es[i]) && r[i] == Retired(es[i]))
  {
    if es == [] || k == 0 then es
    else if f(es[0]) then [Retired(es[0])] + RetireFirst(es[1..], f, k - 1)
    else [es[0]] + RetireFirst(es[1..], f, k)
  }

  /** The entries `RetireFirst` marks, in table order and as they were before. */
  function FirstOf(es: Table, f: Entry -> bool, k: nat): (r: seq<Entry>)
    ensures forall e :: e in r ==> e in es && f(e)
  {
    if es == [] || k == 0 then []
    else if f(es[0]) then [es[0]] + FirstOf(es[1..], f, k - 1)
    else FirstOf(es[1..], f, k)
  }

  /** Exactly `min(k, candidates)` entries are marked. */
  lemma {:induction false} FirstOfCount(es: Table, f: Entry -> bool, k: nat)
    ensures |FirstOf(es, f, k)| == Min(k, Count(es, f))
  {
    if es != [] && k != 0 {
      FirstOfCount(es[1..], f, if f(es[0]) then k - 1 else k);
    }
  }

  /** The marked ones are the oldest: no unmarked candidate precedes a marked one. */
  lemma {:induction false} FirstOfOldest(es: Table, f: Entry -> bool, k: nat, i: nat, j: nat)
    requires Distinct(es) && i < j < |es| && f(es[i]) && es[j] in FirstOf(es, f, k)
    ensures es[i] in FirstOf(es, f, k)
  {
    assert Distinct(es[1..]);
    if i > 0 {
      assert es[j] != es[0];
      FirstOfOldest(es[1..], f, if f(es[0]) then k - 1 else k, i - 1, j - 1);
    }
  }

  /** An entry is marked exactly when it is among the first `k` candidates. */
  lemma {:induction false} RetireFirstMarks(es: Table, f: Entry -> bool, k: nat)
    requires Distinct(es)
    ensures forall i :: 0 <= i < |es| ==>
      RetireFirst(es, f, k)[i] == if es[i] in FirstOf(es, f, k) then Retired(es[i]) else es[i]
  {
    if es != [] && k != 0 {
      assert Distinct(es[1..]);
      var k' := if f(es[0]) then k - 1 else k;
      RetireFirstMarks(es[1..], f, k');
      var r, v := RetireFirst(es, f, k), FirstOf(es, f, k);
      forall i | 0 <= i < |es| ensures r[i] == if es[i] in v then Retired(es[i]) else es[i] {
        if i > 0 {
          assert es[i] == es[1..][i - 1] && es[i] != es[0];
          assert r[i] == RetireFirst(es[1..], f, k')[i - 1];
        } else {
          assert es[0] in FirstOf(es[1..], f, k') ==> es[0] in es[1..];
        }
      }
    }
  }

  /** Count of any property after the marking. */
  lemma {:induction false} CountRetireFirst(es: Table, f: Entry -> bool, k: nat, g: Entry -> bool)
    requires forall e :: e in es && f(e) ==> g(e) && !g(Retired(e))
    ensures Count(RetireFirst(es, f, k), g) == Count(es, g) - Min(k, Count(es, f))
    ensures Count(es, f) <= Count(es, g)
  {
    if es != [] {
      CountRetireFirst(es[1..], f, if k != 0 && f(es[0]) then k - 1 else k, g);
      CountLe(es, f, g);
    }
  }

  lemma {:induction false} CountRetireFirstSame(es: Table, f: Entry -> bool, k: nat, g: Entry -> bool)
    requires forall e :: e in es && f(e) ==> g(e) == g(Retired(e))
    ensures Count(RetireFirst(es, f, k), g) == Count(es, g)
  {
    if es != [] && k != 0 {
      CountRetireFirstSame(es[1..], f, if f(es[0]) then k - 1 else k, g);
    }
  }

  /** Marking one at a time, rescanning after each, marks the same entries. */
  lemma {:induction false} RetireFirstUnroll(es: Table, f: Entry -> bool, k: nat, i: nat)
    requires k > 0 && i < |es| && f(es[i]) && (forall j :: 0 <= j < i ==> !f(es[j]))
    requires !f(Retired(es[i]))
    ensures RetireFirst(es, f, k) == RetireFirst(es[i := Retired(es[i])], f, k - 1)
    ensures FirstOf(es, f, k) == [es[i]] + FirstOf(es[i := Retired(es[i])], f, k - 1)
  {
    var es' := es[i := Retired(es[i])];
    if i == 0 {
      assert es'[1..] == es[1..];
      RetireFirstSkips(es', f, k - 1);
    } else {
      assert es'[1..] == es[1..][i - 1 := Retired(es[i])];
      RetireFirstUnroll(es[1..], f, k, i - 1);
      RetireFirstSkips(es, f, k);
      RetireFirstSkips(es', f, k - 1);
    }
  }

  lemma RetireFirstSkips(es: Table, f: Entry -> bool, k: nat)
    requires es != [] && !f(es[0])
    ensures RetireFirst(es, f, k) == [es[0]] + RetireFirst(es[1..], f, k)
    ensures FirstOf(es, f, k) == FirstOf(es[1..], f, k)
  {
    if k == 0 {
      assert es == [es[0]] + es[1..];
    }
  }

  lemma {:induction false} FirstOfNone(es: Table, f: Entry -> bool, k: nat)
    requires k == 0 || Count(es, f) == 0
    ensures FirstOf(es, f, k) == [] && RetireFirst(es, f, k) == es
  {
    if es != [] && k != 0 {
      FirstOfNone(es[1..], f, k);
    }
  }
}
