/** Exactly when a refinement reproduces its winner, for a specification of a given
    shape: whatever the base request and whatever the values its patches set. */
module RefinementExact {
  import opened Wrappers
  import opened Sorting
  import opened Expansion
  import opened Refinement

  /** A place in a specification that patches something: the axis and the key. */
  datatype Slot = Slot(axis: string, key: string)

  function Fill(slots: seq<Slot>, val: Slot -> Value): (r: seq<PatchEntry>)
    ensures |r| == |slots|
    ensures forall i :: 0 <= i < |r| ==> r[i] == PatchEntry(slots[i].key, val(slots[i]))
  {
    if slots == [] then [] else Fill(slots[..|slots| - 1], val) + [PatchEntry(slots[|slots| - 1].key, val(slots[|slots| - 1]))]
  }

  /** `Effective`, without looking at values. */
  function Deciding(slots: seq<Slot>, f: Field): seq<Slot> {
    if slots == [] then []
    else
      var init, last := slots[..|slots| - 1], slots[|slots| - 1];
      if last.key == ReplaceKey(f) then [last]
      else if last.key in AppendKeys(f) then Deciding(init, f) + [last]
      else Deciding(init, f)
  }

  lemma {:induction false} DecidingIsEffective(slots: seq<Slot>, f: Field, val: Slot -> Value)
    ensures Effective(Fill(slots, val), f) == Fill(Deciding(slots, f), val)
  {
    if slots != [] {
      var init, last := slots[..|slots| - 1], slots[|slots| - 1];
      var es := Fill(slots, val);
      assert es[..|es| - 1] == Fill(init, val);
      DecidingIsEffective(init, f, val);
    }
  }

  ghost predicate Unrepeated(slots: seq<Slot>) {
    forall i, j :: 0 <= i < j < |slots| ==> slots[i] != slots[j]
  }

  /** Same slots, each once, in two orders. */
  ghost predicate SameSlots(a: seq<Slot>, b: seq<Slot>) {
    Unrepeated(a) && Unrepeated(b) && forall x :: x in a <==> x in b
  }

  /** Deciding slots: at most one replacement, in front; all of them act on the field. */
  lemma {:induction false} DecidingShape(slots: seq<Slot>, f: Field)
    requires Unrepeated(slots)
    ensures var d := Deciding(slots, f);
      && Unrepeated(d) && (forall x :: x in d ==> x in slots && (x.key == ReplaceKey(f) || x.key in AppendKeys(f)))
      && (forall i :: 0 < i < |d| ==> d[i].key in AppendKeys(f))
      && (d == [] ==> forall x :: x in slots ==> x.key != ReplaceKey(f) && x.key !in AppendKeys(f))
  {
    if slots != [] {
      var init, last := slots[..|slots| - 1], slots[|slots| - 1];
      assert slots == init + [last];
      assert Unrepeated(init) && last !in init;
      DecidingShape(init, f);
    }
  }

  /** Values that tell two slots apart from all others. */
  function Marking(u: Slot, v: Slot): Slot -> Value {
    (x: Slot) => Text(if x == u then "a" else if x == v then "b" else "")
  }

  /** What the marked values leave in a field that started empty. */
  ghost function Trace(d: seq<Slot>, u: Slot, v: Slot): string {
    if u in d && v in d && u != v then (if Before(d, u, v) then "a, b" else "b, a")
    else if u in d then "a"
    else if v in d then "b"
    else ""
  }

  ghost predicate Before(d: seq<Slot>, u: Slot, v: Slot) {
    exists i, j :: 0 <= i < j < |d| && d[i] == u && d[j] == v
  }

  lemma MarkedAppends()
    ensures Appended(Text("a"), Text("b")) == Text("a, b") && Appended(Text("b"), Text("a")) == Text("b, a")
    ensures Appended(Text("a"), Text("")) == Text("a") && Appended(Text("b"), Text("")) == Text("b")
    ensures Appended(Text("a, b"), Text("")) == Text("a, b") && Appended(Text("b, a"), Text("")) == Text("b, a")
  {
    assert "a, "[..2] == "a," && "a,"[..1] == "a";
    assert "b, "[..2] == "b," && "b,"[..1] == "b";
    assert "a" + ", " + "b" == "a, b" && "b" + ", " + "a" == "b, a";
    assert "a, b" + ", " + "" == "a, b, " && "a, b, "[..5] == "a, b," && "a, b,"[..4] == "a, b";
    assert "b, a" + ", " + "" == "b, a, " && "b, a, "[..5] == "b, a," && "b, a,"[..4] == "b, a";
    assert "a" + ", " + "" == "a, " && "b" + ", " + "" == "b, ";
  }

  lemma {:induction false} MarkedTrace(d: seq<Slot>, f: Field, r: Request, u: Slot, v: Slot)
    requires Unrepeated(d) && Get(r, f) == Text("")
    requires forall i :: 0 <= i < |d| ==> d[i].key in AppendKeys(f) || (i == 0 && d[i].key == ReplaceKey(f))
    ensures Get(ApplyEntries(r, Fill(d, Marking(u, v))), f) == Text(Trace(d, u, v))
  {
    hide Trace, Marking, Appended, ApplyEntry, AppendKeys, ReplaceKey, Get;
    if d == [] {
      NoTrace(u, v);
    } else {
      var init, last := d[..|d| - 1], d[|d| - 1];
      var val := Marking(u, v);
      assert d == init + [last] && last !in init && Unrepeated(init);
      MarkedTrace(init, f, r, u, v);
      assert Fill(d, val) == Fill(init, val) + [PatchEntry(last.key, val(last))];
      ApplyLast(r, Fill(init, val), PatchEntry(last.key, val(last)));
      EntryOnField(ApplyEntries(r, Fill(init, val)), PatchEntry(last.key, val(last)), f);
      TraceGrows(init, last, u, v);
      if last.key in AppendKeys(f) { KeysAreDisjoint(last.key, f); }
    }
  }

  lemma NoTrace(u: Slot, v: Slot)
    ensures Trace([], u, v) == ""
  {
  }

  lemma KeysAreDisjoint(key: string, f: Field)
    requires key in AppendKeys(f)
    ensures key != ReplaceKey(f)
  {
  }

  /** One more slot: appended to what is there, or the first to say anything. */
  lemma TraceGrows(init: seq<Slot>, last: Slot, u: Slot, v: Slot)
    requires Unrepeated(init) && last !in init
    ensures Text(Trace(init + [last], u, v)) == Appended(Text(Trace(init, u, v)), Marking(u, v)(last))
    ensures init == [] ==> Text(Trace([last], u, v)) == Marking(u, v)(last)
  {
    var d := init + [last];
    MarkedAppends();
    assert forall x :: x in d <==> x in init || x == last;
    if u in init && v in init && u != v {
      BeforeKept(init, last, u, v);
    } else if u in init && last == v {
      var i :| 0 <= i < |init| && init[i] == u;
      assert d[i] == u && d[|init|] == v;
    } else if v in init && last == u {
      NotBefore(init, last, v);
    }
    assert init == [] ==> d == [last];
  }

  lemma NotBefore(init: seq<Slot>, last: Slot, v: Slot)
    requires last !in init
    ensures v != last ==> !Before(init + [last], last, v)
  {
    var d := init + [last];
    assert forall i :: 0 <= i < |init| ==> d[i] == init[i];
  }

  lemma BeforeKept(init: seq<Slot>, last: Slot, u: Slot, v: Slot)
    requires Unrepeated(init) && last !in init && u in init && v in init
    ensures Before(init + [last], u, v) <==> Before(init, u, v)
  {
    var d := init + [last];
    if Before(init, u, v) {
      var i, j :| 0 <= i < j < |init| && init[i] == u && init[j] == v;
      assert d[i] == u && d[j] == v;
    }
    if Before(d, u, v) {
      var i, j :| 0 <= i < j < |d| && d[i] == u && d[j] == v;
      assert j < |init|;
      assert init[i] == u && init[j] == v;
    }
  }

  /** Two different arrangements of the deciding slots are told apart by some values. */
  lemma DifferentTraces(d: seq<Slot>, e: seq<Slot>)
    requires Unrepeated(d) && Unrepeated(e) && d != e
    ensures exists u, v :: Trace(d, u, v) != Trace(e, u, v)
  {
    if x :| x in d && x !in e {
      assert Trace(d, x, x) != Trace(e, x, x);
    } else if x :| x in e && x !in d {
      assert Trace(d, x, x) != Trace(e, x, x);
    } else {
      var u, v := FirstDifference(d, e);
      NotAlsoBefore(e, u, v);
      assert Trace(d, u, v) != Trace(e, u, v);
    }
  }

  /** Slots that the two arrangements hold in opposite orders. */
  lemma FirstDifference(d: seq<Slot>, e: seq<Slot>) returns (u: Slot, v: Slot)
    requires Unrepeated(d) && Unrepeated(e) && d != e && forall x :: x in d <==> x in e
    ensures u != v && u in d && v in d && u in e && v in e && Before(d, u, v) && Before(e, v, u)
  {
    var i := 0;
    while i < |d| && i < |e| && d[i] == e[i]
      invariant 0 <= i <= |d| && i <= |e| && forall k :: 0 <= k < i ==> d[k] == e[k]
    {
      i := i + 1;
    }
    assert i < |d| && i < |e| by {
      if i == |d| { PrefixIsAll(d, e); }
      if i == |e| { PrefixIsAll(e, d); }
    }
    u, v := d[i], e[i];
    assert u in e && v in d;
    var j :| 0 <= j < |d| && d[j] == v;
    var k :| 0 <= k < |e| && e[k] == u;
    assert i < j && i < k;
  }

  lemma PrefixIsAll(d: seq<Slot>, e: seq<Slot>)
    requires |d| <= |e| && Unrepeated(e) && forall k :: 0 <= k < |d| ==> d[k] == e[k]
    requires forall x :: x in e ==> x in d
    ensures d == e
  {
    if |d| < |e| { NextIsNew(d, e); }
  }

  lemma NextIsNew(d: seq<Slot>, e: seq<Slot>)
    requires |d| < |e| && Unrepeated(e) && forall k :: 0 <= k < |d| ==> d[k] == e[k]
    ensures e[|d|] in e && e[|d|] !in d
  {
    assert forall k :: 0 <= k < |d| ==> d[k] != e[|d|];
  }

  lemma NotAlsoBefore(e: seq<Slot>, u: Slot, v: Slot)
    requires Unrepeated(e) && Before(e, v, u) && u != v
    ensures !Before(e, u, v)
  {
  }

  // --------------------------------------------- the slots of a specification

  function Mark(name: string, val: Slot -> Value): PatchEntry -> PatchEntry {
    (e: PatchEntry) => PatchEntry(e.key, val(Slot(name, e.key)))
  }

  function MarkValue(name: string, val: Slot -> Value): AxisValue -> AxisValue {
    (v: AxisValue) => v.(patch := Map(v.patch, Mark(name, val)))
  }

  function MarkAxis(val: Slot -> Value): Axis -> Axis {
    (a: Axis) => a.(values := Map(a.values, MarkValue(a.name, val)))
  }

  /** The same axes, titles and keys with other patch values. */
  function Revalued(axes: seq<Axis>, val: Slot -> Value): seq<Axis> { Map(axes, MarkAxis(val)) }

  /** The same shape with another base request and other patch values. */
  function With(spec: Spec, base: Request, val: Slot -> Value): Spec {
    spec.(base := base, axes := Revalued(spec.axes, val))
  }

  function SlotOf(name: string): PatchEntry -> Slot { (e: PatchEntry) => Slot(name, e.key) }

  /** The slots a cell visits, in visiting order. */
  function Slots(axes: seq<Axis>, cell: Cell): seq<Slot> {
    if cell == [] then []
    else Slots(axes, cell[..|cell| - 1]) + Map(PatchOf(axes, cell[|cell| - 1]), SlotOf(cell[|cell| - 1].0))
  }

  /** In the order of the first stage, and in the order of a refinement. */
  function DeclaredSlots(spec: Spec, cell: Cell): seq<Slot> { Slots(spec.axes, cell) }

  function ReloadedSlots(spec: Spec, cell: Cell): seq<Slot> { Slots(Reloaded(spec.axes), ReloadedCell(cell)) }

  lemma {:induction false} AxisOfRevalued(axes: seq<Axis>, val: Slot -> Value, name: string)
    ensures AxisByName(Revalued(axes, val), name) ==
      if AxisByName(axes, name).None? then None else Some(MarkAxis(val)(AxisByName(axes, name).value))
    ensures AxisByName(axes, name).Some? ==> AxisByName(axes, name).value.name == name && AxisByName(axes, name).value in axes
  {
    if axes != [] {
      AxisOfRevalued(axes[1..], val, name);
      MapCons(axes, MarkAxis(val));
    }
  }

  lemma {:induction false} ValueOfMarked(values: seq<AxisValue>, name: string, val: Slot -> Value, title: string)
    ensures ValueByTitle(Map(values, MarkValue(name, val)), title) ==
      if ValueByTitle(values, title).None? then None else Some(MarkValue(name, val)(ValueByTitle(values, title).value))
    ensures ValueByTitle(values, title).Some? ==> ValueByTitle(values, title).value in values
  {
    if values != [] {
      ValueOfMarked(values[1..], name, val, title);
      MapCons(values, MarkValue(name, val));
    }
  }

  lemma PatchOfRevalued(axes: seq<Axis>, val: Slot -> Value, c: (string, string))
    ensures PatchOf(Revalued(axes, val), c) == Map(PatchOf(axes, c), Mark(c.0, val))
  {
    AxisOfRevalued(axes, val, c.0);
    var axis := AxisByName(axes, c.0);
    if axis.Some? { ValueOfMarked(axis.value.values, c.0, val, c.1); }
  }

  /** What is applied for a cell is its slots, filled with the patch values. */
  lemma {:induction false} EntriesRevalued(axes: seq<Axis>, cell: Cell, val: Slot -> Value)
    ensures Entries(Revalued(axes, val), cell) == Fill(Slots(axes, cell), val)
  {
    if cell != [] {
      var init, last := cell[..|cell| - 1], cell[|cell| - 1];
      EntriesRevalued(axes, init, val);
      hide PatchOf, Revalued, Fill, Map;
      PatchOfRevalued(axes, val, last);
      var here := Map(PatchOf(axes, last), SlotOf(last.0));
      FillAppend(Slots(axes, init), here, val);
      FillOnePatch(PatchOf(axes, last), last.0, val);
    } else {
      assert Fill([], val) == [];
    }
  }

  lemma FillAppend(a: seq<Slot>, b: seq<Slot>, val: Slot -> Value)
    ensures Fill(a + b, val) == Fill(a, val) + Fill(b, val)
  {
  }

  lemma FillOnePatch(patch: seq<PatchEntry>, name: string, val: Slot -> Value)
    ensures Fill(Map(patch, SlotOf(name)), val) == Map(patch, Mark(name, val))
  {
  }

  /** Writing to a file and reading back commutes with changing patch values. */
  lemma {:induction false} ReloadCommutes(axes: seq<Axis>, val: Slot -> Value)
    ensures Reloaded(Revalued(axes, val)) == Revalued(Reloaded(axes), val)
  {
    if axes == [] {
      assert Revalued([], val) == [];
    } else {
      hide Map, ReloadedValues;
      ReloadCommutes(axes[1..], val);
      ReloadValuesCommutes(axes[0].values, axes[0].name, val);
      MapCons(axes, MarkAxis(val));
      MapCons(Reloaded(axes), MarkAxis(val));
    }
  }

  lemma {:induction false} ReloadValuesCommutes(values: seq<AxisValue>, name: string, val: Slot -> Value)
    ensures ReloadedValues(Map(values, MarkValue(name, val))) == Map(ReloadedValues(values), MarkValue(name, val))
  {
    if values != [] {
      hide Map, Sort, Mark;
      ReloadValuesCommutes(values[1..], name, val);
      MarkedSort(values[0].patch, name, val);
      MapCons(values, MarkValue(name, val));
      MapCons(ReloadedValues(values), MarkValue(name, val));
    }
  }

  lemma MarkedSort(patch: seq<PatchEntry>, name: string, val: Slot -> Value)
    ensures Sort(Map(patch, Mark(name, val)), ByKey()) == Map(Sort(patch, ByKey()), Mark(name, val))
  {
    SortMap(patch, ByKey(), Mark(name, val));
  }

  lemma OrdersAreSlots(spec: Spec, cell: Cell, base: Request, val: Slot -> Value)
    ensures DeclaredOrder(With(spec, base, val), cell) == Fill(DeclaredSlots(spec, cell), val)
    ensures ReloadedOrder(With(spec, base, val), cell) == Fill(ReloadedSlots(spec, cell), val)
  {
    EntriesRevalued(spec.axes, cell, val);
    ReloadCommutes(spec.axes, val);
    EntriesRevalued(Reloaded(spec.axes), ReloadedCell(cell), val);
  }

  // --------------------------------------- both orders hold the same slots

  function KeyOf(): PatchEntry -> string { (e: PatchEntry) => e.key }

  function NameOf(): ((string, string)) -> string { (c: (string, string)) => c.0 }

  /** What being dictionaries means: an axis occurs once in a cell, a key once in a patch. */
  ghost predicate Dictionaries(axes: seq<Axis>, cell: Cell) {
    DistinctBy(cell, NameOf()) && forall c :: c in cell ==> DistinctBy(PatchOf(axes, c), KeyOf())
  }

  lemma {:induction false} SlotMembers(axes: seq<Axis>, cell: Cell, x: Slot)
    ensures x in Slots(axes, cell) <==> exists c :: c in cell && c.0 == x.axis && exists e :: e in PatchOf(axes, c) && e.key == x.key
  {
    if cell != [] {
      var init, last := cell[..|cell| - 1], cell[|cell| - 1];
      SlotMembers(axes, init, x);
      MappedSlots(PatchOf(axes, last), last.0, x);
      assert forall c :: c in cell <==> c in init || c == last;
    }
  }

  lemma MappedSlots(patch: seq<PatchEntry>, name: string, x: Slot)
    ensures x in Map(patch, SlotOf(name)) <==> x.axis == name && exists e :: e in patch && e.key == x.key
  {
    var r := Map(patch, SlotOf(name));
    if x in r {
      var i :| 0 <= i < |r| && r[i] == x;
      assert patch[i] in patch;
    }
    if x.axis == name && exists e :: e in patch && e.key == x.key {
      var e :| e in patch && e.key == x.key;
      var i :| 0 <= i < |patch| && patch[i] == e;
      assert r[i] == x;
    }
  }

  lemma {:induction false} SlotsUnrepeated(axes: seq<Axis>, cell: Cell)
    requires Dictionaries(axes, cell)
    ensures Unrepeated(Slots(axes, cell))
  {
    if cell != [] {
      var init, last := cell[..|cell| - 1], cell[|cell| - 1];
      assert forall c :: c in init ==> c in cell;
      assert last in cell;
      SlotsUnrepeated(axes, init);
      var here := Map(PatchOf(axes, last), SlotOf(last.0));
      forall x | x in Slots(axes, init) ensures x !in here {
        SlotMembers(axes, init, x);
        MappedSlots(PatchOf(axes, last), last.0, x);
      }
      assert Unrepeated(here) by { OnePatch(PatchOf(axes, last), last.0); }
      Concatenated(Slots(axes, init), here);
    }
  }

  lemma OnePatch(patch: seq<PatchEntry>, name: string)
    requires DistinctBy(patch, KeyOf())
    ensures Unrepeated(Map(patch, SlotOf(name)))
  {
  }

  lemma Concatenated(a: seq<Slot>, b: seq<Slot>)
    requires Unrepeated(a) && Unrepeated(b) && forall x :: x in a ==> x !in b
    ensures Unrepeated(a + b)
  {
    forall i, j | 0 <= i < |a| && 0 <= j < |b| ensures a[i] != b[j] {
      assert a[i] in a && b[j] in b;
    }
  }

  lemma {:induction false} AxisOfReloaded(axes: seq<Axis>, name: string)
    ensures AxisByName(Reloaded(axes), name) ==
      if AxisByName(axes, name).None? then None
      else Some(AxisByName(axes, name).value.(values := ReloadedValues(AxisByName(axes, name).value.values)))
  {
    if axes != [] {
      AxisOfReloaded(axes[1..], name);
      assert Reloaded(axes)[1..] == Reloaded(axes[1..]);
    }
  }

  lemma {:induction false} ValueOfReloaded(values: seq<AxisValue>, title: string)
    ensures ValueByTitle(ReloadedValues(values), title) ==
      if ValueByTitle(values, title).None? then None
      else Some(ValueByTitle(values, title).value.(patch := Sort(ValueByTitle(values, title).value.patch, ByKey())))
  {
    if values != [] {
      ValueOfReloaded(values[1..], title);
      assert ReloadedValues(values)[1..] == ReloadedValues(values[1..]);
    }
  }

  lemma PatchOfReloaded(axes: seq<Axis>, c: (string, string))
    ensures PatchOf(Reloaded(axes), c) == Sort(PatchOf(axes, c), ByKey())
  {
    AxisOfReloaded(axes, c.0);
    var axis := AxisByName(axes, c.0);
    if axis.Some? { ValueOfReloaded(axis.value.values, c.1); }
  }

  lemma BothOrdersHoldTheSlots(spec: Spec, cell: Cell)
    requires Dictionaries(spec.axes, cell)
    ensures SameSlots(DeclaredSlots(spec, cell), ReloadedSlots(spec, cell))
  {
    hide Dictionaries, Slots, Reloaded;
    var axes, back := Reloaded(spec.axes), ReloadedCell(cell);
    SlotsUnrepeated(spec.axes, cell);
    ReloadedDictionaries(spec.axes, cell);
    SlotsUnrepeated(axes, back);
    forall x ensures x in Slots(spec.axes, cell) <==> x in Slots(axes, back) {
      SlotMembers(spec.axes, cell, x);
      SlotMembers(axes, back, x);
      SortMembers(cell, ByName());
      forall c | c in cell ensures forall e :: e in PatchOf(axes, c) <==> e in PatchOf(spec.axes, c) {
        PatchOfReloaded(spec.axes, c);
        SortMembers(PatchOf(spec.axes, c), ByKey());
      }
    }
  }

  lemma ReloadedDictionaries(axes: seq<Axis>, cell: Cell)
    requires Dictionaries(axes, cell)
    ensures Dictionaries(Reloaded(axes), ReloadedCell(cell))
  {
    DistinctInAnyOrder(cell, ReloadedCell(cell), NameOf());
    SortMembers(cell, ByName());
    forall c | c in ReloadedCell(cell) ensures DistinctBy(PatchOf(Reloaded(axes), c), KeyOf()) {
      PatchOfReloaded(axes, c);
      DistinctInAnyOrder(PatchOf(axes, c), Sort(PatchOf(axes, c), ByKey()), KeyOf());
    }
  }

  /** For a specification with unique axis names and labels the premise holds of every
      cell of its grid, patches being dictionaries. */
  lemma ChoicesAreDictionaries(axes: seq<Axis>, cell: Cell)
    requires IsChoice(axes, cell) && forall i, j :: 0 <= i < j < |axes| ==> axes[i].name != axes[j].name
    requires forall a, v :: a in axes && v in a.values ==> DistinctBy(v.patch, KeyOf())
    ensures Dictionaries(axes, cell)
  {
    forall c | c in cell ensures DistinctBy(PatchOf(axes, c), KeyOf()) {
      AxisOfRevalued(axes, _ => Null, c.0);
      var axis := AxisByName(axes, c.0);
      if axis.Some? { ValueOfMarked(axis.value.values, c.0, _ => Null, c.1); }
    }
  }

  // ------------------------------------------------------------- the theorem

  /** One instance: the refinement of the winner at `index` keeps the field. */
  ghost predicate Keeps(spec: Spec, cell: Cell, f: Field, base: Request, val: Slot -> Value, index: nat, position: nat) {
    var s := With(spec, base, val);
    Get(Refine(s, cell, Draft(s, cell, index).request, position), f) == Get(Draft(s, cell, index).request, f)
  }

  /** Whatever the base request, the patch values and the positions. */
  ghost predicate AlwaysKeeps(spec: Spec, cell: Cell, f: Field) {
    forall base: Request, val: Slot -> Value, index: nat, position: nat :: Keeps(spec, cell, f, base, val, index, position)
  }

  /** A specification's refinements always keep a field of their winner if and only if
      the last replacement of that field and the appends after it are visited in the
      same order as declared and as reloaded. */
  lemma ReproducesExactly(spec: Spec, cell: Cell, f: Field)
    requires Dictionaries(spec.axes, cell)
    ensures AlwaysKeeps(spec, cell, f) <==> Deciding(DeclaredSlots(spec, cell), f) == Deciding(ReloadedSlots(spec, cell), f)
  {
    hide Keeps, Dictionaries, DeclaredSlots, ReloadedSlots, Deciding, AppendKeys;
    BothOrdersHoldTheSlots(spec, cell);
    if Deciding(DeclaredSlots(spec, cell), f) == Deciding(ReloadedSlots(spec, cell), f) {
      forall base: Request, val: Slot -> Value, index: nat, position: nat ensures Keeps(spec, cell, f, base, val, index, position) {
        AgreementKeeps(spec, cell, f, base, val, index, position);
      }
    } else if AppendKeys(f) == {} {
      ReplacementsDiffer(spec, cell, f);
    } else {
      AppendsDiffer(spec, cell, f);
    }
  }

  /** The same for every cell of the grid of a validated specification: unique axis
      names, and patches that are dictionaries. */
  lemma ReproducesExactlyForChoices(spec: Spec, cell: Cell, f: Field)
    requires IsChoice(spec.axes, cell) && forall i, j :: 0 <= i < j < |spec.axes| ==> spec.axes[i].name != spec.axes[j].name
    requires forall a, v :: a in spec.axes && v in a.values ==> DistinctBy(v.patch, KeyOf())
    ensures AlwaysKeeps(spec, cell, f) <==> Deciding(DeclaredSlots(spec, cell), f) == Deciding(ReloadedSlots(spec, cell), f)
  {
    hide AlwaysKeeps, Deciding, DeclaredSlots, ReloadedSlots, Dictionaries;
    ChoicesAreDictionaries(spec.axes, cell);
    ReproducesExactly(spec, cell, f);
  }

  lemma AgreementKeeps(spec: Spec, cell: Cell, f: Field, base: Request, val: Slot -> Value, index: nat, position: nat)
    requires Deciding(DeclaredSlots(spec, cell), f) == Deciding(ReloadedSlots(spec, cell), f)
    ensures Keeps(spec, cell, f, base, val, index, position)
  {
    hide DeclaredOrder, ReloadedOrder, Refine, Draft, DeclaredSlots, ReloadedSlots, Deciding, Effective;
    OrdersAreSlots(spec, cell, base, val);
    DecidingIsEffective(DeclaredSlots(spec, cell), f, val);
    DecidingIsEffective(ReloadedSlots(spec, cell), f, val);
    FieldReproduces(With(spec, base, val), cell, f, index, position);
  }

  /** Both requests, as entries applied to a base that differs in the seed at most. */
  lemma BothRequests(spec: Spec, cell: Cell, base: Request, val: Slot -> Value) returns (r: Request, r': Request)
    ensures r == base.(seed := r.seed) && r' == base.(seed := r'.seed)
    ensures var s := With(spec, base, val);
      && Draft(s, cell, 0).request == ApplyEntries(r, Fill(DeclaredSlots(spec, cell), val))
      && Refine(s, cell, Draft(s, cell, 0).request, 0) == ApplyEntries(r', Fill(ReloadedSlots(spec, cell), val))
  {
    hide DeclaredSlots, ReloadedSlots, ApplyEntries, Entries, Reloaded, ReloadedCell, Fill, Revalued;
    var s := With(spec, base, val);
    OrdersAreSlots(spec, cell, base, val);
    var winner := Draft(s, cell, 0).request;
    r := base.(seed := ResolveSeed(s, 0));
    r' := base.(seed := if winner.seed.Null? then ResolveSeed(s, 0) else winner.seed);
  }

  /** Fields that are only replaced: another last writer, another value. */
  lemma ReplacementsDiffer(spec: Spec, cell: Cell, f: Field)
    requires SameSlots(DeclaredSlots(spec, cell), ReloadedSlots(spec, cell)) && AppendKeys(f) == {}
    requires Deciding(DeclaredSlots(spec, cell), f) != Deciding(ReloadedSlots(spec, cell), f)
    ensures !AlwaysKeeps(spec, cell, f)
  {
    hide Deciding, AppendKeys, Get, ApplyEntries, Unrepeated, Draft, Refine, DeclaredSlots, ReloadedSlots;
    var a, b := DeclaredSlots(spec, cell), ReloadedSlots(spec, cell);
    OneDecides(a, f);
    OneDecides(b, f);
    var x, y := Deciding(a, f), Deciding(b, f);
    var val := Marking(x[0], y[0]);
    var base := Request(Null, Null, Null, Null, Null, Null);
    var r, r' := BothRequests(spec, cell, base, val);
    LastWriterWins(r, a, f, val);
    LastWriterWins(r', b, f, val);
    assert !Keeps(spec, cell, f, base, val, 0, 0);
  }

  lemma {:induction false} OneDecides(slots: seq<Slot>, f: Field)
    requires AppendKeys(f) == {}
    ensures var d := Deciding(slots, f);
      && |d| <= 1 && (d == [] <==> forall x :: x in slots ==> x.key != ReplaceKey(f))
      && (d != [] ==> d[0].key == ReplaceKey(f))
  {
    if slots != [] {
      assert slots == slots[..|slots| - 1] + [slots[|slots| - 1]];
      OneDecides(slots[..|slots| - 1], f);
    }
  }

  lemma LastWriterWins(r: Request, slots: seq<Slot>, f: Field, val: Slot -> Value)
    requires |Deciding(slots, f)| == 1 && Deciding(slots, f)[0].key == ReplaceKey(f)
    ensures Get(ApplyEntries(r, Fill(slots, val)), f) == val(Deciding(slots, f)[0])
  {
    var d := Deciding(slots, f);
    DecidingIsEffective(slots, f, val);
    FieldByEffective(r, Fill(slots, val), f);
    assert Fill(d, val) == [] + [PatchEntry(d[0].key, val(d[0]))];
    ApplyLast(r, [], PatchEntry(d[0].key, val(d[0])));
    EntryOnField(r, PatchEntry(d[0].key, val(d[0])), f);
  }

  lemma AppendsDiffer(spec: Spec, cell: Cell, f: Field)
    requires SameSlots(DeclaredSlots(spec, cell), ReloadedSlots(spec, cell)) && AppendKeys(f) != {}
    requires Deciding(DeclaredSlots(spec, cell), f) != Deciding(ReloadedSlots(spec, cell), f)
    ensures !AlwaysKeeps(spec, cell, f)
  {
    hide Deciding, Trace, ApplyEntries, Unrepeated, Draft, Refine, DeclaredSlots, ReloadedSlots, Marking;
    var a, b := DeclaredSlots(spec, cell), ReloadedSlots(spec, cell);
    DecidingShape(a, f);
    DecidingShape(b, f);
    DifferentTraces(Deciding(a, f), Deciding(b, f));
    var u, v :| Trace(Deciding(a, f), u, v) != Trace(Deciding(b, f), u, v);
    var base := Request(Text(""), Text(""), Null, Null, Null, Null);
    var r, r' := BothRequests(spec, cell, base, Marking(u, v));
    TracedField(r, a, f, u, v);
    TracedField(r', b, f, u, v);
    assert !Keeps(spec, cell, f, base, Marking(u, v), 0, 0);
  }

  lemma TracedField(r: Request, slots: seq<Slot>, f: Field, u: Slot, v: Slot)
    requires Unrepeated(slots) && Get(r, f) == Text("")
    ensures Get(ApplyEntries(r, Fill(slots, Marking(u, v))), f) == Text(Trace(Deciding(slots, f), u, v))
  {
    DecidingShape(slots, f);
    DecidingIsEffective(slots, f, Marking(u, v));
    FieldByEffective(r, Fill(slots, Marking(u, v)), f);
    var d := Deciding(slots, f);
    assert forall i :: 0 <= i < |d| ==> d[i] in d;
    MarkedTrace(d, f, r, u, v);
  }
}
