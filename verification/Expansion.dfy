/** Axis expansion: from a batch specification to concrete child requests. */
module Expansion {
  import opened Wrappers
  import opened Sorting

  datatype Value = Null | Text(text: string) | Number(n: int)

  datatype PatchEntry = PatchEntry(key: string, value: Value)

  /** A patch is a dictionary; what order its entries are visited in matters. */
  datatype AxisValue = AxisValue(title: string, patch: seq<PatchEntry>)

  datatype Axis = Axis(name: string, values: seq<AxisValue>)

  datatype Policy = Shared | PerItem | Sweep

  /** The six request fields that identify a result; parameters are not modelled. */
  datatype Request = Request(prompt: Value, negative: Value, model: Value, seed: Value, format: Value, task: Value)

  datatype Spec = Spec(
    axes: seq<Axis>, base: Request, policy: Policy, locked: set<string>, limit: nat, strategy: Strategy)

  /** All cells, or a sample of at most so many. */
  datatype Strategy = Grid | Sample(maxItems: Option<nat>)

  /** One cell of the sweep: axis name and value title, in visiting order. */
  type Cell = seq<(string, string)>

  // ----------------------------------------------------------------- patches

  predicate IsAppend(key: string) {
    key in {"prompt_suffix", "prompt_fragment", "negative_suffix", "negative_fragment"}
  }

  predicate Truthy(v: Value) {
    match v
    case Null => false
    case Text(s) => s != ""
    case Number(n) => n != 0
  }

  predicate Trimmed(c: char) { c == ',' || c == ' ' }

  /** Drops commas and blanks from both ends. */
  function Strip(s: string): string {
    if s == "" then s
    else if Trimmed(s[0]) then Strip(s[1..])
    else if Trimmed(s[|s| - 1]) then Strip(s[..|s| - 1])
    else s
  }

  function Digits(n: nat): string {
    if n < 10 then ["0123456789"[n]] else Digits(n / 10) + ["0123456789"[n % 10]]
  }

  function Show(v: Value): string {
    match v
    case Null => "None"
    case Text(s) => s
    case Number(n) => if n < 0 then "-" + Digits(-n) else Digits(n)
  }

  function Appended(existing: Value, v: Value): Value {
    if Truthy(existing) then Text(Strip(Show(existing) + ", " + Show(v))) else v
  }

  /** `_apply_patch` for one entry, on the fields kept here. */
  function ApplyEntry(r: Request, e: PatchEntry): Request {
    if e.key in {"prompt_suffix", "prompt_fragment"} then r.(prompt := Appended(r.prompt, e.value))
    else if e.key in {"negative_suffix", "negative_fragment"} then r.(negative := Appended(r.negative, e.value))
    else if e.key == "prompt" then r.(prompt := e.value)
    else if e.key == "negative_prompt" then r.(negative := e.value)
    else if e.key == "model_id" then r.(model := e.value)
    else if e.key == "seed" then r.(seed := e.value)
    else if e.key == "output_format" then r.(format := e.value)
    else if e.key == "task_type" then r.(task := e.value)
    else r
  }

  /** What each field is after an entry: set by its own key, extended by its two
      appending keys, else as before. */
  lemma EntryByField(r: Request, e: PatchEntry)
    ensures var a := ApplyEntry(r, e);
      && a.prompt == (if e.key == "prompt" then e.value
                      else if e.key == "prompt_suffix" || e.key == "prompt_fragment" then Appended(r.prompt, e.value) else r.prompt)
      && a.negative == (if e.key == "negative_prompt" then e.value
                        else if e.key == "negative_suffix" || e.key == "negative_fragment" then Appended(r.negative, e.value) else r.negative)
      && a.model == (if e.key == "model_id" then e.value else r.model)
      && a.seed == (if e.key == "seed" then e.value else r.seed)
      && a.format == (if e.key == "output_format" then e.value else r.format)
      && a.task == (if e.key == "task_type" then e.value else r.task)
  {
  }

  /** Has no comma or blank at either end. */
  ghost predicate Tidy(s: string) {
    s != "" ==> s[0] !in {',', ' '} && s[|s| - 1] !in {',', ' '}
  }

  /** What is stripped is commas and blanks at the ends, all of them: from `i` to `j`
      the text stays. */
  lemma {:induction false} StripExact(s: string) returns (i: nat, j: nat)
    ensures i <= j <= |s| && Strip(s) == s[i..j] && Tidy(Strip(s))
    ensures forall k :: (0 <= k < i || j <= k < |s|) ==> s[k] in {',', ' '}
  {
    i, j := 0, |s|;
    if s != "" && Trimmed(s[0]) {
      var a, b := StripExact(s[1..]);
      i, j := a + 1, b + 1;
      assert forall k :: 1 <= k < |s| ==> s[k] == s[1..][k - 1];
    } else if s != "" && Trimmed(s[|s| - 1]) {
      i, j := StripExact(s[..|s| - 1]);
    }
  }

  /** Appending to nothing sets; appending tidy text to tidy text joins them with a
      comma and keeps both whole. */
  lemma AppendExact(existing: Value, v: Value)
    ensures existing in {Null, Text(""), Number(0)} ==> Appended(existing, v) == v
    ensures existing.Text? && existing.text != "" && v.Text? && v.text != "" && Tidy(existing.text) && Tidy(v.text) ==>
      Appended(existing, v) == Text(existing.text + ", " + v.text)
    ensures existing.Text? && existing.text != "" && Tidy(existing.text) ==> Appended(existing, Null) == Text(existing.text + ", None")
    ensures existing.Number? && existing.n != 0 ==> Appended(existing, v) == Text(Strip(Show(existing) + ", " + Show(v)))
  {
    if existing.Text? && existing.text != "" && Tidy(existing.text) {
      var s := existing.text + ", None";
      assert s == existing.text + ", " + "None" && s[0] == existing.text[0] && s[|s| - 1] == 'e';
    }
    if existing.Text? && existing.text != "" && v.Text? && v.text != "" && Tidy(existing.text) && Tidy(v.text) {
      var s := existing.text + ", " + v.text;
      assert s[0] == existing.text[0] && s[|s| - 1] == v.text[|v.text| - 1];
    }
  }

  /** Reads a decimal. */
  function Reading(s: string): int {
    if s == "" then 0 else 10 * Reading(s[..|s| - 1]) + s[|s| - 1] as int - '0' as int
  }

  lemma {:induction false} DigitsRead(n: nat)
    ensures Reading(Digits(n)) == n && Digits(n) != "" && (Digits(n)[0] == '0' <==> n == 0)
    ensures forall c :: c in Digits(n) ==> '0' <= c <= '9'
  {
    if n >= 10 {
      DigitsRead(n / 10);
      assert Digits(n)[..|Digits(n)| - 1] == Digits(n / 10);
    }
  }

  /** A number is shown as its decimal, with a sign only if it is negative. */
  lemma ShowReads(n: int)
    ensures var s := Show(Number(n));
      && s != ""
      && (n < 0 <==> s[0] == '-')
      && n == if s[0] == '-' then -Reading(s[1..]) else Reading(s)
  {
    DigitsRead(if n < 0 then -n else n);
    var s := Show(Number(n));
    if n < 0 { assert s[1..] == Digits(-n); } else { assert s[0] in s; }
  }

  function ApplyEntries(r: Request, es: seq<PatchEntry>): Request {
    if es == [] then r else ApplyEntry(ApplyEntries(r, es[..|es| - 1]), es[|es| - 1])
  }

  function AxisByName(axes: seq<Axis>, name: string): Option<Axis> {
    if axes == [] then None else if axes[0].name == name then Some(axes[0]) else AxisByName(axes[1..], name)
  }

  function ValueByTitle(values: seq<AxisValue>, title: string): Option<AxisValue> {
    if values == [] then None else if values[0].title == title then Some(values[0]) else ValueByTitle(values[1..], title)
  }

  /** The patch one coordinate of a cell stands for; empty if there is no such value. */
  function PatchOf(axes: seq<Axis>, coordinate: (string, string)): seq<PatchEntry> {
    var axis := AxisByName(axes, coordinate.0);
    if axis.None? then []
    else
      var value := ValueByTitle(axis.value.values, coordinate.1);
      if value.None? then [] else value.value.patch
  }

  /** Every patch entry of a cell, in the order in which they are applied. */
  function Entries(axes: seq<Axis>, cell: Cell): seq<PatchEntry> {
    if cell == [] then [] else Entries(axes, cell[..|cell| - 1]) + PatchOf(axes, cell[|cell| - 1])
  }

  predicate BreaksLock(spec: Spec, cell: Cell) {
    exists e :: e in Entries(spec.axes, cell) && !IsAppend(e.key) && e.key in spec.locked
  }

  /** Some patch of the cell replaces a locked field. */
  ghost predicate SetsLocked(spec: Spec, cell: Cell) {
    exists e :: e in Entries(spec.axes, cell) && e.key in spec.locked
      && e.key !in {"prompt_suffix", "prompt_fragment", "negative_suffix", "negative_fragment"}
  }

  lemma LockIsExact(spec: Spec, cell: Cell)
    ensures BreaksLock(spec, cell) <==> SetsLocked(spec, cell)
  {
  }

  predicate PatchesSeed(spec: Spec, cell: Cell) {
    exists e :: e in Entries(spec.axes, cell) && e.key == "seed"
  }

  function ResolveSeed(spec: Spec, index: nat): Value {
    match spec.policy
    case Shared => spec.base.seed
    case _ => Number((if spec.base.seed.Number? then spec.base.seed.n else 0) + index)
  }

  /** `_build_request` with the seed it starts from. */
  function BuildRequest(spec: Spec, cell: Cell, seed: Value): Request {
    ApplyEntries(spec.base.(seed := seed), Entries(spec.axes, cell))
  }

  // -------------------------------------------------------------------- grid

  /** All cells; the first axis varies slowest. */
  function Cells(axes: seq<Axis>): seq<Cell> {
    if axes == [] then [[]]
    else Spread(Cells(axes[..|axes| - 1]), axes[|axes| - 1])
  }

  function Spread(cells: seq<Cell>, axis: Axis): seq<Cell> {
    if cells == [] then [] else Extend(cells[0], axis.name, axis.values) + Spread(cells[1..], axis)
  }

  function Extend(cell: Cell, name: string, values: seq<AxisValue>): (r: seq<Cell>)
    ensures |r| == |values| && forall i :: 0 <= i < |r| ==> r[i] == cell + [(name, values[i].title)]
  {
    if values == [] then [] else [cell + [(name, values[0].title)]] + Extend(cell, name, values[1..])
  }

  function Product(axes: seq<Axis>): nat {
    if axes == [] then 1 else Product(axes[..|axes| - 1]) * |axes[|axes| - 1].values|
  }

  ghost predicate UniqueTitles(axis: Axis) {
    forall i, j :: 0 <= i < j < |axis.values| ==> axis.values[i].title != axis.values[j].title
  }

  function Itself(): Cell -> Cell { (c: Cell) => c }

  ghost predicate DistinctCells(cells: seq<Cell>) { DistinctBy(cells, Itself()) }

  /** A choice of one value per axis, in axis order. */
  ghost predicate IsChoice(axes: seq<Axis>, cell: Cell) {
    |cell| == |axes| && forall i :: 0 <= i < |axes| ==> cell[i].0 == axes[i].name && exists v :: v in axes[i].values && v.title == cell[i].1
  }

  lemma {:induction false} SpreadCount(cells: seq<Cell>, axis: Axis)
    ensures |Spread(cells, axis)| == |cells| * |axis.values|
  {
    if cells != [] {
      SpreadCount(cells[1..], axis);
      assert |cells| * |axis.values| == |axis.values| + |cells[1..]| * |axis.values|;
    }
  }

  lemma {:induction false} GridCount(axes: seq<Axis>)
    ensures |Cells(axes)| == Product(axes)
  {
    if axes != [] {
      GridCount(axes[..|axes| - 1]);
      SpreadCount(Cells(axes[..|axes| - 1]), axes[|axes| - 1]);
    }
  }

  lemma {:induction false} SpreadMembers(cells: seq<Cell>, axis: Axis, c: Cell)
    ensures c in Spread(cells, axis) <==>
      c != [] && c[..|c| - 1] in cells && c[|c| - 1].0 == axis.name && exists v :: v in axis.values && v.title == c[|c| - 1].1
  {
    if cells != [] {
      SpreadMembers(cells[1..], axis, c);
      ExtendMembers(cells[0], axis, c);
      assert forall x :: x in cells <==> x == cells[0] || x in cells[1..];
      assert c in Spread(cells, axis) <==> c in Extend(cells[0], axis.name, axis.values) || c in Spread(cells[1..], axis);
    }
  }

  lemma ExtendMembers(cell: Cell, axis: Axis, c: Cell)
    ensures c in Extend(cell, axis.name, axis.values) <==>
      c != [] && c[..|c| - 1] == cell && c[|c| - 1].0 == axis.name && exists v :: v in axis.values && v.title == c[|c| - 1].1
  {
    var r := Extend(cell, axis.name, axis.values);
    if c in r {
      var i :| 0 <= i < |r| && r[i] == c;
      assert axis.values[i] in axis.values && c[..|c| - 1] == cell;
    }
    if c != [] && c[..|c| - 1] == cell && c[|c| - 1].0 == axis.name && exists v :: v in axis.values && v.title == c[|c| - 1].1 {
      var v :| v in axis.values && v.title == c[|c| - 1].1;
      var i :| 0 <= i < |axis.values| && axis.values[i] == v;
      assert c == cell + [c[|c| - 1]];
      assert r[i] == c;
    }
  }

  /** The grid is exactly the set of choices. */
  lemma {:induction false} GridMembers(axes: seq<Axis>, c: Cell)
    ensures c in Cells(axes) <==> IsChoice(axes, c)
  {
    if axes != [] {
      var init, last := axes[..|axes| - 1], axes[|axes| - 1];
      SpreadMembers(Cells(init), last, c);
      if c != [] {
        GridMembers(init, c[..|c| - 1]);
        ChoiceSplits(axes, c);
      }
    }
  }

  lemma ChoiceSplits(axes: seq<Axis>, c: Cell)
    requires axes != [] && c != []
    ensures var axis, x := axes[|axes| - 1], c[|c| - 1];
      IsChoice(axes, c) <==>
        IsChoice(axes[..|axes| - 1], c[..|c| - 1]) && x.0 == axis.name && exists v :: v in axis.values && v.title == x.1
  {
    var init, c' := axes[..|axes| - 1], c[..|c| - 1];
    if |c| == |axes| {
      assert forall i :: 0 <= i < |init| ==> init[i] == axes[i] && c'[i] == c[i];
    }
  }

  /** No cell occurs twice. */
  lemma {:induction false} GridDistinct(axes: seq<Axis>)
    requires forall i :: 0 <= i < |axes| ==> UniqueTitles(axes[i])
    ensures DistinctCells(Cells(axes))
  {
    if axes != [] {
      GridDistinct(axes[..|axes| - 1]);
      SpreadDistinct(Cells(axes[..|axes| - 1]), axes[|axes| - 1]);
    }
  }

  lemma {:induction false} SpreadDistinct(cells: seq<Cell>, axis: Axis)
    requires DistinctCells(cells) && UniqueTitles(axis)
    ensures DistinctCells(Spread(cells, axis))
  {
    hide DistinctCells;
    if cells != [] {
      var head, tail := Extend(cells[0], axis.name, axis.values), Spread(cells[1..], axis);
      HeadIsNew(cells);
      SpreadDistinct(cells[1..], axis);
      ExtendDistinct(cells[0], axis);
      forall c | c in head ensures c !in tail {
        SpreadMembers(cells[1..], axis, c);
        ExtendMembers(cells[0], axis, c);
      }
      DistinctConcat(head, tail);
    }
  }

  lemma HeadIsNew(cells: seq<Cell>)
    requires cells != [] && DistinctCells(cells)
    ensures cells[0] !in cells[1..] && DistinctCells(cells[1..])
  {
  }

  lemma ExtendDistinct(cell: Cell, axis: Axis)
    requires UniqueTitles(axis)
    ensures DistinctCells(Extend(cell, axis.name, axis.values))
  {
    var r := Extend(cell, axis.name, axis.values);
    forall i, j | 0 <= i < j < |r| ensures r[i] != r[j] {
      var x: (string, string), y: (string, string) := r[i][|cell|], r[j][|cell|];
      assert x.1 == axis.values[i].title && y.1 == axis.values[j].title;
    }
  }

  lemma DistinctConcat(a: seq<Cell>, b: seq<Cell>)
    requires DistinctCells(a) && DistinctCells(b) && forall c :: c in a ==> c !in b
    ensures DistinctCells(a + b)
  {
    forall i, j | 0 <= i < |a| && 0 <= j < |b| ensures a[i] != b[j] {
      assert a[i] in a && b[j] in b;
    }
  }

  // ------------------------------------------------------------------- items

  datatype Item = Item(index: nat, cell: Cell, request: Request)

  datatype Expanded = Items(items: seq<Item>) | NoMaxItems | TooMany | Locked

  /** Drafts carry the seed of their first position. */
  function Draft(spec: Spec, cell: Cell, position: nat): Item {
    Item(position, cell, BuildRequest(spec, cell, ResolveSeed(spec, position)))
  }

  function ModelOf(i: Item): string { Show(i.request.model) }

  /** Children that share a model run consecutively. */
  function ByModel(): (Item, Item) -> bool {
    (a: Item, b: Item) => if ModelOf(a) == ModelOf(b) then a.index <= b.index else StringLe(ModelOf(a), ModelOf(b))
  }

  lemma ByModelIsOrder()
    ensures TotalPreorder(ByModel())
  {
    var le := ByModel();
    forall a, b ensures le(a, b) || le(b, a) {
      StringTotal(ModelOf(a), ModelOf(b));
    }
    forall a, b, c | le(a, b) && le(b, c) ensures le(a, c) {
      StringTotal(ModelOf(a), ModelOf(b));
      StringTotal(ModelOf(b), ModelOf(c));
      if ModelOf(a) != ModelOf(b) && ModelOf(b) != ModelOf(c) { StringTransitive(ModelOf(a), ModelOf(b), ModelOf(c)); }
      if ModelOf(a) == ModelOf(c) && ModelOf(a) != ModelOf(b) { StringTotal(ModelOf(a), ModelOf(b)); }
    }
  }

  /** The starting seed only matters if no patch sets the seed. */
  lemma {:induction false} SeedIsLocal(r: Request, es: seq<PatchEntry>, seed: Value)
    ensures ApplyEntries(r.(seed := seed), es).(seed := Null) == ApplyEntries(r, es).(seed := Null)
    ensures (exists e :: e in es && e.key == "seed") ==> ApplyEntries(r.(seed := seed), es).seed == ApplyEntries(r, es).seed
    ensures !(exists e :: e in es && e.key == "seed") ==> ApplyEntries(r, es).seed == r.seed
  {
    if es != [] {
      var init, last := es[..|es| - 1], es[|es| - 1];
      SeedIsLocal(r, init, seed);
      EntryIsLocal(ApplyEntries(r.(seed := seed), init), ApplyEntries(r, init), last);
      assert es == init + [last];
    }
  }

  lemma EntryIsLocal(a: Request, b: Request, e: PatchEntry)
    requires a.(seed := Null) == b.(seed := Null)
    ensures ApplyEntry(a, e).(seed := Null) == ApplyEntry(b, e).(seed := Null)
    ensures if e.key == "seed" then ApplyEntry(a, e).seed == ApplyEntry(b, e).seed == e.value
            else ApplyEntry(a, e).seed == a.seed && ApplyEntry(b, e).seed == b.seed
  {
  }

  /** Reseeding a draft after the sort gives what building it in its final place
      would have given. */
  function Reindexed(spec: Spec, item: Item, order: nat): Item {
    if spec.policy.Shared? || PatchesSeed(spec, item.cell) then item.(index := order)
    else item.(index := order, request := item.request.(seed := ResolveSeed(spec, order)))
  }

  lemma ReindexedIsDraft(spec: Spec, cell: Cell, position: nat, order: nat)
    ensures Reindexed(spec, Draft(spec, cell, position), order) == Draft(spec, cell, order)
  {
    var es := Entries(spec.axes, cell);
    var a, b := spec.base.(seed := ResolveSeed(spec, position)), ResolveSeed(spec, order);
    SeedIsLocal(a, es, b);
    assert a.(seed := b) == spec.base.(seed := b);
    SeedIsLocal(a.(seed := b), es, b);
  }

  ghost predicate ModelsTogether(items: seq<Item>) {
    forall i, j, k :: 0 <= i < j < k < |items| && ModelOf(items[i]) == ModelOf(items[k]) ==> ModelOf(items[j]) == ModelOf(items[i])
  }

  /** The items stand for the cells at these places, each place once: in the order of
      their models, and within a model in the order of the cells. */
  ghost predicate Arranged(items: seq<Item>, cells: seq<Cell>, place: seq<nat>) {
    && |place| == |items| == |cells|
    && (forall i :: 0 <= i < |items| ==> place[i] < |cells| && items[i].cell == cells[place[i]])
    && (forall i, j :: 0 <= i < j < |items| ==> place[i] != place[j] && InOrder(items[i], items[j], place[i], place[j]))
  }

  ghost predicate InOrder(a: Item, b: Item, p: nat, q: nat) {
    StringLe(Show(a.request.model), Show(b.request.model)) && (Show(a.request.model) == Show(b.request.model) ==> p < q)
  }

  ghost predicate InModelOrder(items: seq<Item>, cells: seq<Cell>) { exists place :: Arranged(items, cells, place) }

  function PlaceOf(): Item -> nat { (i: Item) => i.index }

  /** The items carry the places of their cells. */
  ghost predicate PlacedAt(items: seq<Item>, cells: seq<Cell>) {
    forall i :: 0 <= i < |items| ==> items[i].index < |cells| && items[i].cell == cells[items[i].index]
  }

  ghost predicate KeepsOrder(items: seq<Item>) {
    forall i, j :: 0 <= i < j < |items| ==> items[i].index != items[j].index && InOrder(items[i], items[j], items[i].index, items[j].index)
  }

  lemma SortedInModelOrder(drafts: seq<Item>, cells: seq<Cell>)
    requires |drafts| == |cells| && forall p :: 0 <= p < |drafts| ==> drafts[p].index == p && drafts[p].cell == cells[p]
    ensures InModelOrder(Sort(drafts, ByModel()), cells)
  {
    hide Sort, ByModel, InModelOrder, PlacedAt, KeepsOrder;
    var sorted := Sort(drafts, ByModel());
    PlacedCells(drafts, cells);
    PlacesInOrder(drafts);
    ArrangedHere(sorted, cells);
  }

  lemma PlacedCells(drafts: seq<Item>, cells: seq<Cell>)
    requires |drafts| == |cells| && forall p :: 0 <= p < |drafts| ==> drafts[p].index == p && drafts[p].cell == cells[p]
    ensures PlacedAt(Sort(drafts, ByModel()), cells)
  {
    hide Sort, ByModel;
    var s := Sort(drafts, ByModel());
    SortMembers(drafts, ByModel());
    forall i | 0 <= i < |s| ensures s[i].index < |cells| && s[i].cell == cells[s[i].index] {
      assert s[i] in drafts;
    }
  }

  lemma ArrangedHere(items: seq<Item>, cells: seq<Cell>)
    requires |items| == |cells| && PlacedAt(items, cells) && KeepsOrder(items)
    ensures InModelOrder(items, cells)
  {
    hide InOrder;
    assert Arranged(items, cells, Map(items, PlaceOf()));
  }

  lemma PlacesInOrder(drafts: seq<Item>)
    requires forall p :: 0 <= p < |drafts| ==> drafts[p].index == p
    ensures KeepsOrder(Sort(drafts, ByModel()))
  {
    hide Sort, TotalPreorder, InOrder, ByModel;
    var s := Sort(drafts, ByModel());
    ByModelIsOrder();
    SortSorted(drafts, ByModel());
    DistinctInAnyOrder(drafts, s, PlaceOf());
    forall i, j | 0 <= i < j < |s| ensures s[i].index != s[j].index && InOrder(s[i], s[j], s[i].index, s[j].index) {
      assert PlaceOf()(s[i]) != PlaceOf()(s[j]);
      ModelsInOrder(s[i], s[j]);
    }
  }

  lemma ModelsInOrder(a: Item, b: Item)
    requires ByModel()(a, b) && a.index != b.index
    ensures InOrder(a, b, a.index, b.index)
  {
    StringTotal(ModelOf(a), ModelOf(b));
  }

  /** Giving items their final indices and seeds leaves the arrangement alone. */
  lemma StillInModelOrder(a: seq<Item>, b: seq<Item>, cells: seq<Cell>)
    requires InModelOrder(a, cells) && |a| == |b|
    requires forall i :: 0 <= i < |a| ==> a[i].cell == b[i].cell && ModelOf(a[i]) == ModelOf(b[i])
    ensures InModelOrder(b, cells)
  {
    var place :| Arranged(a, cells, place);
    forall i, j | 0 <= i < j < |b| ensures InOrder(b[i], b[j], place[i], place[j]) {
      assert InOrder(a[i], a[j], place[i], place[j]);
    }
    assert Arranged(b, cells, place);
  }

  lemma SortedModelsTogether(items: seq<Item>)
    requires SortedBy(items, ByModel())
    ensures ModelsTogether(items)
  {
    forall i, j, k | 0 <= i < j < k < |items| && ModelOf(items[i]) == ModelOf(items[k]) ensures ModelOf(items[j]) == ModelOf(items[i]) {
      assert ByModel()(items[i], items[j]) && ByModel()(items[j], items[k]);
      StringTotal(ModelOf(items[i]), ModelOf(items[j]));
    }
  }

  function CellsOf(items: seq<Item>): (r: seq<Cell>)
    ensures |r| == |items| && forall i :: 0 <= i < |r| ==> r[i] == items[i].cell
  {
    Map(items, (i: Item) => i.cell)
  }

  /** The sampler is asked for fewer cells than there are. */
  predicate Sampled(spec: Spec) {
    spec.axes != [] && spec.strategy.Sample? && spec.strategy.maxItems.Some? && spec.strategy.maxItems.value < |Cells(spec.axes)|
  }

  /** What the sampler returns, sorted: that many different positions of the grid. */
  ghost predicate SampleOk(spec: Spec, chosen: seq<nat>) {
    Sampled(spec) ==>
      && |chosen| == spec.strategy.maxItems.value
      && (forall i :: 0 <= i < |chosen| ==> chosen[i] < |Cells(spec.axes)|)
      && (forall i, j :: 0 <= i < j < |chosen| ==> chosen[i] < chosen[j])
  }

  /** The cells a specification asks for: the grid, or a sample of it. */
  function Wanted(spec: Spec, chosen: seq<nat>): (r: seq<Cell>)
    requires SampleOk(spec, chosen)
  {
    if Sampled(spec) then Pick(Cells(spec.axes), chosen) else Cells(spec.axes)
  }

  function Pick(cells: seq<Cell>, chosen: seq<nat>): (r: seq<Cell>)
    requires forall i :: 0 <= i < |chosen| ==> chosen[i] < |cells|
    ensures |r| == |chosen| && forall i :: 0 <= i < |r| ==> r[i] == cells[chosen[i]]
  {
    if chosen == [] then [] else [cells[chosen[0]]] + Pick(cells, chosen[1..])
  }

  /** A sample has min(max_items, product) cells, all different and all of the grid. */
  lemma WantedIsExact(spec: Spec, chosen: seq<nat>)
    requires SampleOk(spec, chosen) && forall i :: 0 <= i < |spec.axes| ==> UniqueTitles(spec.axes[i])
    ensures DistinctCells(Wanted(spec, chosen)) && forall c :: c in Wanted(spec, chosen) ==> IsChoice(spec.axes, c)
    ensures |Wanted(spec, chosen)| == if Sampled(spec) then Min(spec.strategy.maxItems.value, Product(spec.axes)) else Product(spec.axes)
  {
    hide Cells, IsChoice, UniqueTitles;
    GridCount(spec.axes);
    GridDistinct(spec.axes);
    var w, cells := Wanted(spec, chosen), Cells(spec.axes);
    forall c | c in w ensures IsChoice(spec.axes, c) {
      var i :| 0 <= i < |w| && w[i] == c;
      assert c in cells;
      GridMembers(spec.axes, c);
    }
  }

  lemma {:induction false} EmptyProduct(axes: seq<Axis>)
    ensures Product(axes) == 0 <==> exists a :: a in axes && a.values == []
  {
    if axes != [] {
      var init, last := axes[..|axes| - 1], axes[|axes| - 1];
      EmptyProduct(init);
      assert axes == init + [last];
      NoProduct(Product(init), |last.values|);
    }
  }

  lemma NoProduct(m: nat, n: nat)
    ensures m * n == 0 <==> m == 0 || n == 0
  {
  }

  /** Nothing is asked for if and only if some axis has no value or zero items are
      sampled. Validation forbids both, but overrides are applied without it. */
  lemma NothingWanted(spec: Spec, chosen: seq<nat>)
    requires SampleOk(spec, chosen)
    ensures Wanted(spec, chosen) == [] <==>
      (exists a :: a in spec.axes && a.values == []) || (spec.axes != [] && spec.strategy == Sample(Some(0)))
  {
    GridCount(spec.axes);
    EmptyProduct(spec.axes);
  }

  /** First-stage expansion. `chosen` are the sampler's indices, in order. Exactly the
      cells wanted appear; indices are positions; every request is the one built at
      its own index; models are contiguous. */
  method ExpandFirstStage(spec: Spec, chosen: seq<nat>) returns (r: Expanded)
    requires SampleOk(spec, chosen)
    ensures r.NoMaxItems? <==> spec.axes != [] && spec.strategy == Sample(None)
    ensures r.TooMany? <==> !r.NoMaxItems? && spec.axes != [] && |Wanted(spec, chosen)| > spec.limit
    ensures r.Locked? <==> !r.NoMaxItems? && !r.TooMany? && exists c :: c in Wanted(spec, chosen) && SetsLocked(spec, c)
    ensures r.Items? ==> multiset(CellsOf(r.items)) == multiset(Wanted(spec, chosen)) && |r.items| == |Wanted(spec, chosen)|
    ensures r.Items? ==> forall i :: 0 <= i < |r.items| ==> r.items[i] == Draft(spec, r.items[i].cell, i)
    ensures r.Items? ==> forall i :: 0 <= i < |r.items| ==> r.items[i].index == i && HasItsSeed(spec, r.items[i], i)
    ensures r.Items? ==> forall i :: 0 <= i < |r.items| ==> !SetsLocked(spec, r.items[i].cell)
    ensures r.Items? ==> ModelsTogether(r.items) && InModelOrder(r.items, Wanted(spec, chosen))
    ensures Wanted(spec, chosen) == [] && !r.NoMaxItems? ==> r == Items([])
  {
    hide BreaksLock, ModelsTogether, SortedBy, TotalPreorder, Sort, Wanted, ByModel, Draft, ModelOf, Cells, Map, HasItsSeed, SetsLocked, InModelOrder;
    forall c ensures BreaksLock(spec, c) <==> SetsLocked(spec, c) { LockIsExact(spec, c); }
    var cells := Wanted(spec, chosen);
    if spec.axes != [] {
      if spec.strategy == Sample(None) { return NoMaxItems; }
      if |cells| > spec.limit { return TooMany; }
    }
    var locked, drafts := Drafts(spec, cells);
    if locked { return Locked; }
    var sorted := Sort(drafts, ByModel());
    ByModelIsOrder();
    SortSorted(drafts, ByModel());
    SortKeepsMap(drafts, ByModel(), (i: Item) => i.cell);
    assert CellsOf(drafts) == cells;
    SortedModelsTogether(sorted);
    SortedDrafts(spec, drafts, sorted);
    SortedInModelOrder(drafts, cells);
    var items := Reindex(spec, sorted);
    StillInModelOrder(sorted, items, cells);
    SameCells(sorted, items);
    SameModelsTogether(sorted, items);
    forall i | 0 <= i < |items| ensures items[i].index == i && HasItsSeed(spec, items[i], i) {
      DraftSeed(spec, items[i].cell, i);
    }
    r := Items(items);
  }

  lemma SameCells(a: seq<Item>, b: seq<Item>)
    requires |a| == |b| && forall i :: 0 <= i < |a| ==> a[i].cell == b[i].cell
    ensures CellsOf(a) == CellsOf(b)
  {
  }

  /** Was built from its cell at some position, and breaks no lock. */
  ghost predicate IsDraft(spec: Spec, item: Item) {
    item == Draft(spec, item.cell, item.index) && !BreaksLock(spec, item.cell)
  }

  lemma SortedDrafts(spec: Spec, drafts: seq<Item>, sorted: seq<Item>)
    requires sorted == Sort(drafts, ByModel()) && forall i :: 0 <= i < |drafts| ==> IsDraft(spec, drafts[i])
    ensures forall i :: 0 <= i < |sorted| ==> IsDraft(spec, sorted[i])
  {
    hide IsDraft;
    SortMembers(drafts, ByModel());
    forall i | 0 <= i < |sorted| ensures IsDraft(spec, sorted[i]) {
      assert sorted[i] in drafts;
    }
  }

  /** The first loop: one draft per cell, in cell order. */
  method Drafts(spec: Spec, cells: seq<Cell>) returns (locked: bool, items: seq<Item>)
    ensures locked <==> exists c :: c in cells && BreaksLock(spec, c)
    ensures !locked ==> |items| == |cells|
    ensures !locked ==> forall i :: 0 <= i < |items| ==> items[i].cell == cells[i] && items[i].index == i && IsDraft(spec, items[i])
  {
    hide BreaksLock;
    items := [];
    var position := 0;
    while position < |cells|
      invariant 0 <= position <= |cells| && |items| == position
      invariant forall i :: 0 <= i < position ==> items[i].cell == cells[i] && items[i].index == i && IsDraft(spec, items[i]) && !BreaksLock(spec, cells[i])
    {
      if BreaksLock(spec, cells[position]) { return true, []; }
      items := items + [Draft(spec, cells[position], position)];
      position := position + 1;
    }
    locked := false;
  }

  /** The last loop: final indices, and the seeds that follow from them. */
  method Reindex(spec: Spec, sorted: seq<Item>) returns (items: seq<Item>)
    requires forall i :: 0 <= i < |sorted| ==> IsDraft(spec, sorted[i])
    ensures |items| == |sorted|
    ensures forall i :: 0 <= i < |items| ==> items[i] == Draft(spec, sorted[i].cell, i)
    ensures forall i :: 0 <= i < |items| ==> items[i].cell == sorted[i].cell && ModelOf(items[i]) == ModelOf(sorted[i])
  {
    hide Draft, BreaksLock, Reindexed, ModelOf;
    items := sorted;
    var order := 0;
    while order < |items|
      invariant 0 <= order <= |items| == |sorted|
      invariant forall i :: 0 <= i < order ==> items[i] == Draft(spec, sorted[i].cell, i)
      invariant forall i :: order <= i < |items| ==> items[i] == sorted[i]
      invariant forall i :: 0 <= i < |items| ==> items[i].cell == sorted[i].cell && ModelOf(items[i]) == ModelOf(sorted[i])
    {
      assert IsDraft(spec, sorted[order]);
      ReindexedIsDraft(spec, sorted[order].cell, sorted[order].index, order);
      ReindexedKeeps(spec, sorted[order], order);
      items := items[order := Reindexed(spec, items[order], order)];
      order := order + 1;
    }
  }

  lemma ReindexedKeeps(spec: Spec, item: Item, order: nat)
    ensures var r := Reindexed(spec, item, order); r.cell == item.cell && ModelOf(r) == ModelOf(item) && r.index == order
  {
  }

  lemma SameModelsTogether(a: seq<Item>, b: seq<Item>)
    requires ModelsTogether(a) && |a| == |b| && forall i :: 0 <= i < |a| ==> ModelOf(a[i]) == ModelOf(b[i])
    ensures ModelsTogether(b)
  {
  }

  /** The last entry with this key. */
  ghost predicate IsLast(es: seq<PatchEntry>, k: nat, key: string) {
    k < |es| && es[k].key == key && forall i :: k < i < |es| ==> es[i].key != key
  }

  /** The seed of an item: what the last patch to set one says; else the base seed if
      the policy is shared, and the base seed, or zero without one, plus the index. */
  ghost predicate HasItsSeed(spec: Spec, item: Item, index: nat) {
    && (PatchesSeed(spec, item.cell) ==>
          exists k: nat :: IsLast(Entries(spec.axes, item.cell), k, "seed") && item.request.seed == Entries(spec.axes, item.cell)[k].value)
    && (!PatchesSeed(spec, item.cell) && spec.policy == Shared ==> item.request.seed == spec.base.seed)
    && (!PatchesSeed(spec, item.cell) && spec.policy != Shared && spec.base.seed.Number? ==>
          item.request.seed == Number(spec.base.seed.n + index))
    && (!PatchesSeed(spec, item.cell) && spec.policy != Shared && spec.base.seed.Null? ==> item.request.seed == Number(index))
  }

  lemma {:induction false} LastSeedWins(r: Request, es: seq<PatchEntry>, k: nat)
    requires IsLast(es, k, "seed")
    ensures ApplyEntries(r, es).seed == es[k].value
  {
    if k < |es| - 1 {
      LastSeedWins(r, es[..|es| - 1], k);
    }
  }

  lemma {:induction false} SomeLast(es: seq<PatchEntry>, key: string)
    requires exists e :: e in es && e.key == key
    ensures exists k: nat :: IsLast(es, k, key)
  {
    var n := |es| - 1;
    if es[n].key == key {
      assert IsLast(es, n, key);
    } else {
      assert es == es[..n] + [es[n]];
      SomeLast(es[..n], key);
      var k: nat :| IsLast(es[..n], k, key);
      assert IsLast(es, k, key);
    }
  }

  /** The seed a draft ends up with, and that no other field depends on the index. */
  lemma DraftSeed(spec: Spec, cell: Cell, index: nat)
    ensures HasItsSeed(spec, Draft(spec, cell, index), index)
    ensures var d := Draft(spec, cell, index);
      && d.index == index && d.cell == cell
      && (PatchesSeed(spec, cell) ==> d.request == Draft(spec, cell, 0).request)
      && d.request.(seed := Null) == Draft(spec, cell, 0).request.(seed := Null)
  {
    hide ApplyEntries;
    var es := Entries(spec.axes, cell);
    var a, b := spec.base.(seed := ResolveSeed(spec, 0)), ResolveSeed(spec, index);
    SeedIsLocal(a, es, b);
    assert a.(seed := b) == spec.base.(seed := b);
    SeedIsLocal(spec.base.(seed := b), es, b);
    if PatchesSeed(spec, cell) {
      SomeLast(es, "seed");
      var k: nat :| IsLast(es, k, "seed");
      LastSeedWins(spec.base.(seed := b), es, k);
    }
  }

  /** Unless the policy is shared, items no patch gives a seed have different seeds. */
  lemma SeedsDiffer(spec: Spec, a: Item, b: Item, i: nat, j: nat)
    requires HasItsSeed(spec, a, i) && HasItsSeed(spec, b, j) && i != j
    requires spec.policy != Shared && !spec.base.seed.Text? && !PatchesSeed(spec, a.cell) && !PatchesSeed(spec, b.cell)
    ensures a.request.seed != b.request.seed
  {
    assert spec.base.seed.Number? || spec.base.seed.Null?;
  }

  /** Whatever the strategy, no two items of an expansion are for the same cell. */
  lemma NoCellTwice(spec: Spec, chosen: seq<nat>, items: seq<Item>)
    requires SampleOk(spec, chosen) && forall i :: 0 <= i < |spec.axes| ==> UniqueTitles(spec.axes[i])
    requires multiset(CellsOf(items)) == multiset(Wanted(spec, chosen))
    ensures DistinctCells(CellsOf(items))
  {
    hide Wanted, UniqueTitles, CellsOf;
    WantedIsExact(spec, chosen);
    DistinctInAnyOrder(Wanted(spec, chosen), CellsOf(items), Itself());
  }

  /** A grid expansion has product-many items, each choice of values exactly once. */
  lemma GridExpansionIsExact(spec: Spec, items: seq<Item>)
    requires forall i :: 0 <= i < |spec.axes| ==> UniqueTitles(spec.axes[i])
    requires |items| == |Cells(spec.axes)| && multiset(CellsOf(items)) == multiset(Cells(spec.axes))
    ensures |items| == Product(spec.axes)
    ensures DistinctCells(CellsOf(items))
    ensures forall c :: c in CellsOf(items) <==> IsChoice(spec.axes, c)
  {
    hide UniqueTitles, Cells, IsChoice, CellsOf;
    GridCount(spec.axes);
    GridDistinct(spec.axes);
    DistinctInAnyOrder(Cells(spec.axes), CellsOf(items), Itself());
    forall c ensures c in CellsOf(items) <==> IsChoice(spec.axes, c) {
      assert c in CellsOf(items) <==> c in multiset(CellsOf(items));
      GridMembers(spec.axes, c);
    }
  }
}
