/** Refining a winner. The second stage re-applies the winner's patches, but from a
    batch file whose dictionaries were written with sorted keys: axes and patch
    entries may be visited in another order than the first time. */
module Refinement {
  import opened Wrappers
  import opened Sorting
  import opened Expansion

  datatype Field = Prompt | Negative | Model | Seed | Format | Task

  function Get(r: Request, f: Field): Value {
    match f
    case Prompt => r.prompt
    case Negative => r.negative
    case Model => r.model
    case Seed => r.seed
    case Format => r.format
    case Task => r.task
  }

  /** The key that replaces a field, and the ones that append to it. */
  function ReplaceKey(f: Field): string {
    match f
    case Prompt => "prompt"
    case Negative => "negative_prompt"
    case Model => "model_id"
    case Seed => "seed"
    case Format => "output_format"
    case Task => "task_type"
  }

  function AppendKeys(f: Field): set<string> {
    match f
    case Prompt => {"prompt_suffix", "prompt_fragment"}
    case Negative => {"negative_suffix", "negative_fragment"}
    case _ => {}
  }

  /** What one entry does to one field. */
  lemma EntryOnField(r: Request, e: PatchEntry, f: Field)
    ensures Get(ApplyEntry(r, e), f) ==
      if e.key == ReplaceKey(f) then e.value
      else if e.key in AppendKeys(f) then Appended(Get(r, f), e.value)
      else Get(r, f)
  {
  }

  /** The entries that decide a field: the last replacement and the appends after it. */
  function Effective(es: seq<PatchEntry>, f: Field): seq<PatchEntry> {
    if es == [] then []
    else
      var init, last := es[..|es| - 1], es[|es| - 1];
      if last.key == ReplaceKey(f) then [last]
      else if last.key in AppendKeys(f) then Effective(init, f) + [last]
      else Effective(init, f)
  }

  lemma ApplyLast(r: Request, es: seq<PatchEntry>, e: PatchEntry)
    ensures ApplyEntries(r, es + [e]) == ApplyEntry(ApplyEntries(r, es), e)
  {
    assert (es + [e])[..|es|] == es;
  }

  /** The field only depends on its effective entries, and not on its starting value
      once one of them replaces it. */
  lemma {:induction false} FieldByEffective(r: Request, es: seq<PatchEntry>, f: Field)
    ensures Get(ApplyEntries(r, es), f) == Get(ApplyEntries(r, Effective(es, f)), f)
  {
    if es != [] {
      var init, last := es[..|es| - 1], es[|es| - 1];
      FieldByEffective(r, init, f);
      EntryOnField(ApplyEntries(r, init), last, f);
      if last.key == ReplaceKey(f) {
        assert [last][..0] == [];
        EntryOnField(ApplyEntries(r, []), last, f);
      } else if last.key in AppendKeys(f) {
        ApplyLast(r, Effective(init, f), last);
        EntryOnField(ApplyEntries(r, Effective(init, f)), last, f);
      }
    }
  }

  lemma {:induction false} FieldFromBase(r: Request, r': Request, es: seq<PatchEntry>, f: Field)
    requires Get(r, f) == Get(r', f) || (exists e :: e in es && e.key == ReplaceKey(f))
    ensures Get(ApplyEntries(r, es), f) == Get(ApplyEntries(r', es), f)
  {
    if es != [] {
      var init, last := es[..|es| - 1], es[|es| - 1];
      EntryOnField(ApplyEntries(r, init), last, f);
      EntryOnField(ApplyEntries(r', init), last, f);
      if last.key != ReplaceKey(f) {
        assert es == init + [last];
        FieldFromBase(r, r', init, f);
      }
    }
  }

  // ----------------------------------------------------------- the two orders

  function ByKey(): (PatchEntry, PatchEntry) -> bool { (a: PatchEntry, b: PatchEntry) => StringLe(a.key, b.key) }

  function ByName(): ((string, string), (string, string)) -> bool {
    (a: (string, string), b: (string, string)) => StringLe(a.0, b.0)
  }

  /** The axes as read back: the list keeps its order, each patch is sorted by key. */
  function ReloadedValues(values: seq<AxisValue>): seq<AxisValue> {
    if values == [] then [] else [values[0].(patch := Sort(values[0].patch, ByKey()))] + ReloadedValues(values[1..])
  }

  function Reloaded(axes: seq<Axis>): seq<Axis> {
    if axes == [] then [] else [axes[0].(values := ReloadedValues(axes[0].values))] + Reloaded(axes[1..])
  }

  function ReloadedCell(cell: Cell): Cell { Sort(cell, ByName()) }

  /** Entries in the order of the first stage, and in the order of a refinement. */
  function DeclaredOrder(spec: Spec, cell: Cell): seq<PatchEntry> { Entries(spec.axes, cell) }

  function ReloadedOrder(spec: Spec, cell: Cell): seq<PatchEntry> { Entries(Reloaded(spec.axes), ReloadedCell(cell)) }

  /** The request a later stage builds for a winner, at whatever position. */
  function Refine(spec: Spec, cell: Cell, winner: Request, position: nat): Request {
    var start := if winner.seed.Null? then ResolveSeed(spec, position) else winner.seed;
    BuildRequest(spec.(axes := Reloaded(spec.axes)), ReloadedCell(cell), start)
  }

  /** Field by field, the deciding entries come in the same order both times. */
  ghost predicate OrdersAgree(a: seq<PatchEntry>, b: seq<PatchEntry>) {
    forall f :: Effective(a, f) == Effective(b, f)
  }

  lemma {:induction false} EffectiveReplaces(es: seq<PatchEntry>, f: Field)
    ensures (exists e :: e in es && e.key == ReplaceKey(f)) <==> (exists e :: e in Effective(es, f) && e.key == ReplaceKey(f))
    ensures AppendKeys(f) == {} && Effective(es, f) != [] ==> exists e :: e in Effective(es, f) && e.key == ReplaceKey(f)
  {
    if es != [] {
      var init, last := es[..|es| - 1], es[|es| - 1];
      assert es == init + [last];
      EffectiveReplaces(init, f);
      if last.key == ReplaceKey(f) {
        assert last in Effective(es, f);
      } else if last.key in AppendKeys(f) {
        assert forall e :: e in Effective(es, f) <==> e in Effective(init, f) || e == last;
      }
    }
  }

  /** One field: where its deciding entries come in the same order, a refinement gives
      it the winner's value, whatever the refinement's own position. */
  lemma FieldReproduces(spec: Spec, cell: Cell, f: Field, index: nat, position: nat)
    requires Effective(DeclaredOrder(spec, cell), f) == Effective(ReloadedOrder(spec, cell), f)
    ensures Get(Refine(spec, cell, Draft(spec, cell, index).request, position), f) == Get(Draft(spec, cell, index).request, f)
  {
    var a, b := DeclaredOrder(spec, cell), ReloadedOrder(spec, cell);
    var base := spec.base.(seed := ResolveSeed(spec, index));
    var winner := ApplyEntries(base, a);
    var start := if winner.seed.Null? then ResolveSeed(spec, position) else winner.seed;
    if f == Seed { SeedCarriesOver(spec, base, a, index, position); }
    SameField(spec.base.(seed := start), base, a, b, f);
  }

  /** Where the deciding entries come in the same order, a refinement reproduces its
      winner in all six fields. */
  lemma RefinementReproduces(spec: Spec, cell: Cell, index: nat, position: nat)
    requires OrdersAgree(DeclaredOrder(spec, cell), ReloadedOrder(spec, cell))
    ensures Refine(spec, cell, Draft(spec, cell, index).request, position) == Draft(spec, cell, index).request
  {
    hide Refine, Draft;
    forall f ensures Get(Refine(spec, cell, Draft(spec, cell, index).request, position), f) == Get(Draft(spec, cell, index).request, f) {
      FieldReproduces(spec, cell, f, index, position);
    }
    SameRequest(Refine(spec, cell, Draft(spec, cell, index).request, position), Draft(spec, cell, index).request);
  }

  lemma SameRequest(a: Request, b: Request)
    requires forall f :: Get(a, f) == Get(b, f)
    ensures a == b
  {
    assert Get(a, Prompt) == Get(b, Prompt) && Get(a, Negative) == Get(b, Negative) && Get(a, Model) == Get(b, Model);
    assert Get(a, Seed) == Get(b, Seed) && Get(a, Format) == Get(b, Format) && Get(a, Task) == Get(b, Task);
  }

  lemma SameField(r: Request, r': Request, a: seq<PatchEntry>, b: seq<PatchEntry>, f: Field)
    requires Effective(a, f) == Effective(b, f)
    requires Get(r, f) == Get(r', f) || exists e :: e in a && e.key == ReplaceKey(f)
    ensures Get(ApplyEntries(r, b), f) == Get(ApplyEntries(r', a), f)
  {
    FieldByEffective(r, b, f);
    FieldByEffective(r', a, f);
    EffectiveReplaces(a, f);
    FieldFromBase(r, r', Effective(a, f), f);
  }

  lemma SeedCarriesOver(spec: Spec, base: Request, a: seq<PatchEntry>, index: nat, position: nat)
    requires base == spec.base.(seed := ResolveSeed(spec, index))
    ensures var winner := ApplyEntries(base, a);
      var start := if winner.seed.Null? then ResolveSeed(spec, position) else winner.seed;
      start == base.seed || exists e :: e in a && e.key == "seed"
  {
    SeedIsLocal(base, a, Null);
  }

  // ------------------------------------------------------------ a whole stage

  /** The draft for one winner, at its position among the winners. */
  function RefineOne(spec: Spec, w: Item, position: nat): Item {
    Item(position, ReloadedCell(w.cell), Refine(spec, w.cell, w.request, position))
  }

  function RefineDrafts(spec: Spec, winners: seq<Item>): (r: seq<Item>)
    ensures |r| == |winners|
  {
    if winners == [] then []
    else RefineDrafts(spec, winners[..|winners| - 1]) + [RefineOne(spec, winners[|winners| - 1], |winners| - 1)]
  }

  lemma {:induction false} RefineDraftsAt(spec: Spec, winners: seq<Item>, i: nat)
    requires i < |winners|
    ensures RefineDrafts(spec, winners)[i] == RefineOne(spec, winners[i], i)
  {
    hide RefineOne;
    if i < |winners| - 1 { RefineDraftsAt(spec, winners[..|winners| - 1], i); }
  }

  function Renumbered(items: seq<Item>): (r: seq<Item>)
    ensures |r| == |items| && forall i :: 0 <= i < |r| ==> r[i] == items[i].(index := i)
  {
    if items == [] then []
    else Renumbered(items[..|items| - 1]) + [items[|items| - 1].(index := |items| - 1)]
  }

  /** The items a later stage gets from the winners of the one before. */
  function RefineStage(spec: Spec, winners: seq<Item>): seq<Item> {
    Renumbered(Sort(RefineDrafts(spec, winners), ByModel()))
  }

  function CellIn(): Item -> Cell { (i: Item) => i.cell }

  function CellReloaded(): Item -> Cell { (i: Item) => ReloadedCell(i.cell) }

  function RequestIn(): Item -> Request { (i: Item) => i.request }

  function CellAndRequest(): Item -> (Cell, Request) { (i: Item) => (i.cell, i.request) }

  function CellAndRequestOfWinner(): Item -> (Cell, Request) { (i: Item) => (ReloadedCell(i.cell), i.request) }

  /** Refining this item, at whatever position, gives its own request again. */
  ghost predicate Reproducible(spec: Spec, w: Item) {
    forall position: nat :: Refine(spec, w.cell, w.request, position) == w.request
  }

  /** Items of the first stage are reproducible where the two orders agree; items of a
      later stage always are. */
  lemma FirstStageReproducible(spec: Spec, cell: Cell, index: nat)
    requires OrdersAgree(DeclaredOrder(spec, cell), ReloadedOrder(spec, cell))
    ensures Reproducible(spec, Draft(spec, cell, index))
  {
    hide OrdersAgree, DeclaredOrder, ReloadedOrder, Refine;
    forall position: nat ensures Refine(spec, cell, Draft(spec, cell, index).request, position) == Draft(spec, cell, index).request {
      RefinementReproduces(spec, cell, index, position);
    }
  }

  lemma RefinedReproducible(spec: Spec, w: Item, position: nat)
    ensures Reproducible(spec, RefineOne(spec, w, position))
  {
    hide Refine, Reloaded, ReloadedCell;
    var again := RefineOne(spec, w, position);
    forall next: nat ensures Refine(spec, again.cell, again.request, next) == again.request {
      LaterStagesReproduce(spec, w.cell, w.request, position, next);
      RefineReadsReloaded(spec, again.cell, again.request, next);
    }
  }

  /** A specification that was read back once gives the same refinements. */
  lemma RefineReadsReloaded(spec: Spec, cell: Cell, w: Request, position: nat)
    ensures Refine(spec.(axes := Reloaded(spec.axes)), cell, w, position) == Refine(spec, cell, w, position)
  {
    hide Entries, ApplyEntries, ReloadedCell;
    ReloadedSettles(spec.axes);
  }

  /** Whatever the winners: one item per winner, for its cell as reloaded; models
      contiguous; indices are positions; and every new item is reproducible. */
  lemma RefinedStageShape(spec: Spec, winners: seq<Item>)
    ensures var r := RefineStage(spec, winners);
      && |r| == |winners| && ModelsTogether(r) && (forall i :: 0 <= i < |r| ==> r[i].index == i)
      && multiset(Map(r, CellIn())) == multiset(Map(winners, CellReloaded())) && InModelOrder(r, Map(winners, CellReloaded()))
      && (forall x :: x in r ==> Reproducible(spec, x))
  {
    hide InModelOrder, RefineDrafts, Sort, ModelsTogether, SortedBy, TotalPreorder, ByModel, ReloadedCell, Reproducible, CellIn, CellReloaded, Map, ModelOf;
    var drafts := RefineDrafts(spec, winners);
    var sorted := Sort(drafts, ByModel());
    DraftsForWinners(spec, winners);
    SortKeepsMap(drafts, ByModel(), CellIn());
    RenumberedKeeps(sorted);
    SortMembers(drafts, ByModel());
    RenumberedReproducible(spec, sorted);
    ByModelIsOrder();
    SortSorted(drafts, ByModel());
    SortedModelsTogether(sorted);
    SortedInModelOrder(drafts, Map(winners, CellReloaded()));
    RenumberedModels(sorted);
    StillInModelOrder(sorted, Renumbered(sorted), Map(winners, CellReloaded()));
  }

  lemma RenumberedModels(items: seq<Item>)
    ensures forall i :: 0 <= i < |items| ==> Renumbered(items)[i].cell == items[i].cell && ModelOf(Renumbered(items)[i]) == ModelOf(items[i])
  {
  }

  lemma DraftsForWinners(spec: Spec, winners: seq<Item>)
    ensures var drafts := RefineDrafts(spec, winners);
      && Map(drafts, CellIn()) == Map(winners, CellReloaded()) && (forall d :: d in drafts ==> Reproducible(spec, d))
      && forall p :: 0 <= p < |drafts| ==> drafts[p].index == p && drafts[p].cell == Map(winners, CellReloaded())[p]
  {
    hide Refine, ReloadedCell, Reproducible, RefineDrafts;
    var drafts := RefineDrafts(spec, winners);
    forall i | 0 <= i < |winners| ensures drafts[i].index == i && drafts[i].cell == ReloadedCell(winners[i].cell) && Reproducible(spec, drafts[i]) {
      RefineDraftsAt(spec, winners, i);
      RefinedReproducible(spec, winners[i], i);
    }
  }

  /** Where the winners are reproducible, each new item has its winner's request. */
  lemma RefinedStageIsFaithful(spec: Spec, winners: seq<Item>)
    requires forall w :: w in winners ==> Reproducible(spec, w)
    ensures multiset(Map(RefineStage(spec, winners), CellAndRequest())) == multiset(Map(winners, CellAndRequestOfWinner()))
    ensures multiset(Map(RefineStage(spec, winners), RequestIn())) == multiset(Map(winners, RequestIn()))
  {
    hide RefineDrafts, Sort, ModelsTogether, ByModel, ReloadedCell, Reproducible, CellAndRequest, CellAndRequestOfWinner, RequestIn, Map;
    var drafts := RefineDrafts(spec, winners);
    DraftsAreFaithful(spec, winners);
    SortKeepsMap(drafts, ByModel(), CellAndRequest());
    SortKeepsMap(drafts, ByModel(), RequestIn());
    RenumberedKeeps(Sort(drafts, ByModel()));
  }

  /** Renumbering leaves cells, requests and models alone. */
  lemma RenumberedKeeps(items: seq<Item>)
    ensures Map(Renumbered(items), CellAndRequest()) == Map(items, CellAndRequest())
    ensures Map(Renumbered(items), CellIn()) == Map(items, CellIn())
    ensures Map(Renumbered(items), RequestIn()) == Map(items, RequestIn())
    ensures ModelsTogether(items) ==> ModelsTogether(Renumbered(items))
  {
    hide ModelsTogether;
    if ModelsTogether(items) { SameModelsTogether(items, Renumbered(items)); }
  }

  lemma RenumberedReproducible(spec: Spec, items: seq<Item>)
    requires forall x :: x in items ==> Reproducible(spec, x)
    ensures forall x :: x in Renumbered(items) ==> Reproducible(spec, x)
  {
    hide Reproducible;
    var r := Renumbered(items);
    forall x | x in r ensures Reproducible(spec, x) {
      var i :| 0 <= i < |r| && r[i] == x;
      assert items[i] in items;
      IndexIsIrrelevant(spec, items[i], i);
    }
  }

  lemma DraftsAreFaithful(spec: Spec, winners: seq<Item>)
    requires forall w :: w in winners ==> Reproducible(spec, w)
    ensures Map(RefineDrafts(spec, winners), CellAndRequest()) == Map(winners, CellAndRequestOfWinner())
    ensures Map(RefineDrafts(spec, winners), RequestIn()) == Map(winners, RequestIn())
  {
    hide Refine, ReloadedCell, Reproducible, RefineDrafts;
    var drafts := RefineDrafts(spec, winners);
    forall i | 0 <= i < |winners|
      ensures drafts[i].request == winners[i].request && drafts[i].cell == ReloadedCell(winners[i].cell)
    {
      assert winners[i] in winners;
      RefineDraftsAt(spec, winners, i);
      ReproducibleAt(spec, winners[i], i);
    }
  }

  lemma ReproducibleAt(spec: Spec, w: Item, position: nat)
    requires Reproducible(spec, w)
    ensures Refine(spec, w.cell, w.request, position) == w.request
  {
  }

  lemma IndexIsIrrelevant(spec: Spec, w: Item, index: nat)
    requires Reproducible(spec, w)
    ensures Reproducible(spec, w.(index := index))
  {
  }

  // ------------------------------------------------------- from stage to stage

  lemma ByNameIsOrder()
    ensures TotalPreorder(ByName())
  {
    var le := ByName();
    forall a, b ensures le(a, b) || le(b, a) { StringTotal(a.0, b.0); }
    forall a, b, c | le(a, b) && le(b, c) ensures le(a, c) { StringTransitive(a.0, b.0, c.0); }
  }

  lemma ByKeyIsOrder()
    ensures TotalPreorder(ByKey())
  {
    var le := ByKey();
    forall a, b ensures le(a, b) || le(b, a) { StringTotal(a.key, b.key); }
    forall a, b, c | le(a, b) && le(b, c) ensures le(a, c) { StringTransitive(a.key, b.key, c.key); }
  }

  /** Sorting what is sorted changes nothing. */
  lemma {:induction false} SortSortedIsSame<T(!new)>(s: seq<T>, le: (T, T) -> bool)
    requires SortedBy(s, le)
    ensures Sort(s, le) == s
  {
    if s != [] {
      var init, last := s[..|s| - 1], s[|s| - 1];
      assert SortedBy(init, le);
      SortSortedIsSame(init, le);
      assert s == init + [last];
      assert init != [] ==> le(init[|init| - 1], last);
    }
  }

  lemma {:induction false} ReloadedValuesSettle(values: seq<AxisValue>)
    ensures ReloadedValues(ReloadedValues(values)) == ReloadedValues(values)
  {
    if values != [] {
      ReloadedValuesSettle(values[1..]);
      ByKeyIsOrder();
      SortSorted(values[0].patch, ByKey());
      SortSortedIsSame(Sort(values[0].patch, ByKey()), ByKey());
    }
  }

  lemma {:induction false} ReloadedSettles(axes: seq<Axis>)
    ensures Reloaded(Reloaded(axes)) == Reloaded(axes)
  {
    if axes != [] {
      ReloadedSettles(axes[1..]);
      ReloadedValuesSettle(axes[0].values);
    }
  }

  /** From the second stage on, everything was read back from a file already: any
      further refinement reproduces what it refines, through any number of stages. */
  lemma LaterStagesReproduce(spec: Spec, cell: Cell, first: Request, position: nat, next: nat)
    ensures var refined := Refine(spec, cell, first, position);
      Refine(spec.(axes := Reloaded(spec.axes)), ReloadedCell(cell), refined, next) == refined
  {
    var read, at := spec.(axes := Reloaded(spec.axes)), ReloadedCell(cell);
    ReloadedSettles(spec.axes);
    ByNameIsOrder();
    SortSorted(cell, ByName());
    SortSortedIsSame(at, ByName());
    var refined := Refine(spec, cell, first, position);
    var start := if first.seed.Null? then ResolveSeed(spec, position) else first.seed;
    var es := Entries(read.axes, at);
    var start' := if refined.seed.Null? then ResolveSeed(read, next) else refined.seed;
    SeedIsLocal(spec.base.(seed := start), es, start');
    assert spec.base.(seed := start).(seed := start') == spec.base.(seed := start');
    SeedIsLocal(spec.base.(seed := start'), es, start');
  }

  // ------------------------------------------------------------- two examples

  /** Names and keys already in alphabetical order: nothing moves, nothing differs. */
  ghost predicate Alphabetical(spec: Spec) {
    && (forall i, j :: 0 <= i < j < |spec.axes| ==> StringLe(spec.axes[i].name, spec.axes[j].name))
    && (forall a, v :: a in spec.axes && v in a.values ==> SortedBy(v.patch, ByKey()))
  }

  lemma {:induction false} SortedValuesStay(values: seq<AxisValue>)
    requires forall v :: v in values ==> SortedBy(v.patch, ByKey())
    ensures ReloadedValues(values) == values
  {
    if values != [] {
      assert values[0] in values;
      SortSortedIsSame(values[0].patch, ByKey());
      SortedValuesStay(values[1..]);
    }
  }

  lemma {:induction false} SortedAxesStay(axes: seq<Axis>)
    requires forall a, v :: a in axes && v in a.values ==> SortedBy(v.patch, ByKey())
    ensures Reloaded(axes) == axes
  {
    if axes != [] {
      assert axes[0] in axes;
      SortedValuesStay(axes[0].values);
      SortedAxesStay(axes[1..]);
    }
  }

  lemma AlphabeticalReproduces(spec: Spec, cell: Cell, index: nat, position: nat)
    requires Alphabetical(spec) && IsChoice(spec.axes, cell)
    ensures Refine(spec, cell, Draft(spec, cell, index).request, position) == Draft(spec, cell, index).request
  {
    SortedAxesStay(spec.axes);
    assert SortedBy(cell, ByName());
    SortSortedIsSame(cell, ByName());
    RefinementReproduces(spec, cell, index, position);
  }

  /** An accepted specification whose refinement delivers another prompt than the one
      that won: two axes, not in alphabetical order, that both append to the prompt. */
  function ToneThenAngle(): Spec {
    Spec([ToneAxis(), AngleAxis()], Request(Text("z"), Null, Null, Null, Null, Null), Shared, {}, 10, Grid)
  }

  function ToneAxis(): Axis { Axis("tone", [AxisValue("warm", [Suffix("x")])]) }

  function AngleAxis(): Axis { Axis("angle", [AxisValue("low", [Suffix("y")])]) }

  function Suffix(text: string): PatchEntry { PatchEntry("prompt_suffix", Text(text)) }

  function WarmAndLow(): Cell { [("tone", "warm"), ("angle", "low")] }

  lemma RefinementCanDiffer()
    ensures WarmAndLow() in Cells(ToneThenAngle().axes)
    ensures Draft(ToneThenAngle(), WarmAndLow(), 0).request.prompt == Text("z, x, y")
    ensures Refine(ToneThenAngle(), WarmAndLow(), Draft(ToneThenAngle(), WarmAndLow(), 0).request, 0).prompt == Text("z, y, x")
  {
    hide Cells, Entries, IsChoice, ApplyEntries, Reloaded, ReloadedCell;
    var spec, cell := ToneThenAngle(), WarmAndLow();
    GridMembers(spec.axes, cell);
    WarmAndLowIsChoice();
    DeclaredOrderHere();
    ReloadedOrderHere();
    TwoSuffixes(spec.base, "x", "y");
    TwoSuffixes(spec.base, "y", "x");
    assert spec.base.(seed := Null) == spec.base;
    PromptXY();
  }

  lemma PromptXY()
    ensures Appended(Appended(Text("z"), Text("x")), Text("y")) == Text("z, x, y")
    ensures Appended(Appended(Text("z"), Text("y")), Text("x")) == Text("z, y, x")
  {
    assert "z" + ", " + "x" == "z, x" && "z" + ", " + "y" == "z, y";
    assert "z, x" + ", " + "y" == "z, x, y" && "z, y" + ", " + "x" == "z, y, x";
  }

  lemma TwoSuffixes(r: Request, s: string, t: string)
    ensures ApplyEntries(r, [Suffix(s), Suffix(t)]).prompt == Appended(Appended(r.prompt, Text(s)), Text(t))
    ensures ApplyEntries(r, [Suffix(s), Suffix(t)]).seed == r.seed
  {
    hide Appended;
    assert [Suffix(s)] + [Suffix(t)] == [Suffix(s), Suffix(t)] && [] + [Suffix(s)] == [Suffix(s)];
    ApplyLast(r, [], Suffix(s));
    ApplyLast(r, [Suffix(s)], Suffix(t));
  }

  lemma WarmAndLowIsChoice()
    ensures IsChoice(ToneThenAngle().axes, WarmAndLow())
  {
    assert ToneAxis().values[0] in ToneAxis().values && AngleAxis().values[0] in AngleAxis().values;
  }

  lemma PatchesHere(axes: seq<Axis>)
    requires axes == [ToneAxis(), AngleAxis()]
    ensures PatchOf(axes, ("tone", "warm")) == [Suffix("x")] && PatchOf(axes, ("angle", "low")) == [Suffix("y")]
  {
    assert axes[1..] == [AngleAxis()] && |"tone"| != |"angle"|;
    assert AxisByName(axes, "angle") == AxisByName([AngleAxis()], "angle") == Some(AngleAxis());
  }

  lemma TwoCoordinates(axes: seq<Axis>, a: (string, string), b: (string, string))
    ensures Entries(axes, [a, b]) == PatchOf(axes, a) + PatchOf(axes, b)
  {
    hide PatchOf;
    assert [a, b][..1] == [a] && [a][..0] == [];
    assert Entries(axes, [a]) == PatchOf(axes, a);
  }

  lemma DeclaredOrderHere()
    ensures DeclaredOrder(ToneThenAngle(), WarmAndLow()) == [Suffix("x"), Suffix("y")]
  {
    hide Entries, PatchOf;
    PatchesHere(ToneThenAngle().axes);
    TwoCoordinates(ToneThenAngle().axes, ("tone", "warm"), ("angle", "low"));
  }

  lemma ReloadedOrderHere()
    ensures ReloadedOrder(ToneThenAngle(), WarmAndLow()) == [Suffix("y"), Suffix("x")]
  {
    hide Entries, PatchOf;
    ReloadedCellHere();
    ReloadedAxesHere();
    PatchesHere(ToneThenAngle().axes);
    TwoCoordinates(ToneThenAngle().axes, ("angle", "low"), ("tone", "warm"));
  }

  lemma ReloadedAxesHere()
    ensures Reloaded(ToneThenAngle().axes) == ToneThenAngle().axes
  {
    hide Reloaded, ReloadedValues;
    SortedAxesStay(ToneThenAngle().axes);
  }

  lemma ReloadedCellHere()
    ensures ReloadedCell(WarmAndLow()) == [("angle", "low"), ("tone", "warm")]
  {
    var t: (string, string), a: (string, string) := ("tone", "warm"), ("angle", "low");
    assert !ByName()(t, a);
    assert [t, a][..1] == [t] && [t][..0] == [];
    assert Sort([t], ByName()) == [t];
    assert Insert(a, [t], ByName()) == [a, t];
  }
}
