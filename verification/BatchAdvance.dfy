/** Advancing a batch by one stage: ranking, expansion and the record put together. */
module BatchAdvance {
  import opened Wrappers
  import opened Sorting
  import opened Expansion
  import opened Refinement
  import opened JobStatuses
  import opened BatchStatuses

  /** The specification, and keep_top_n of every stage. */
  datatype Plan = Plan(spec: Spec, keep: seq<Option<nat>>)

  function InStage(entries: seq<Entry>, stage: nat): (r: seq<Entry>)
    ensures forall e :: e in r <==> e in entries && e.stage == stage
  {
    if entries == [] then []
    else InStage(entries[..|entries| - 1], stage) + (if entries[|entries| - 1].stage == stage then [entries[|entries| - 1]] else [])
  }

  function ItemsOf(entries: seq<Entry>): (r: seq<Item>)
    ensures |r| == |entries| && forall i :: 0 <= i < |r| ==> r[i] == entries[i].item
  {
    if entries == [] then [] else [entries[0].item] + ItemsOf(entries[1..])
  }

  function Pending(items: seq<Item>, stage: nat): (r: seq<Entry>)
    ensures |r| == |items| && forall i :: 0 <= i < |r| ==> r[i] == Entry(items[i], stage, None, None)
  {
    if items == [] then [] else [Entry(items[0], stage, None, None)] + Pending(items[1..], stage)
  }

  function Winners(plan: Plan, r: Record): seq<Entry>
    requires r.stage < |plan.keep|
  {
    RankWinners(InStage(r.entries, r.stage), plan.keep[r.stage])
  }

  /** `_try_advance_in_place`; `accepted`: the new items pass the reference preflight. */
  function Advance(plan: Plan, r: Record, accepted: bool): Record {
    if r.stage + 1 >= |plan.keep| || r.cancelling then r
    else if exists e :: e in InStage(r.entries, r.stage) && !Over(e) then r
    else if Winners(plan, r) == [] then r
    else if !accepted then r.(advanceFailed := true)
    else r.(entries := r.entries + Pending(RefineStage(plan.spec, ItemsOf(Winners(plan, r))), r.stage + 1),
            stage := r.stage + 1, advanceFailed := false)
  }

  /** Everything the stage asked for is over, something of it succeeded, a further
      stage is planned and nobody cancelled. */
  ghost predicate Ready(plan: Plan, r: Record) {
    && r.stage + 1 < |plan.keep| && !r.cancelling
    && (forall e :: e in r.entries && e.stage == r.stage ==> e.status.Some? && e.status.value in {Succeeded, Failed, Cancelled})
    && (exists e :: e in r.entries && e.stage == r.stage && e.status == Some(Succeeded)) && plan.keep[r.stage] != Some(0)
  }

  lemma ReadyByStage(plan: Plan, r: Record)
    ensures Ready(plan, r) <==>
      && r.stage + 1 < |plan.keep| && !r.cancelling
      && (forall e :: e in InStage(r.entries, r.stage) ==> Over(e))
      && (exists e :: e in InStage(r.entries, r.stage) && Won(e)) && plan.keep[r.stage] != Some(0)
  {
    var current := InStage(r.entries, r.stage);
    assert forall e :: e in r.entries && e.stage == r.stage <==> e in current;
    assert forall e: Entry :: Over(e) <==> e.status.Some? && e.status.value in {Succeeded, Failed, Cancelled};
    if e :| e in r.entries && e.stage == r.stage && e.status == Some(Succeeded) { assert e in current && Won(e); }
  }

  lemma WinnersExist(plan: Plan, r: Record)
    requires r.stage < |plan.keep|
    ensures Winners(plan, r) != [] <==> (exists e :: e in InStage(r.entries, r.stage) && Won(e)) && plan.keep[r.stage] != Some(0)
  {
    var current := InStage(r.entries, r.stage);
    WinnersAreBest(current, plan.keep[r.stage]);
    CountOfAll(current, (e: Entry) => Won(e));
  }

  /** A stage is added if and only if the batch is ready and the preflight accepts it;
      never while it is being cancelled. */
  lemma AdvancesExactly(plan: Plan, r: Record, accepted: bool)
    ensures Advance(plan, r, accepted).stage > r.stage <==> Ready(plan, r) && accepted
    ensures Advance(plan, r, accepted).stage >= r.stage
    ensures Advance(plan, r, accepted).stage == r.stage ==> Advance(plan, r, accepted).entries == r.entries
    ensures r.entries <= Advance(plan, r, accepted).entries
  {
    hide RefineStage, Pending, Winners, ItemsOf;
    ReadyByStage(plan, r);
    if r.stage < |plan.keep| { WinnersExist(plan, r); }
  }

  /** A ready batch that the preflight refuses is marked as failed and nothing else;
      one that it accepts loses such a mark; any other stays as it is. */
  lemma AdvanceMarks(plan: Plan, r: Record, accepted: bool)
    ensures var r' := Advance(plan, r, accepted);
      && (!Ready(plan, r) ==> r' == r)
      && (Ready(plan, r) ==> r'.advanceFailed == !accepted && r'.cancelling == r.cancelling && r'.stages == r.stages)
      && (Ready(plan, r) && !accepted ==> r'.stage == r.stage && r'.entries == r.entries)
  {
    hide RefineStage, Pending, Winners, ItemsOf;
    ReadyByStage(plan, r);
    if r.stage < |plan.keep| { WinnersExist(plan, r); }
  }

  function Added(r: Record, r': Record): seq<Entry>
    requires |r.entries| <= |r'.entries|
  {
    r'.entries[|r.entries|..]
  }

  /** Whatever the batch: an advance appends exactly min(keep_top_n, succeeded) pending
      items, one per winner and for its cell; the winners are the best of what
      succeeded; and every item it appends can be refined into its own request. */
  lemma AdvanceAddsItsWinners(plan: Plan, r: Record)
    requires Ready(plan, r)
    ensures var r' := Advance(plan, r, true);
      var current := InStage(r.entries, r.stage);
      var succeeded := BuildAggregate(current).succeeded;
      var won := Winners(plan, r);
      && r.entries <= r'.entries && r'.stage == r.stage + 1
      && |Added(r, r')| == (if plan.keep[r.stage].None? then succeeded else Min(plan.keep[r.stage].value, succeeded))
      && multiset(Map(ItemsOf(Added(r, r')), CellIn())) == multiset(Map(ItemsOf(won), CellReloaded()))
      && InModelOrder(ItemsOf(Added(r, r')), Map(ItemsOf(won), CellReloaded()))
      && (forall w :: w in won ==> w in current && w.status == Some(Succeeded))
      && (forall i, j :: 0 <= i < j < |won| ==> NoWorse(won[i], won[j]))
      && (forall w, x :: w in won && x in current && x.status == Some(Succeeded) && x !in won ==> NoWorse(w, x))
      && (forall e :: e in Added(r, r') ==> e.stage == r.stage + 1 && e.status.None? && Reproducible(plan.spec, e.item))
  {
    hide Advance, Ready, RefineStage, Reproducible, CellIn, CellReloaded, Map, BuildAggregate, InStage, Winners, NoWorse, InModelOrder;
    WinnersOfStage(plan, r);
    var items := RefineStage(plan.spec, ItemsOf(Winners(plan, r)));
    RefinedStageShape(plan.spec, ItemsOf(Winners(plan, r)));
    AdvanceAppends(plan, r);
    PendingReproducible(plan.spec, items, r.stage + 1);
  }

  /** Where its winners are reproducible, an advance appends their very requests. */
  lemma AdvanceKeepsRequests(plan: Plan, r: Record)
    requires Ready(plan, r) && forall w :: w in Winners(plan, r) ==> Reproducible(plan.spec, w.item)
    ensures var r' := Advance(plan, r, true);
      && r.entries <= r'.entries
      && multiset(Map(ItemsOf(Added(r, r')), CellAndRequest())) == multiset(Map(ItemsOf(Winners(plan, r)), CellAndRequestOfWinner()))
      && multiset(Map(ItemsOf(Added(r, r')), RequestIn())) == multiset(Map(ItemsOf(Winners(plan, r)), RequestIn()))
  {
    hide Advance, Ready, RefineStage, Reproducible, CellAndRequest, CellAndRequestOfWinner, RequestIn, Map, InStage, Winners;
    WinnersOfStage(plan, r);
    var won := Winners(plan, r);
    forall w | w in ItemsOf(won) ensures Reproducible(plan.spec, w) {
      var i :| 0 <= i < |won| && ItemsOf(won)[i] == w;
      assert won[i] in won;
    }
    RefinedStageIsFaithful(plan.spec, ItemsOf(won));
    AdvanceAppends(plan, r);
  }

  lemma WinnersOfStage(plan: Plan, r: Record)
    requires Ready(plan, r)
    ensures r.stage < |plan.keep|
    ensures var current, won := InStage(r.entries, r.stage), Winners(plan, r);
      var succeeded := BuildAggregate(current).succeeded;
      && |won| == (if plan.keep[r.stage].None? then succeeded else Min(plan.keep[r.stage].value, succeeded))
      && (forall w :: w in won ==> w in current && w in r.entries)
      && (forall w :: w in won ==> w.status == Some(Succeeded))
      && (forall i, j :: 0 <= i < j < |won| ==> NoWorse(won[i], won[j]))
      && (forall w, x :: w in won && x in current && x.status == Some(Succeeded) && x !in won ==> NoWorse(w, x))
  {
    hide RankWinners, BuildAggregate, NoWorse;
    WinnersAreBest(InStage(r.entries, r.stage), plan.keep[r.stage]);
  }

  /** When the batch is ready, the record grows by the pending refined items. */
  lemma AdvanceAppends(plan: Plan, r: Record)
    requires Ready(plan, r)
    ensures r.stage < |plan.keep|
    ensures var items, r' := RefineStage(plan.spec, ItemsOf(Winners(plan, r))), Advance(plan, r, true);
      && r'.stage == r.stage + 1 && r'.entries == r.entries + Pending(items, r.stage + 1) && r.entries <= r'.entries
      && Added(r, r') == Pending(items, r.stage + 1) && ItemsOf(Added(r, r')) == items
  {
    hide RefineStage, Winners, InStage, Ready;
    ReadyByStage(plan, r);
    WinnersExist(plan, r);
    var items := RefineStage(plan.spec, ItemsOf(Winners(plan, r)));
    var r' := Advance(plan, r, true);
    assert r'.entries == r.entries + Pending(items, r.stage + 1);
    assert Added(r, r') == Pending(items, r.stage + 1);
  }

  lemma PendingReproducible(spec: Spec, items: seq<Item>, stage: nat)
    requires forall x :: x in items ==> Reproducible(spec, x)
    ensures forall e :: e in Pending(items, stage) ==> e.stage == stage && e.status.None? && Reproducible(spec, e.item)
  {
    hide Reproducible;
    forall e | e in Pending(items, stage) ensures Reproducible(spec, e.item) {
      var i :| 0 <= i < |items| && Pending(items, stage)[i] == e;
      assert items[i] in items;
    }
  }

  // ------------------------------------------------------ any number of stages

  /** A run of a batch as far as its stages go: between two attempts to advance the
      world changes statuses and scores, and may cancel; items stay. */
  ghost predicate Worked(r: Record, r': Record) {
    && r'.stage == r.stage && |r'.entries| == |r.entries| && (r.cancelling ==> r'.cancelling)
    && forall i :: 0 <= i < |r.entries| ==> r'.entries[i].item == r.entries[i].item && r'.entries[i].stage == r.entries[i].stage
  }

  /** Each round: the record as work left it, and whether the preflight accepts. */
  ghost predicate StageRun(plan: Plan, r: Record, trace: seq<(Record, bool)>, r': Record)
    decreases |trace|
  {
    if trace == [] then r' == r
    else Worked(r, trace[0].0) && StageRun(plan, Advance(plan, trace[0].0, trace[0].1), trace[1..], r')
  }

  /** The items of `r` are still there, in their places. */
  ghost predicate KeepsItems(r: Record, r': Record) {
    |r.entries| <= |r'.entries| && forall i :: 0 <= i < |r.entries| ==> r'.entries[i].item == r.entries[i].item
  }

  /** Items from this place on belong to later stages and are reproducible. */
  ghost predicate LaterFrom(spec: Spec, r: Record, n: nat) {
    forall i :: n <= i < |r.entries| ==> r.entries[i].stage > 0 && Reproducible(spec, r.entries[i].item)
  }

  lemma {:induction false} StagesGoOn(plan: Plan, r: Record, trace: seq<(Record, bool)>, r': Record, n: nat)
    requires LaterFrom(plan.spec, r, n) && StageRun(plan, r, trace, r')
    ensures LaterFrom(plan.spec, r', n) && KeepsItems(r, r')
    decreases |trace|
  {
    hide LaterFrom, Advance;
    if trace != [] {
      OneRound(plan, r, trace[0].0, trace[0].1, n);
      StagesGoOn(plan, Advance(plan, trace[0].0, trace[0].1), trace[1..], r', n);
    }
  }

  lemma OneRound(plan: Plan, r: Record, w: Record, accepted: bool, n: nat)
    requires LaterFrom(plan.spec, r, n) && Worked(r, w)
    ensures LaterFrom(plan.spec, Advance(plan, w, accepted), n) && KeepsItems(r, Advance(plan, w, accepted))
  {
    hide Reproducible, Advance, Ready;
    var a := Advance(plan, w, accepted);
    AdvancesExactly(plan, w, accepted);
    if Ready(plan, w) && accepted { AdvanceAddsItsWinners(plan, w); }
    forall i | n <= i < |a.entries| ensures a.entries[i].stage > 0 && Reproducible(plan.spec, a.entries[i].item) {
      if i < |w.entries| {
        assert a.entries[i] == w.entries[i];
      } else {
        assert a.entries[i] == Added(w, a)[i - |w.entries|];
      }
    }
    assert forall i :: 0 <= i < |w.entries| ==> a.entries[i] == w.entries[i];
  }

  /** A record as a first-stage expansion leaves it: every item built at its index. */
  ghost predicate FirstStage(plan: Plan, items: seq<Item>, r: Record) {
    && r.stage == 0 && r.entries == Pending(items, 0)
    && forall i :: 0 <= i < |items| ==> items[i] == Draft(plan.spec, items[i].cell, i)
  }

  /** Through any number of stages of any created batch: items stay in place, every item
      of a later stage refines into its own request again, and an item of the first
      stage does where the declared and the reloaded order agree for its cell. */
  lemma AnyNumberOfStages(plan: Plan, items: seq<Item>, r: Record, trace: seq<(Record, bool)>, r': Record)
    requires FirstStage(plan, items, r) && StageRun(plan, r, trace, r')
    ensures KeepsItems(r, r') && LaterFrom(plan.spec, r', |items|)
    ensures forall i :: 0 <= i < |items| && Agrees(plan.spec, items[i].cell) ==> Reproducible(plan.spec, r'.entries[i].item)
  {
    hide Reproducible, Advance, OrdersAgree;
    StagesGoOn(plan, r, trace, r', |items|);
    forall i | 0 <= i < |items| && Agrees(plan.spec, items[i].cell) ensures Reproducible(plan.spec, r'.entries[i].item) {
      FirstStageReproducible(plan.spec, items[i].cell, i);
    }
  }

  /** The condition on one cell of a specification. */
  ghost predicate Agrees(spec: Spec, cell: Cell) {
    OrdersAgree(DeclaredOrder(spec, cell), ReloadedOrder(spec, cell))
  }

  /** Reproducible, with one of these requests. */
  ghost predicate Faithful(spec: Spec, requests: set<Request>, entries: seq<Entry>) {
    forall e :: e in entries ==> Reproducible(spec, e.item) && e.item.request in requests
  }

  /** Where the orders agree for every cell, probe-then-refine delivers what it
      selected: through any number of stages every item, of whatever stage, has the
      very request of some item of the first. */
  lemma SelectedIsDelivered(plan: Plan, items: seq<Item>, r: Record, trace: seq<(Record, bool)>, r': Record)
    requires FirstStage(plan, items, r) && StageRun(plan, r, trace, r')
    requires forall i :: 0 <= i < |items| ==> Agrees(plan.spec, items[i].cell)
    ensures forall e :: e in r'.entries ==> exists x :: x in items && e.item.request == x.request
  {
    hide Reproducible, Advance, OrdersAgree, Draft, StageRun, DeclaredOrder, ReloadedOrder;
    var requests := set x | x in items :: x.request;
    forall e | e in r.entries ensures Reproducible(plan.spec, e.item) && e.item.request in requests {
      var i :| 0 <= i < |items| && Pending(items, 0)[i] == e;
      assert items[i] in items && Agrees(plan.spec, items[i].cell);
      FirstStageReproducible(plan.spec, items[i].cell, i);
    }
    RequestsGoOn(plan, r, trace, r', requests);
  }

  lemma {:induction false} RequestsGoOn(plan: Plan, r: Record, trace: seq<(Record, bool)>, r': Record, requests: set<Request>)
    requires Faithful(plan.spec, requests, r.entries) && StageRun(plan, r, trace, r')
    ensures Faithful(plan.spec, requests, r'.entries)
    decreases |trace|
  {
    hide Faithful, Advance;
    if trace != [] {
      FaithfulRound(plan, r, trace[0].0, trace[0].1, requests);
      RequestsGoOn(plan, Advance(plan, trace[0].0, trace[0].1), trace[1..], r', requests);
    }
  }

  lemma FaithfulRound(plan: Plan, r: Record, w: Record, accepted: bool, requests: set<Request>)
    requires Faithful(plan.spec, requests, r.entries) && Worked(r, w)
    ensures Faithful(plan.spec, requests, Advance(plan, w, accepted).entries)
  {
    hide Faithful, Advance, Ready;
    WorkKeepsFaithful(plan.spec, requests, r, w);
    AdvancesExactly(plan, w, accepted);
    if Ready(plan, w) && accepted { AdvanceKeepsFaithful(plan, w, requests); }
  }

  lemma AdvanceKeepsFaithful(plan: Plan, r: Record, requests: set<Request>)
    requires Ready(plan, r) && Faithful(plan.spec, requests, r.entries)
    ensures Faithful(plan.spec, requests, Advance(plan, r, true).entries)
  {
    hide Reproducible, Advance, Ready, Winners, RequestIn, ItemsOf, Map, RefineStage;
    AdvanceAppends(plan, r);
    var won, r' := Winners(plan, r), Advance(plan, r, true);
    WinnersAreEntries(plan, r);
    AdvanceKeepsRequests(plan, r);
    RequestsAmong(Added(r, r'), won, requests);
    RefinedStageReproducible(plan.spec, ItemsOf(won));
    PendingReproducible(plan.spec, RefineStage(plan.spec, ItemsOf(won)), r.stage + 1);
  }

  lemma WinnersAreEntries(plan: Plan, r: Record)
    requires Ready(plan, r) && r.stage < |plan.keep|
    ensures forall w :: w in Winners(plan, r) ==> w in r.entries
  {
    hide Winners, Ready, InStage, BuildAggregate;
    WinnersOfStage(plan, r);
  }

  lemma RefinedStageReproducible(spec: Spec, winners: seq<Item>)
    ensures forall x :: x in RefineStage(spec, winners) ==> Reproducible(spec, x)
  {
    hide RefineStage, Reproducible, ModelsTogether, CellIn, CellReloaded, Map;
    RefinedStageShape(spec, winners);
  }

  lemma WorkKeepsFaithful(spec: Spec, requests: set<Request>, r: Record, w: Record)
    requires Faithful(spec, requests, r.entries) && Worked(r, w)
    ensures Faithful(spec, requests, w.entries)
  {
    hide Reproducible;
    forall e | e in w.entries ensures Reproducible(spec, e.item) && e.item.request in requests {
      var i :| 0 <= i < |w.entries| && w.entries[i] == e;
      assert r.entries[i] in r.entries;
    }
  }

  lemma RequestsAmong(added: seq<Entry>, won: seq<Entry>, requests: set<Request>)
    requires multiset(Map(ItemsOf(added), RequestIn())) == multiset(Map(ItemsOf(won), RequestIn()))
    requires forall w :: w in won ==> w.item.request in requests
    ensures forall e :: e in added ==> e.item.request in requests
  {
    hide Map;
    var a, b := Map(ItemsOf(added), RequestIn()), Map(ItemsOf(won), RequestIn());
    SameElements(a, b);
    forall e | e in added ensures e.item.request in requests {
      var i :| 0 <= i < |added| && added[i] == e;
      assert a[i] in b;
      var k :| 0 <= k < |b| && b[k] == a[i];
      assert won[k] in won;
    }
  }

  // -------------------------------------------------------- an empty batch

  /** A specification whose overrides ask for a sample of zero items: the expansion
      accepts it, and the batch, cancelled, reads as queued. */
  lemma EmptyBatchReadsQueued()
    ensures exists spec: Spec ::
      && (forall a :: a in spec.axes ==> a.values != []) && SampleOk(spec, []) && Wanted(spec, []) == []
      && DeriveStatus(Record(Pending([], 0), 0, 1, true, false)) == BatchQueued
  {
    var axis := Axis("tone", [AxisValue("warm", [])]);
    var spec := Spec([axis], Request(Null, Null, Null, Null, Null, Null), Shared, {}, 10, Sample(Some(0)));
    NothingWanted(spec, []);
  }

  /** And only so: with values on every axis, any other accepted specification asks for
      at least one item. */
  lemma OnlyZeroSamplesAreEmpty(spec: Spec, chosen: seq<nat>)
    requires SampleOk(spec, chosen) && forall a :: a in spec.axes ==> a.values != []
    ensures Wanted(spec, chosen) == [] <==> spec.axes != [] && spec.strategy == Sample(Some(0))
  {
    NothingWanted(spec, chosen);
  }
}
