/** The rollup of a batch: counts, overall status, and which items win a stage. */
module BatchStatuses {
  import opened Wrappers
  import opened JobStatuses
  import opened Sorting
  import opened Expansion

  /** An item as the rollup sees it; no status means pending. */
  datatype Entry = Entry(item: Item, stage: nat, status: Option<Status>, score: Option<real>)

  datatype Aggregate = Aggregate(
    total: nat, pending: nat, running: nat, succeeded: nat, failed: nat, cancelled: nat,
    best: Option<nat>)

  datatype BatchStatus = BatchQueued | BatchRunning | BatchSucceeded | BatchPartial | BatchFailed | BatchCancelled

  datatype Record = Record(
    entries: seq<Entry>, stage: nat, stages: nat, cancelling: bool, advanceFailed: bool)

  predicate Over(c: Entry) { c.status.Some? && c.status.value.Terminal() }

  predicate Won(c: Entry) { c.status == Some(Succeeded) }

  function CountOf(entries: seq<Entry>, f: Entry -> bool): nat {
    if entries == [] then 0 else (if f(entries[0]) then 1 else 0) + CountOf(entries[1..], f)
  }

  // ------------------------------------------------------------- aggregate

  /** `max` by (score, -index) over the scored items, first one on a tie. */
  function BestOf(entries: seq<Entry>): Option<Entry> {
    if entries == [] then None
    else
      var rest := BestOf(entries[..|entries| - 1]);
      var c := entries[|entries| - 1];
      if c.score.None? then rest
      else if rest.None? || Beats(c, rest.value) then Some(c) else rest
  }

  predicate Beats(a: Entry, b: Entry) {
    a.score.Some? && b.score.Some? && (a.score.value > b.score.value || (a.score == b.score && a.item.index < b.item.index))
  }

  function BuildAggregate(entries: seq<Entry>): Aggregate {
    var best := BestOf(entries);
    Aggregate(
      |entries|,
      CountOf(entries, (c: Entry) => c.status.None?),
      CountOf(entries, (c: Entry) => !Over(c) && c.status.Some?),
      CountOf(entries, (c: Entry) => Won(c)),
      CountOf(entries, (c: Entry) => c.status == Some(Failed)),
      CountOf(entries, (c: Entry) => c.status == Some(Cancelled)),
      if best.Some? then Some(best.value.item.index) else None)
  }

  /** The five counts partition the items. */
  lemma {:induction false} CountsPartition(entries: seq<Entry>)
    ensures var a := BuildAggregate(entries); a.total == a.pending + a.running + a.succeeded + a.failed + a.cancelled
  {
    if entries != [] {
      CountsPartition(entries[1..]);
    }
  }

  /** How many items have this property, as a set of places. */
  ghost function Places(entries: seq<Entry>, f: Entry -> bool): set<nat> {
    set i: nat | i < |entries| && f(entries[i])
  }

  lemma {:induction false} CountOfPlaces(entries: seq<Entry>, f: Entry -> bool)
    ensures CountOf(entries, f) == |Places(entries, f)|
  {
    if entries != [] {
      var n := |entries| - 1;
      CountOfPlaces(entries[..n], f);
      CountOfLast(entries, f);
      assert Places(entries, f) == Places(entries[..n], f) + if f(entries[n]) then {n} else {};
    }
  }

  lemma {:induction false} CountOfLast(entries: seq<Entry>, f: Entry -> bool)
    requires entries != []
    ensures var n := |entries| - 1; CountOf(entries, f) == CountOf(entries[..n], f) + if f(entries[n]) then 1 else 0
  {
    if |entries| > 1 {
      CountOfLast(entries[1..], f);
      assert entries[1..][..|entries| - 2] == entries[..|entries| - 1][1..];
    }
  }

  /** What each number of the aggregate counts. */
  lemma CountsAreExact(entries: seq<Entry>)
    ensures var a := BuildAggregate(entries);
      && a.total == |entries|
      && a.pending == |set i: nat | i < |entries| && entries[i].status == None|
      && a.running == |set i: nat | i < |entries| && entries[i].status.Some? && entries[i].status.value !in {Succeeded, Failed, Cancelled}|
      && a.succeeded == |set i: nat | i < |entries| && entries[i].status == Some(Succeeded)|
      && a.failed == |set i: nat | i < |entries| && entries[i].status == Some(Failed)|
      && a.cancelled == |set i: nat | i < |entries| && entries[i].status == Some(Cancelled)|
  {
    CountOfPlaces(entries, (c: Entry) => c.status.None?);
    CountOfPlaces(entries, (c: Entry) => !Over(c) && c.status.Some?);
    CountOfPlaces(entries, (c: Entry) => Won(c));
    CountOfPlaces(entries, (c: Entry) => c.status == Some(Failed));
    CountOfPlaces(entries, (c: Entry) => c.status == Some(Cancelled));
    assert Places(entries, (c: Entry) => c.status.None?) == set i: nat | i < |entries| && entries[i].status == None;
    assert Places(entries, (c: Entry) => !Over(c) && c.status.Some?)
        == set i: nat | i < |entries| && entries[i].status.Some? && entries[i].status.value !in {Succeeded, Failed, Cancelled};
    assert Places(entries, (c: Entry) => Won(c)) == set i: nat | i < |entries| && entries[i].status == Some(Succeeded);
    assert Places(entries, (c: Entry) => c.status == Some(Failed)) == set i: nat | i < |entries| && entries[i].status == Some(Failed);
    assert Places(entries, (c: Entry) => c.status == Some(Cancelled)) == set i: nat | i < |entries| && entries[i].status == Some(Cancelled);
  }

  /** The best item is scored, no score is higher, and of equal scores its index is
      the lowest; there is none exactly when nothing is scored. */
  lemma {:induction false} BestIsUnbeaten(entries: seq<Entry>)
    ensures BestOf(entries).None? <==> forall c :: c in entries ==> c.score.None?
    ensures BuildAggregate(entries).best.Some? <==> BestOf(entries).Some?
    ensures BestOf(entries).Some? ==>
      var b := BestOf(entries).value;
      && b in entries && b.score.Some? && BuildAggregate(entries).best == Some(b.item.index)
      && forall c :: c in entries && c.score.Some? ==>
           b.score.value > c.score.value || (b.score == c.score && b.item.index <= c.item.index)
  {
    if entries != [] {
      BestIsUnbeaten(entries[..|entries| - 1]);
      assert entries == entries[..|entries| - 1] + [entries[|entries| - 1]];
    }
  }

  // ---------------------------------------------------------------- status

  function DeriveStatus(r: Record): BatchStatus {
    var a := BuildAggregate(r.entries);
    var further := r.stage + 1 < r.stages;
    if r.advanceFailed then BatchFailed
    else if r.entries == [] then BatchQueued
    else if exists c :: c in r.entries && !Over(c) then
      if a.pending == a.total then BatchQueued else BatchRunning
    else if further && a.succeeded > 0 && !r.cancelling then BatchRunning
    else if a.succeeded == a.total then
      if further && r.cancelling then BatchCancelled else BatchSucceeded
    else if a.succeeded > 0 then BatchPartial
    else if a.cancelled > 0 then BatchCancelled
    else BatchFailed
  }

  lemma {:induction false} CountOfAll(entries: seq<Entry>, f: Entry -> bool)
    ensures CountOf(entries, f) <= |entries|
    ensures CountOf(entries, f) == |entries| <==> forall c :: c in entries ==> f(c)
    ensures CountOf(entries, f) == 0 <==> forall c :: c in entries ==> !f(c)
  {
    if entries != [] {
      CountOfAll(entries[1..], f);
      assert forall c :: c in entries <==> c == entries[0] || c in entries[1..];
    }
  }

  ghost predicate AllWon(entries: seq<Entry>) { forall c :: c in entries ==> Won(c) }

  ghost predicate AllOver(entries: seq<Entry>) { forall c :: c in entries ==> Over(c) }

  /** A batch is reported succeeded exactly when all it was asked for was done. */
  lemma SucceededMeansDone(r: Record)
    ensures DeriveStatus(r) == BatchSucceeded <==>
      !r.advanceFailed && r.entries != [] && AllWon(r.entries) && r.stage + 1 >= r.stages
  {
    CountOfAll(r.entries, (c: Entry) => Won(c));
    assert AllWon(r.entries) ==> !exists c :: c in r.entries && !Over(c);
  }

  /** Queued and running mean that something is still to come: nothing is over yet
      or not everything is, or a further stage will be started. */
  lemma UnfinishedMeansMoreToCome(r: Record)
    ensures DeriveStatus(r) in {BatchQueued, BatchRunning} <==>
      && !r.advanceFailed
      && (r.entries == [] || !AllOver(r.entries)
          || (r.stage + 1 < r.stages && !r.cancelling && exists c :: c in r.entries && Won(c)))
  {
    CountOfAll(r.entries, (c: Entry) => Won(c));
  }

  /** Queued means nothing has started; otherwise something unfinished is running. */
  lemma QueuedMeansUntouched(r: Record)
    ensures DeriveStatus(r) == BatchQueued <==>
      !r.advanceFailed && forall c :: c in r.entries ==> c.status.None?
  {
    CountOfAll(r.entries, (c: Entry) => c.status.None?);
  }

  /** How a batch that did not succeed ends. */
  lemma EndsExactly(r: Record)
    ensures DeriveStatus(r) == BatchPartial <==>
      && !r.advanceFailed && AllOver(r.entries) && !AllWon(r.entries) && (exists c :: c in r.entries && Won(c))
      && (r.stage + 1 >= r.stages || r.cancelling)
    ensures DeriveStatus(r) == BatchCancelled <==>
      && !r.advanceFailed && AllOver(r.entries) && r.entries != []
      && (if AllWon(r.entries) then r.stage + 1 < r.stages && r.cancelling
          else (forall c :: c in r.entries ==> !Won(c)) && exists c :: c in r.entries && c.status == Some(Cancelled))
    ensures DeriveStatus(r) == BatchFailed <==>
      r.advanceFailed || (r.entries != [] && forall c :: c in r.entries ==> c.status == Some(Failed))
  {
    CountOfAll(r.entries, (c: Entry) => Won(c));
    CountOfAll(r.entries, (c: Entry) => c.status == Some(Cancelled));
    if r.entries != [] { assert r.entries[0] in r.entries; }
  }

  /** A cancelled batch whose items are all over reads as finished, except for a
      batch with no items, which reads as queued. */
  lemma CancelledBatchEnds(r: Record)
    requires r.cancelling && AllOver(r.entries)
    ensures DeriveStatus(r) !in {BatchQueued, BatchRunning} <==> r.entries != [] || r.advanceFailed
  {
    UnfinishedMeansMoreToCome(r);
  }

  // --------------------------------------------------------------- winners

  function ScoreOr(c: Entry): real { if c.score.Some? then c.score.value else -1.0 }

  /** Ranking order: higher score first, unscored as -1, then lower index. */
  predicate RanksBefore(a: Entry, b: Entry) {
    ScoreOr(a) > ScoreOr(b) || (ScoreOr(a) == ScoreOr(b) && a.item.index <= b.item.index)
  }

  function Ranking(): (Entry, Entry) -> bool { (a: Entry, b: Entry) => RanksBefore(a, b) }

  function Succeeding(entries: seq<Entry>): seq<Entry> {
    if entries == [] then []
    else (if Won(entries[0]) then [entries[0]] else []) + Succeeding(entries[1..])
  }

  function RankWinners(entries: seq<Entry>, keep: Option<nat>): seq<Entry> {
    var ranked := Sort(Succeeding(entries), Ranking());
    if keep.None? then ranked else ranked[..Min(keep.value, |ranked|)]
  }

  lemma {:induction false} SucceedingMembers(entries: seq<Entry>)
    ensures forall c :: c in Succeeding(entries) <==> c in entries && Won(c)
    ensures |Succeeding(entries)| == CountOf(entries, (c: Entry) => Won(c))
  {
    if entries != [] {
      SucceedingMembers(entries[1..]);
      assert forall c :: c in entries <==> c == entries[0] || c in entries[1..];
    }
  }

  lemma RankingIsOrder()
    ensures TotalPreorder(Ranking())
  {
  }

  /** `c` does at least as well as `x`: the higher score first, -1 for none, and of
      equal scores the lower index. */
  ghost predicate NoWorse(c: Entry, x: Entry) {
    && (c.score.Some? && x.score.Some? ==> c.score.value >= x.score.value)
    && (c.score.None? && x.score.Some? ==> x.score.value <= -1.0)
    && (c.score.Some? && x.score.None? ==> c.score.value >= -1.0)
    && (c.score == x.score ==> c.item.index <= x.item.index)
    && (c.score.None? && x.score == Some(-1.0) ==> c.item.index <= x.item.index)
    && (c.score == Some(-1.0) && x.score.None? ==> c.item.index <= x.item.index)
  }

  /** The winners: min(keep, succeeded) of them, all succeeded, from best to worst, and
      no succeeded item left out does better than any of them. */
  lemma WinnersAreBest(entries: seq<Entry>, keep: Option<nat>)
    ensures var w := RankWinners(entries, keep);
      && |w| == (if keep.None? then BuildAggregate(entries).succeeded else Min(keep.value, BuildAggregate(entries).succeeded))
      && multiset(w) <= multiset(entries)
      && (forall c :: c in w ==> c in entries && c.status == Some(Succeeded))
      && (forall i, j :: 0 <= i < j < |w| ==> NoWorse(w[i], w[j]))
      && (forall c, x :: c in w && x in entries && x.status == Some(Succeeded) && x !in w ==> NoWorse(c, x))
  {
    hide TotalPreorder, SortedBy, Sort, Succeeding, NoWorse, Ranking;
    var ranked, w := Sort(Succeeding(entries), Ranking()), RankWinners(entries, keep);
    SucceedingMembers(entries);
    SucceedingMultiset(entries);
    RankingIsOrder();
    SortSorted(Succeeding(entries), Ranking());
    SortMembers(Succeeding(entries), Ranking());
    assert w == ranked[..|w|];
    FrontIsFirst(ranked, |w|, Ranking());
    assert multiset(w) <= multiset(Succeeding(entries)) <= multiset(entries);
    SortedNoWorse(w);
    forall c, x | c in w && x in entries && x.status == Some(Succeeded) && x !in w ensures NoWorse(c, x) {
      assert Won(x) && x in ranked;
      RanksNoWorse(c, x);
    }
  }

  lemma SortedNoWorse(w: seq<Entry>)
    requires SortedBy(w, Ranking())
    ensures forall i, j :: 0 <= i < j < |w| ==> NoWorse(w[i], w[j])
  {
    hide NoWorse;
    forall i, j | 0 <= i < j < |w| ensures NoWorse(w[i], w[j]) {
      assert Ranking()(w[i], w[j]);
      RanksNoWorse(w[i], w[j]);
    }
  }

  lemma RanksNoWorse(c: Entry, x: Entry)
    requires Ranking()(c, x)
    ensures NoWorse(c, x)
  {
  }

  /** Who wins does not depend on the order in which the items are listed. */
  lemma WinnersIgnoreOrder(a: seq<Entry>, b: seq<Entry>, keep: Option<nat>)
    requires multiset(a) == multiset(b)
    requires forall c, d :: c in a && d in a && c.item.index == d.item.index ==> c == d
    ensures RankWinners(a, keep) == RankWinners(b, keep)
  {
    hide TotalPreorder, Sort, Succeeding, SortedBy, NoTies;
    RankingIsOrder();
    SucceedingMultiset(a);
    SucceedingMultiset(b);
    assert multiset(Succeeding(a)) == multiset(Succeeding(b));
    NoTiedWinners(a);
    SortIsUnique(Succeeding(a), Succeeding(b), Ranking());
  }

  lemma NoTiedWinners(a: seq<Entry>)
    requires forall c, d :: c in a && d in a && c.item.index == d.item.index ==> c == d
    ensures NoTies(Succeeding(a), Ranking())
  {
    SucceedingMembers(a);
  }

  lemma {:induction false} SucceedingMultiset(entries: seq<Entry>)
    ensures forall c :: multiset(Succeeding(entries))[c] == if Won(c) then multiset(entries)[c] else 0
  {
    if entries != [] {
      SucceedingMultiset(entries[1..]);
      assert entries == [entries[0]] + entries[1..];
    }
  }
}
