/** The in-memory queue of pending job ids: one FIFO per lane and a map from each
    pending id to its lane. */
module JobQueues {
  import opened Wrappers

  const DEFAULT_LANE := "default"

  predicate Distinct(s: seq<string>) {
    forall i, j :: 0 <= i < j < |s| ==> s[i] != s[j]
  }

  function Total(queues: Lanes, lanes: seq<string>): nat {
    if lanes == [] then 0
    else (if lanes[0] in queues then |queues[lanes[0]]| else 0) + Total(queues, lanes[1..])
  }

  /** The map and the deques agree about one lane: it holds exactly the ids mapped
      to it, once each. */
  ghost predicate LaneAgrees(queue: seq<string>, jobLane: map<string, string>, l: string) {
    Distinct(queue) && forall id :: id in queue <==> id in jobLane && jobLane[id] == l
  }

  ghost predicate Agree(queues: Lanes, jobLane: map<string, string>) {
    && (forall l :: l in queues ==> LaneAgrees(queues[l], jobLane, l))
    && (forall id :: id in jobLane ==> jobLane[id] in queues)
  }

  ghost predicate InOrder(accepted: Lanes, delivered: Lanes,
                          queues: Lanes, l: string) {
    && l in accepted && l in delivered && l in queues
    && accepted[l] == delivered[l] + queues[l]
  }

  type Lanes = map<string, seq<string>>

  /** All lanes exist, map and deques agree, and every lane is first in, first out:
      what it accepted is what it delivered followed by what is pending. */
  ghost predicate Consistent(names: seq<string>, queues: Lanes, jobLane: map<string, string>, accepted: Lanes, delivered: Lanes) {
    && names != [] && Distinct(names) && (forall l :: l in queues <==> l in names)
    && Agree(queues, jobLane)
    && (forall l :: l in queues ==> InOrder(accepted, delivered, queues, l))
  }

  lemma ConsistentLanes(names: seq<string>, queues: Lanes, jobLane: map<string, string>, accepted: Lanes, delivered: Lanes, l: string)
    requires Consistent(names, queues, jobLane, accepted, delivered)
    ensures names != [] && (l in queues <==> l in names)
    ensures l in queues ==> InOrder(accepted, delivered, queues, l) && LaneAgrees(queues[l], jobLane, l)
  {
  }

  class JobQueue {
    const laneNames: seq<string>
    var queues: Lanes
    var jobLane: map<string, string>
    /** Everything a lane ever accepted, and everything it ever gave out. */
    ghost var accepted: Lanes
    ghost var delivered: Lanes

    ghost predicate Valid() reads this { Consistent(laneNames, queues, jobLane, accepted, delivered) }

    function Pending(): set<string> reads this { jobLane.Keys }

    constructor (lanes: seq<string>)
      requires Distinct(lanes)
      ensures Valid() && Pending() == {}
      ensures laneNames == if lanes == [] then [DEFAULT_LANE] else lanes
    {
      laneNames := if lanes == [] then [DEFAULT_LANE] else lanes;
      var names := if lanes == [] then [DEFAULT_LANE] else lanes;
      queues := map l | l in names :: [];
      accepted := map l | l in names :: [];
      delivered := map l | l in names :: [];
      jobLane := map[];
    }

    /** The lane a call addresses; `None` is the source's ValueError. */
    function ResolveLane(lane: Option<string>): (r: Option<string>)
      requires Valid()
      reads this
      ensures r.Some? ==> r.value in queues
      ensures r.None? <==> (lane.None? && |laneNames| > 1) || (lane.Some? && lane.value !in laneNames)
    {
      if lane.None? then
        if |laneNames| == 1 then Some(laneNames[0]) else None
      else if lane.value in queues then lane else None
    }

    /** Accepts a new id at the end of its lane; an id already pending there is left
        alone, and one pending elsewhere is refused, as is an unknown lane. */
    method Enqueue(id: string, lane: Option<string>) returns (refused: bool)
      requires Valid()
      modifies this`queues, this`jobLane, this`accepted
      ensures Valid()
      ensures var target := ResolveLane(lane);
        && (refused <==> target.None? || (id in old(jobLane) && old(jobLane)[id] != target.value))
        && (refused || id in old(jobLane) ==> queues == old(queues) && jobLane == old(jobLane) && accepted == old(accepted))
        && (!refused && id !in old(jobLane) ==> queues == old(queues)[target.value := old(queues)[target.value] + [id]])
        && (!refused ==> id in jobLane && jobLane == old(jobLane)[id := target.value])
      ensures Pending() == if refused then old(Pending()) else old(Pending()) + {id}
    {
      hide Consistent;
      var target := ResolveLane(lane);
      if target.None? { return true; }
      var t := target.value;
      if id in jobLane { return jobLane[id] != t; }
      AcceptConsistent(laneNames, queues, jobLane, accepted, delivered, t, id);
      ConsistentLanes(laneNames, queues, jobLane, accepted, delivered, t);
      jobLane := jobLane[id := t];
      queues := queues[t := queues[t] + [id]];
      accepted := accepted[t := accepted[t] + [id]];
      refused := false;
    }

    /** Gives out the oldest id of the lane, if any. */
    method Dequeue(lane: Option<string>) returns (refused: bool, id: Option<string>)
      requires Valid()
      modifies this`queues, this`jobLane, this`delivered
      ensures Valid()
      ensures refused == ResolveLane(lane).None?
      ensures refused ==> id.None?
      ensures !refused ==> (id.None? <==> old(queues)[ResolveLane(lane).value] == [])
      ensures id.None? ==> queues == old(queues) && jobLane == old(jobLane) && delivered == old(delivered)
      ensures id.Some? ==>
        var t := ResolveLane(lane).value;
        && old(queues)[t] == [id.value] + queues[t]
        && queues == old(queues)[t := queues[t]]
        && delivered == old(delivered)[t := old(delivered)[t] + [id.value]]
      ensures Pending() == if id.Some? then old(Pending()) - {id.value} else old(Pending())
    {
      hide Consistent;
      var target := ResolveLane(lane);
      if target.None? { return true, None; }
      var t := target.value;
      if queues[t] == [] { return false, None; }
      var job := queues[t][0];
      DeliverConsistent(laneNames, queues, jobLane, accepted, delivered, t);
      ConsistentLanes(laneNames, queues, jobLane, accepted, delivered, t);
      queues := queues[t := queues[t][1..]];
      delivered := delivered[t := delivered[t] + [job]];
      jobLane := jobLane - {job};
      refused, id := false, Some(job);
    }

    /** Pending count of a lane, or of all lanes when none is named. */
    method Size(lane: Option<string>) returns (refused: bool, n: nat)
      requires Valid()
      ensures refused == (lane.Some? && lane.value !in laneNames)
      ensures !refused && lane.Some? ==> n == |queues[lane.value]|
      ensures !refused && lane.None? ==> n == Total(queues, laneNames) && n == |Pending()|
    {
      if lane.None? && |laneNames| > 1 {
        n := 0;
        var i := 0;
        while i < |laneNames|
          invariant 0 <= i <= |laneNames|
          invariant Total(queues, laneNames) == n + Total(queues, laneNames[i..])
        {
          n := n + |queues[laneNames[i]]|;
          assert laneNames[i..][1..] == laneNames[i + 1..];
          i := i + 1;
        }
        TotalIsPending();
        return false, n;
      }
      var target := ResolveLane(lane);
      if target.None? { return true, 0; }
      if lane.None? {
        assert laneNames[1..] == [];
        TotalIsPending();
      }
      refused, n := false, |queues[target.value]|;
    }

    /** The lane sizes add up to the number of distinct pending ids. */
    lemma TotalIsPending()
      requires Valid()
      ensures Total(queues, laneNames) == |Pending()|
    {
      CountLanes(queues, jobLane, laneNames);
      assert MappedTo(jobLane, laneNames) == jobLane.Keys;
    }
  }

  lemma AcceptConsistent(names: seq<string>, queues: Lanes, jobLane: map<string, string>, accepted: Lanes, delivered: Lanes, t: string, id: string)
    requires Consistent(names, queues, jobLane, accepted, delivered) && t in queues && id !in jobLane
    ensures t in accepted
    ensures Consistent(names, queues[t := queues[t] + [id]], jobLane[id := t], accepted[t := accepted[t] + [id]], delivered)
  {
    hide Agree, Distinct;
    var q, a := queues[t := queues[t] + [id]], accepted[t := accepted[t] + [id]];
    AppendAgrees(queues, jobLane, t, id);
    forall l | l in q ensures InOrder(a, delivered, q, l) {
      assert InOrder(accepted, delivered, queues, l);
    }
  }

  lemma DeliverConsistent(names: seq<string>, queues: Lanes, jobLane: map<string, string>, accepted: Lanes, delivered: Lanes, t: string)
    requires Consistent(names, queues, jobLane, accepted, delivered) && t in queues && queues[t] != []
    ensures t in delivered
    ensures queues[t][0] in jobLane
    ensures Consistent(names, queues[t := queues[t][1..]], jobLane - {queues[t][0]}, accepted, delivered[t := delivered[t] + [queues[t][0]]])
  {
    hide Agree, Distinct;
    var q, d := queues[t := queues[t][1..]], delivered[t := delivered[t] + [queues[t][0]]];
    PopAgrees(queues, jobLane, t);
    forall l | l in q ensures InOrder(accepted, d, q, l) {
      assert InOrder(accepted, delivered, queues, l);
      assert queues[t] == [queues[t][0]] + queues[t][1..];
    }
  }

  lemma AppendAgrees(queues: Lanes, jobLane: map<string, string>, t: string, id: string)
    requires Agree(queues, jobLane) && t in queues && id !in jobLane
    ensures Agree(queues[t := queues[t] + [id]], jobLane[id := t])
  {
    var q, m := queues[t := queues[t] + [id]], jobLane[id := t];
    forall l | l in q ensures LaneAgrees(q[l], m, l) {
      assert LaneAgrees(queues[l], jobLane, l);
    }
  }

  lemma PopAgrees(queues: Lanes, jobLane: map<string, string>, t: string)
    requires Agree(queues, jobLane) && t in queues && queues[t] != []
    ensures queues[t][0] in jobLane
    ensures Agree(queues[t := queues[t][1..]], jobLane - {queues[t][0]})
  {
    var job := queues[t][0];
    var q, m := queues[t := queues[t][1..]], jobLane - {job};
    assert LaneAgrees(queues[t], jobLane, t);
    forall l | l in q ensures LaneAgrees(q[l], m, l) {
      assert LaneAgrees(queues[l], jobLane, l);
      if l == t { PopLane(queues[t], jobLane, t); }
    }
  }

  lemma PopLane(queue: seq<string>, jobLane: map<string, string>, t: string)
    requires queue != [] && LaneAgrees(queue, jobLane, t)
    ensures LaneAgrees(queue[1..], jobLane - {queue[0]}, t)
  {
    assert queue == [queue[0]] + queue[1..];
    assert queue[0] !in queue[1..];
  }

  /** Ids mapped to one of these lanes. */
  function MappedTo(jobLane: map<string, string>, lanes: seq<string>): set<string> {
    set id | id in jobLane && jobLane[id] in lanes
  }

  lemma {:induction false} CountLanes(queues: Lanes, jobLane: map<string, string>, lanes: seq<string>)
    requires Distinct(lanes)
    requires forall l :: l in lanes ==> l in queues && LaneAgrees(queues[l], jobLane, l)
    ensures Total(queues, lanes) == |MappedTo(jobLane, lanes)|
  {
    hide LaneAgrees;
    if lanes != [] {
      var l, rest := lanes[0], lanes[1..];
      assert Distinct(rest) && l !in rest;
      CountLanes(queues, jobLane, rest);
      OneLane(queues[l], jobLane, l);
      assert MappedTo(jobLane, [l]) !! MappedTo(jobLane, rest);
      assert lanes == [l] + rest;
      assert MappedTo(jobLane, lanes) == MappedTo(jobLane, [l]) + MappedTo(jobLane, rest);
    }
  }

  lemma OneLane(queue: seq<string>, jobLane: map<string, string>, l: string)
    requires LaneAgrees(queue, jobLane, l)
    ensures |queue| == |MappedTo(jobLane, [l])|
  {
    DistinctCount(queue);
    assert (set id | id in queue) == MappedTo(jobLane, [l]);
  }

  lemma {:induction false} DistinctCount(s: seq<string>)
    requires Distinct(s)
    ensures |set x | x in s| == |s|
  {
    if s != [] {
      assert Distinct(s[1..]);
      DistinctCount(s[1..]);
      assert (set x | x in s) == {s[0]} + (set x | x in s[1..]);
    }
  }
}
