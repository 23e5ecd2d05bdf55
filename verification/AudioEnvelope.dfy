/** Ducking and envelope arithmetic, over exact reals. */
module AudioEnvelope {
  import opened Wrappers

  // ------------------------------------------------------------------ ducking

  /** Depth and ramp lengths, in amplitude and samples. */
  datatype Ramp = Ramp(floor: real, attack: nat, release: nat) {
    predicate Valid() { attack >= 1 && release >= 1 }
  }

  type Span = (int, int)

  function Start(s: Span): int { Max(0, s.0) }

  function End(s: Span, total: nat): int { Min(total, s.1) }

  /** Nothing of the span lies in the buffer. */
  predicate Outside(s: Span, total: nat) { Start(s) >= total || End(s, total) <= Start(s) }

  /** How far up the ramp the gain is, `distance` samples from the floor. */
  function Climb(r: Ramp, distance: int, length: nat): real
    requires length >= 1
  {
    r.floor + Part(1.0 - r.floor, distance as real, length as real)
  }

  /** The `d`-th of `l` equal parts of `h`. */
  function Part(h: real, d: real, l: real): real
    requires l > 0.0
  {
    h * d / l
  }

  /** The gain curve of one span alone. */
  function Curve(r: Ramp, s: Span, total: nat, p: int): real
    requires r.Valid()
  {
    if Outside(s, total) then 1.0
    else if p < Start(s) - r.attack then 1.0
    else if p < Start(s) then Climb(r, Start(s) - p, r.attack)
    else if p < End(s, total) then r.floor
    else if p < End(s, total) + r.release then Climb(r, p - End(s, total) + 1, r.release)
    else 1.0
  }

  /** What a span does to a sample, by the distance between them: the floor inside it,
      a straight ramp down to it ahead and up from it behind, nothing further off. */
  lemma CurveByDistance(r: Ramp, s: Span, total: nat, p: nat)
    requires r.Valid() && p < total
    ensures s.1 <= 0 || s.0 >= total || s.1 <= s.0 ==> Curve(r, s, total, p) == 1.0
    ensures s.0 <= p < s.1 ==> Curve(r, s, total, p) == r.floor
    ensures p < s.0 < s.1 && s.0 < total ==>
      Curve(r, s, total, p) ==
        if s.0 - p > r.attack then 1.0 else r.floor + (1.0 - r.floor) * ((s.0 - p) as real) / (r.attack as real)
    ensures s.0 < s.1 <= p && s.1 > 0 ==>
      Curve(r, s, total, p) ==
        if p - s.1 >= r.release then 1.0 else r.floor + (1.0 - r.floor) * ((p - s.1 + 1) as real) / (r.release as real)
  {
  }

  /** The lowest of full gain and all single-span curves. */
  function Lowest(r: Ramp, spans: seq<Span>, total: nat, p: int): real
    requires r.Valid()
  {
    if spans == [] then 1.0
    else MinReal(Lowest(r, spans[..|spans| - 1], total, p), Curve(r, spans[|spans| - 1], total, p))
  }

  /** `np.minimum` over a slice, with the ramp value of each sample. */
  method LowerSlice(gain: array<real>, from: int, to: int, value: int -> real)
    requires 0 <= from <= to <= gain.Length
    modifies gain
    ensures forall p :: 0 <= p < gain.Length ==> gain[p] == if from <= p < to then MinReal(old(gain[p]), value(p)) else old(gain[p])
  {
    var p := from;
    while p < to
      invariant from <= p <= to
      invariant forall q :: 0 <= q < gain.Length ==> gain[q] == if from <= q < p then MinReal(old(gain[q]), value(q)) else old(gain[q])
    {
      gain[p] := MinReal(gain[p], value(p));
      p := p + 1;
    }
  }

  /** One span: the tail of the attack ramp, the floor, the head of the release ramp. */
  method DuckSpan(gain: array<real>, r: Ramp, s: Span)
    requires r.Valid()
    requires forall p :: 0 <= p < gain.Length ==> gain[p] <= 1.0
    modifies gain
    ensures forall p :: 0 <= p < gain.Length ==> gain[p] == MinReal(old(gain[p]), Curve(r, s, gain.Length, p))
    ensures forall p :: 0 <= p < gain.Length ==> gain[p] <= 1.0
  {
    hide Climb;
    var total := gain.Length;
    var start, end := Start(s), End(s, total);
    if start >= total || end <= start { return; }
    var rampStart := Max(0, start - r.attack);
    LowerSlice(gain, rampStart, start, p => Climb(r, start - p, r.attack));
    LowerSlice(gain, start, end, p => r.floor);
    var releaseEnd := Min(total, end + r.release);
    LowerSlice(gain, end, releaseEnd, p => Climb(r, p - end + 1, r.release));
  }

  /** The whole ducking curve: sample by sample the lowest single-span curve. */
  method DuckEnvelope(spans: seq<Span>, length: int, r: Ramp) returns (gain: array<real>)
    requires r.Valid()
    ensures gain.Length == Max(0, length)
    ensures forall p :: 0 <= p < gain.Length ==> gain[p] == Lowest(r, spans, gain.Length, p)
  {
    gain := new real[Max(0, length)](_ => 1.0);
    var i := 0;
    while i < |spans|
      invariant 0 <= i <= |spans| && gain.Length == Max(0, length)
      invariant forall p :: 0 <= p < gain.Length ==> gain[p] == Lowest(r, spans[..i], gain.Length, p) && gain[p] <= 1.0
    {
      DuckSpan(gain, r, spans[i]);
      assert spans[..i + 1][..i] == spans[..i];
      i := i + 1;
    }
    assert spans[..|spans|] == spans;
  }

  /** `Lowest` is a greatest lower bound, so it does not depend on the order or the
      repetition of spans. */
  lemma {:induction false} LowestIsBound(r: Ramp, spans: seq<Span>, total: nat, p: int)
    requires r.Valid()
    ensures Lowest(r, spans, total, p) <= 1.0
    ensures forall s :: s in spans ==> Lowest(r, spans, total, p) <= Curve(r, s, total, p)
    ensures Lowest(r, spans, total, p) == 1.0 || exists s :: s in spans && Lowest(r, spans, total, p) == Curve(r, s, total, p)
  {
    hide Curve;
    if spans != [] {
      LowestIsBound(r, spans[..|spans| - 1], total, p);
      assert spans == spans[..|spans| - 1] + [spans[|spans| - 1]];
    }
  }

  lemma SpanOrderIsIrrelevant(r: Ramp, a: seq<Span>, b: seq<Span>, total: nat, p: int)
    requires r.Valid() && forall s :: s in a <==> s in b
    ensures Lowest(r, a, total, p) == Lowest(r, b, total, p)
  {
    hide Curve, Lowest;
    LowestIsBound(r, a, total, p);
    LowestIsBound(r, b, total, p);
  }

  /** For a reduction (floor at most full gain): each curve stays between the floor
      and full gain, and is at the floor throughout its clipped span. */
  lemma CurveRange(r: Ramp, s: Span, total: nat, p: int)
    requires r.Valid() && 0.0 < r.floor <= 1.0
    ensures r.floor <= Curve(r, s, total, p) <= 1.0
    ensures !Outside(s, total) && Start(s) <= p < End(s, total) ==> Curve(r, s, total, p) == r.floor
  {
    if !Outside(s, total) {
      if Start(s) - r.attack <= p < Start(s) { ClimbRange(r, Start(s) - p, r.attack); }
      if End(s, total) <= p < End(s, total) + r.release { ClimbRange(r, p - End(s, total) + 1, r.release); }
    }
  }

  lemma ClimbRange(r: Ramp, distance: int, length: nat)
    requires length >= 1 && 0 <= distance <= length && 0.0 < r.floor <= 1.0
    ensures r.floor <= Climb(r, distance, length) <= 1.0
  {
    var d, l, h := distance as real, length as real, 1.0 - r.floor;
    assert h * d <= h * l;
    QuotientAtMost(h * d, l, h);
  }

  lemma QuotientAtMost(x: real, l: real, h: real)
    requires l > 0.0 && 0.0 <= x <= h * l
    ensures 0.0 <= x / l <= h
  {
    assert x == (x / l) * l;
  }

  lemma DuckedRange(r: Ramp, spans: seq<Span>, total: nat, p: int)
    requires r.Valid() && 0.0 < r.floor <= 1.0
    ensures r.floor <= Lowest(r, spans, total, p) <= 1.0
    ensures forall s :: s in spans && s.0 <= p < s.1 && 0 <= p < total ==> Lowest(r, spans, total, p) == r.floor
  {
    hide Curve, Lowest;
    LowestIsBound(r, spans, total, p);
    forall s | s in spans ensures r.floor <= Curve(r, s, total, p) {
      CurveRange(r, s, total, p);
    }
    forall s | s in spans && s.0 <= p < s.1 && 0 <= p < total ensures Lowest(r, spans, total, p) == r.floor {
      CurveRange(r, s, total, p);
    }
  }

  /** The steepest ramp: no two neighbouring samples differ by more. */
  function Slope(r: Ramp): real
    requires r.Valid()
  {
    (1.0 - r.floor) / (Min(r.attack, r.release) as real)
  }

  lemma ClimbStep(r: Ramp, distance: int, length: nat)
    requires r.Valid() && length in {r.attack, r.release} && r.floor <= 1.0
    ensures 0.0 <= Climb(r, distance + 1, length) - Climb(r, distance, length) <= Slope(r)
  {
    hide Part;
    var l, h, m := length as real, 1.0 - r.floor, Min(r.attack, r.release) as real;
    OnePart(h, distance as real, l);
    LargerDivisor(h, m, l);
  }

  lemma OnePart(h: real, d: real, l: real)
    requires l > 0.0
    ensures Part(h, d + 1.0, l) == Part(h, d, l) + h / l
  {
    assert h * (d + 1.0) == h * d + h;
    SumOfQuotients(h * d, h, l);
  }

  lemma SumOfQuotients(x: real, y: real, l: real)
    requires l > 0.0
    ensures (x + y) / l == x / l + y / l
  {
  }

  lemma LargerDivisor(h: real, m: real, l: real)
    requires h >= 0.0 && 0.0 < m <= l
    ensures 0.0 <= h / l <= h / m
  {
    var q := h / m;
    assert h == q * m && q >= 0.0;
    assert q * m <= q * l;
    QuotientAtMost(h, l, q);
  }

  lemma ClimbEnds(r: Ramp, length: nat)
    requires length >= 1
    ensures Climb(r, 0, length) == r.floor && Climb(r, length, length) == 1.0
  {
    hide Part;
    AllParts(1.0 - r.floor, length as real);
  }

  lemma AllParts(h: real, l: real)
    requires l > 0.0
    ensures Part(h, l, l) == h && Part(h, 0.0, l) == 0.0
  {
    assert h * l / l == h;
  }

  lemma CurveSlope(r: Ramp, s: Span, total: nat, p: int)
    requires r.Valid() && 0.0 < r.floor <= 1.0
    ensures -Slope(r) <= Curve(r, s, total, p + 1) - Curve(r, s, total, p) <= Slope(r)
  {
    hide Climb, Slope;
    ClimbStep(r, 0, r.attack);
    if !Outside(s, total) {
      var start, end := Start(s), End(s, total);
      ClimbEnds(r, r.attack);
      ClimbEnds(r, r.release);
      if start - r.attack - 1 <= p < start { ClimbStep(r, start - p - 1, r.attack); }
      if end - 1 <= p < end + r.release { ClimbStep(r, p - end + 1, r.release); }
    }
  }

  /** The gain never jumps: adjacent samples differ by at most the ramp slope, which is
      one step of the shorter of the two ramps. */
  lemma DuckedSlope(r: Ramp, spans: seq<Span>, total: nat, p: int)
    requires r.Valid() && 0.0 < r.floor <= 1.0
    ensures -Slope(r) <= Lowest(r, spans, total, p + 1) - Lowest(r, spans, total, p) <= Slope(r)
  {
    hide Curve, Lowest, Slope;
    NoHigher(r, spans, total, p, p + 1);
    NoHigher(r, spans, total, p + 1, p);
  }

  lemma NoHigher(r: Ramp, spans: seq<Span>, total: nat, p: int, q: int)
    requires r.Valid() && 0.0 < r.floor <= 1.0 && (q == p + 1 || p == q + 1)
    ensures Lowest(r, spans, total, q) <= Lowest(r, spans, total, p) + Slope(r)
  {
    hide Curve, Lowest, Slope;
    LowestIsBound(r, spans, total, p);
    LowestIsBound(r, spans, total, q);
    CurveSlope(r, (0, 0), total, p);
    if Lowest(r, spans, total, p) != 1.0 {
      var s :| s in spans && Lowest(r, spans, total, p) == Curve(r, s, total, p);
      CurveSlope(r, s, total, if q == p + 1 then p else q);
    }
  }

  // ----------------------------------------------------------- moving average

  /** Sum of the samples in [from, to), zero outside the buffer. */
  function WindowSum(x: seq<real>, from: int, to: int): real
    decreases to - from
  {
    if from >= to then 0.0
    else WindowSum(x, from, to - 1) + (if 0 <= to - 1 < |x| then x[to - 1] else 0.0)
  }

  lemma {:induction false} WindowSplits(x: seq<real>, a: int, b: int, c: int)
    requires a <= b <= c
    ensures WindowSum(x, a, c) == WindowSum(x, a, b) + WindowSum(x, b, c)
    decreases c - b
  {
    if b < c {
      WindowSplits(x, a, b, c - 1);
    }
  }

  /** The linear-time moving average: differences of one running sum equal the naive
      average over the centred window, with silence beyond both ends. */
  method SmoothedEnvelope(magnitude: seq<real>, window: nat) returns (out: array<real>)
    requires window >= 1
    ensures out.Length == |magnitude|
    ensures forall i :: 0 <= i < out.Length ==> out[i] == WindowSum(magnitude, i - window / 2, i - window / 2 + window) / (window as real)
  {
    out := new real[|magnitude|](i requires 0 <= i < |magnitude| => magnitude[i]);
    if window == 1 || |magnitude| == 0 {
      forall i | 0 <= i < |magnitude| ensures out[i] == WindowSum(magnitude, i - window / 2, i - window / 2 + window) / (window as real) {
        assert WindowSum(magnitude, i, i) == 0.0 && WindowSum(magnitude, i, i + 1) == magnitude[i];
      }
      return;
    }
    var left := window / 2;
    var right := window - left - 1;
    var cumulative := new real[|magnitude| + left + right + 1](_ => 0.0);
    var k := 0;
    while k < |magnitude| + left + right
      invariant 0 <= k <= |magnitude| + left + right
      invariant forall m :: 0 <= m <= k ==> cumulative[m] == WindowSum(magnitude, -left, m - left)
    {
      var padded := if left <= k < left + |magnitude| then magnitude[k - left] else 0.0;
      cumulative[k + 1] := cumulative[k] + padded;
      k := k + 1;
    }
    var i := 0;
    while i < |magnitude|
      invariant 0 <= i <= |magnitude|
      invariant forall m :: 0 <= m <= |magnitude| + left + right ==> cumulative[m] == WindowSum(magnitude, -left, m - left)
      invariant forall m :: 0 <= m < i ==> out[m] == WindowSum(magnitude, m - left, m - left + window) / (window as real)
    {
      WindowSplits(magnitude, -left, i - left, i - left + window);
      out[i] := (cumulative[i + window] - cumulative[i]) / (window as real);
      i := i + 1;
    }
  }

  // -------------------------------------------------------------------- spans

  /** The mask, false beyond both ends. */
  predicate At(mask: seq<bool>, i: int) { 0 <= i < |mask| && mask[i] }

  /** Positions from `i` on where the padded mask changes. */
  function EdgesFrom(mask: seq<bool>, i: nat): seq<nat>
    decreases |mask| + 1 - i
  {
    if i > |mask| then []
    else if At(mask, i - 1) != At(mask, i) then [i] + EdgesFrom(mask, i + 1)
    else EdgesFrom(mask, i + 1)
  }

  function Pairs(edges: seq<nat>): seq<(nat, nat)> {
    if |edges| < 2 then [] else [(edges[0], edges[1])] + Pairs(edges[2..])
  }

  /** The spans of a mask: its edges, taken two by two. */
  function ContiguousSpans(mask: seq<bool>): seq<(nat, nat)> { Pairs(EdgesFrom(mask, 0)) }

  /** A maximal run of true. */
  ghost predicate IsRun(mask: seq<bool>, a: nat, b: nat) {
    a < b <= |mask| && (forall i :: a <= i < b ==> mask[i]) && !At(mask, a - 1) && !At(mask, b)
  }

  lemma EdgesUnfold(mask: seq<bool>, i: nat)
    ensures EdgesFrom(mask, i) ==
      if i > |mask| then []
      else if At(mask, i - 1) != At(mask, i) then [i] + EdgesFrom(mask, i + 1)
      else EdgesFrom(mask, i + 1)
  {
  }

  /** From inside a run, the next edge is its end. */
  lemma {:induction false} RunEnds(mask: seq<bool>, i: nat) returns (e: nat)
    requires i <= |mask| && At(mask, i - 1)
    ensures i <= e <= |mask| && !At(mask, e) && (forall k :: i <= k < e ==> At(mask, k))
    ensures EdgesFrom(mask, i) == [e] + EdgesFrom(mask, e + 1)
    decreases |mask| - i
  {
    hide EdgesFrom;
    EdgesUnfold(mask, i);
    if At(mask, i) {
      e := RunEnds(mask, i + 1);
    } else {
      e := i;
    }
  }

  lemma {:induction false} RunsFrom(mask: seq<bool>, i: nat, a: nat, b: nat)
    requires i <= |mask| + 1 && !At(mask, i - 1)
    ensures (a, b) in Pairs(EdgesFrom(mask, i)) <==> IsRun(mask, a, b) && a >= i
    decreases |mask| + 1 - i
  {
    hide EdgesFrom, IsRun, Pairs;
    EdgesUnfold(mask, i);
    if i > |mask| {
      PairsOfNone();
      NoRunThere(mask, a, b);
    } else if !At(mask, i) {
      RunsFrom(mask, i + 1, a, b);
      NoRunStartsHere(mask, i, b);
    } else {
      var e := RunEnds(mask, i + 1);
      RunsFrom(mask, e + 1, a, b);
      var rest := EdgesFrom(mask, e + 1);
      assert EdgesFrom(mask, i) == [i, e] + rest;
      PairsUnfold(i, e, rest);
      RunIsThis(mask, i, e, a, b);
    }
  }

  lemma PairsOfNone()
    ensures Pairs([]) == []
  {
  }

  lemma PairsUnfold(i: nat, e: nat, rest: seq<nat>)
    ensures Pairs([i, e] + rest) == [(i, e)] + Pairs(rest)
  {
    assert ([i, e] + rest)[2..] == rest;
  }

  lemma NoRunThere(mask: seq<bool>, a: nat, b: nat)
    ensures IsRun(mask, a, b) ==> a < |mask|
  {
  }

  lemma NoRunStartsHere(mask: seq<bool>, i: nat, b: nat)
    requires !At(mask, i)
    ensures !IsRun(mask, i, b)
  {
  }

  lemma RunIsThis(mask: seq<bool>, i: nat, e: nat, a: nat, b: nat)
    requires i < e <= |mask| && !At(mask, i - 1) && !At(mask, e) && forall k :: i <= k < e ==> At(mask, k)
    ensures IsRun(mask, a, b) && a >= i <==> (a, b) == (i, e) || (IsRun(mask, a, b) && a >= e + 1)
  {
    assert IsRun(mask, i, e) by {
      forall k | i <= k < e ensures mask[k] { assert At(mask, k); }
    }
    if IsRun(mask, a, b) && a >= i && a < e + 1 {
      NoRunStartsHere(mask, e, b);
      if a > i { NoRunInside(mask, a, b, i, e); }
      SameStartSameEnd(mask, i, e, b);
    }
  }

  lemma NoRunInside(mask: seq<bool>, a: nat, b: nat, i: nat, e: nat)
    requires i < a && a < e && forall k :: i <= k < e ==> At(mask, k)
    ensures !IsRun(mask, a, b)
  {
    assert At(mask, a - 1);
  }

  lemma SameStartSameEnd(mask: seq<bool>, a: nat, b: nat, c: nat)
    requires IsRun(mask, a, b)
    ensures IsRun(mask, a, c) ==> b == c
  {
  }

  /** The span finder returns exactly the maximal runs. */
  lemma SpansAreRuns(mask: seq<bool>, a: nat, b: nat)
    ensures (a, b) in ContiguousSpans(mask) <==> IsRun(mask, a, b)
  {
    RunsFrom(mask, 0, a, b);
  }

  ghost predicate Increasing(s: seq<nat>) { forall i, j :: 0 <= i < j < |s| ==> s[i] < s[j] }

  lemma {:induction false} EdgesIncrease(mask: seq<bool>, i: nat)
    ensures Increasing(EdgesFrom(mask, i)) && forall e :: e in EdgesFrom(mask, i) ==> i <= e
    decreases |mask| + 1 - i
  {
    hide EdgesFrom;
    EdgesUnfold(mask, i);
    if i <= |mask| {
      EdgesIncrease(mask, i + 1);
      PutInFront(i, EdgesFrom(mask, i + 1));
    }
  }

  lemma PutInFront(x: nat, s: seq<nat>)
    requires Increasing(s) && forall e :: e in s ==> x < e
    ensures Increasing([x] + s)
  {
    var r := [x] + s;
    forall i, j | 0 <= i < j < |r| ensures r[i] < r[j] {
      assert r[j] == s[j - 1] && s[j - 1] in s;
    }
  }

  /** Spans in order, none touching the next, all within these edges. */
  ghost predicate Apart(p: seq<(nat, nat)>, above: int) {
    && (forall i :: 0 <= i < |p| ==> above < p[i].0 < p[i].1)
    && (forall i, j :: 0 <= i < j < |p| ==> p[i].1 < p[j].0)
  }

  lemma {:induction false} PairsApart(edges: seq<nat>, above: int)
    requires Increasing(edges) && forall e :: e in edges ==> above < e
    ensures Apart(Pairs(edges), above)
  {
    if |edges| >= 2 {
      hide Pairs, Apart;
      var rest := edges[2..];
      assert edges[0] in edges && edges[1] in edges && edges[0] < edges[1];
      PairsApart(rest, edges[1]);
      assert edges == [edges[0], edges[1]] + rest;
      PairsUnfold(edges[0], edges[1], rest);
      ApartFront(edges[0], edges[1], Pairs(rest), above);
    }
  }

  lemma ApartFront(a: nat, b: nat, q: seq<(nat, nat)>, above: int)
    requires above < a < b && Apart(q, b)
    ensures Apart([(a, b)] + q, above)
  {
    var p := [(a, b)] + q;
    assert forall i :: 0 < i < |p| ==> p[i] == q[i - 1];
  }

  /** In order, and never touching: two neighbouring spans have a gap between them. */
  lemma SpansInOrder(mask: seq<bool>)
    ensures Apart(ContiguousSpans(mask), -1)
  {
    EdgesIncrease(mask, 0);
    PairsApart(EdgesFrom(mask, 0), -1);
  }
}
