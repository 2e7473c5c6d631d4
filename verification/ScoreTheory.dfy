/**
  How placement orders candidates with load readings (src/placement.rs, `scores`), by their free and total bytes and their
  readings: which of two is better, what a missing reading counts as, and one below 0.
*/
module ScoreTheory {
  import opened Wrappers
  import opened Order
  import opened Placement

  // --------------------------------------------------------------- readings

  /** The known readings, those below 0 as 0. */
  function Readings(f: seq<Candidate>): seq<real> {
    if f == [] then []
    else
      var init, b := Readings(f[..|f| - 1]), f[|f| - 1].busy;
      if b.None? then init else init + [if b.value < 0.0 then 0.0 else b.value]
  }

  function Total(rs: seq<real>): real {
    if rs == [] then 0.0 else Total(rs[..|rs| - 1]) + rs[|rs| - 1]
  }

  /** The mean of the known readings, 0 when there is none. */
  function Mean(f: seq<Candidate>): real {
    if Readings(f) == [] then 0.0 else Total(Readings(f)) / |Readings(f)| as real
  }

  /** What a candidate counts as. */
  function Busy(c: Candidate, f: seq<Candidate>): real {
    if c.busy.None? then Mean(f) else if c.busy.value < 0.0 then 0.0 else c.busy.value
  }

  /** The busiest reading, at least 0. */
  predicate IsBusiest(top: real, f: seq<Candidate>) {
    (forall i :: 0 <= i < |Readings(f)| ==> Readings(f)[i] <= top)
    && (top == 0.0 || exists i :: 0 <= i < |Readings(f)| && Readings(f)[i] == top)
  }

  lemma {:induction false} LoadIs(f: seq<Candidate>)
    ensures var l := LoadOf(f); IsBusiest(l.max, f) && l.sum == Total(Readings(f)) && l.count == |Readings(f)| && l.max >= 0.0
  {
    if f != [] {
      var init := f[..|f| - 1];
      LoadIs(init);
      var rs := Readings(f);
      if f[|f| - 1].busy.Some? {
        assert rs[..|rs| - 1] == Readings(init);
        BusiestMore(init, f);
      }
    }
  }

  lemma {:induction false} BusiestMore(init: seq<Candidate>, f: seq<Candidate>)
    requires f != [] && init == f[..|f| - 1] && f[|f| - 1].busy.Some? && IsBusiest(LoadOf(init).max, init) && LoadOf(init).max >= 0.0
    ensures IsBusiest(LoadOf(f).max, f)
  {
    var rs, few := Readings(f), Readings(init);
    assert rs == few + [rs[|rs| - 1]];
    var top := LoadOf(f).max;
    if top != rs[|rs| - 1] && top != 0.0 {
      var i :| 0 <= i < |few| && few[i] == top;
      assert rs[i] == top;
    }
  }

  lemma {:induction false} MeanIs(f: seq<Candidate>)
    ensures var l := LoadOf(f); Mean(f) == if l.count == 0 then 0.0 else l.sum / l.count as real
  {
    LoadIs(f);
  }

  // ------------------------------------------------------------------ order

  /** A weight below 0 counts as 0, and one above 1 as 1. */
  predicate WeightIs(w: real, weight: real) {
    if weight < 0.0 then w == 0.0 else if weight > 1.0 then w == 1.0 else w == weight
  }

  /** The share of its bytes that is free; a node that reports no bytes has none. */
  predicate ShareIs(s: real, c: Candidate) {
    if c.total == 0 then s == 0.0 else s * c.total as real == c.free as real
  }

  lemma {:induction false} ShareIsRatio(s: real, c: Candidate)
    requires ShareIs(s, c)
    ensures s == FreeRatio(c)
  {
    if c.total != 0 {
      var q, t := FreeRatio(c), c.total as real;
      assert q * t == c.free as real;
      assert (s - q) * t == 0.0;
    }
  }

  lemma {:induction false} SignScaled(d: real, top: real)
    requires top > 0.0
    ensures (d * top > 0.0 <==> d > 0.0) && (d * top == 0.0 <==> d == 0.0)
  {
    if d < 0.0 { assert (0.0 - d) * top > 0.0; }
  }

  /**
   * With some load, candidates are ordered by the free share, weighed against how far the candidate is from the busiest;
   * of equal ones the earlier name comes first.
   */
  lemma {:induction false} LoadOrder(
    f: seq<Candidate>, weight: real, a: Candidate, b: Candidate, w: real, sa: real, sb: real, top: real)
    returns (xa: real, xb: real)
    requires WeightIs(w, weight) && ShareIs(sa, a) && ShareIs(sb, b) && IsBusiest(top, f) && top > 0.0
    ensures xa == (1.0 - w) * sa + w * (1.0 - Busy(a, f) / top) && xb == (1.0 - w) * sb + w * (1.0 - Busy(b, f) / top)
    ensures Better(a, b, f, weight) <==> xa > xb || (xa == xb && Before(a.name, b.name))
  {
    LoadIs(f);
    BusiestIsOne(f, top, LoadOf(f).max);
    ShareIsRatio(sa, a);
    ShareIsRatio(sb, b);
    ScoreIs(f, weight, a, w, sa, top);
    ScoreIs(f, weight, b, w, sb, top);
    xa, xb := ScoreIn(a, f, weight), ScoreIn(b, f, weight);
  }

  lemma {:induction false} ScoreIs(f: seq<Candidate>, weight: real, c: Candidate, w: real, s: real, top: real)
    requires WeightIs(w, weight) && s == FreeRatio(c) && top == LoadOf(f).max && top > 0.0
    ensures ScoreIn(c, f, weight) == (1.0 - w) * s + w * (1.0 - Busy(c, f) / top)
  {
    MeanIs(f);
  }

  lemma {:induction false} BusiestIsOne(f: seq<Candidate>, x: real, y: real)
    requires IsBusiest(x, f) && IsBusiest(y, f) && x >= 0.0 && y >= 0.0
    ensures x == y
  {
  }

  lemma {:induction false} IdleScoreIs(f: seq<Candidate>, weight: real, c: Candidate, w: real, s: real)
    requires WeightIs(w, weight) && s == FreeRatio(c) && LoadOf(f).max == 0.0
    ensures ScoreIn(c, f, weight) == (1.0 - w) * s + w
  {
  }

  /** With none the free share alone orders them, unless it has no weight at all. */
  lemma {:induction false} NoLoadOrder(
    f: seq<Candidate>, weight: real, a: Candidate, b: Candidate, w: real, sa: real, sb: real)
    returns (xa: real, xb: real)
    requires WeightIs(w, weight) && ShareIs(sa, a) && ShareIs(sb, b) && IsBusiest(0.0, f)
    ensures xa == (1.0 - w) * sa + w && xb == (1.0 - w) * sb + w
    ensures Better(a, b, f, weight) <==> xa > xb || (xa == xb && Before(a.name, b.name))
  {
    LoadIs(f);
    BusiestIsOne(f, 0.0, LoadOf(f).max);
    ShareIsRatio(sa, a);
    ShareIsRatio(sb, b);
    IdleScoreIs(f, weight, a, w, sa);
    IdleScoreIs(f, weight, b, w, sb);
    xa, xb := ScoreIn(a, f, weight), ScoreIn(b, f, weight);
  }

  /** The same part of their bytes is free; `a` has a larger part free. */
  predicate SameShare(a: Candidate, b: Candidate) {
    a.total > 0 && b.total > 0 && a.free * b.total == b.free * a.total
  }

  predicate Freer(a: Candidate, b: Candidate) {
    a.total > 0 && b.total > 0 && a.free * b.total > b.free * a.total
  }

  lemma {:induction false} Shares(a: Candidate, b: Candidate) returns (sa: real, sb: real)
    requires a.total > 0 && b.total > 0
    ensures ShareIs(sa, a) && ShareIs(sb, b)
    ensures sa > sb <==> a.free * b.total > b.free * a.total
    ensures sa == sb <==> a.free * b.total == b.free * a.total
  {
    var ta, tb := a.total as real, b.total as real;
    sa, sb := a.free as real / ta, b.free as real / tb;
    assert sa * ta == a.free as real && sb * tb == b.free as real;
    Crossed(sa, sb, ta, tb);
    assert (a.free * b.total) as real == a.free as real * tb && (b.free * a.total) as real == b.free as real * ta;
  }

  lemma {:induction false} Crossed(sa: real, sb: real, ta: real, tb: real)
    requires ta > 0.0 && tb > 0.0
    ensures (sa > sb <==> (sa * ta) * tb > (sb * tb) * ta) && (sa == sb <==> (sa * ta) * tb == (sb * tb) * ta)
  {
    var t := ta * tb;
    assert t > 0.0;
    assert (sa * ta) * tb == sa * t && (sb * tb) * ta == sb * t;
    assert (sa - sb) * t == sa * t - sb * t;
    SignScaled(sa - sb, t);
  }

  lemma {:induction false} TopOf(f: seq<Candidate>) returns (top: real)
    ensures IsBusiest(top, f) && top >= 0.0
  {
    LoadIs(f);
    top := LoadOf(f).max;
  }

  lemma {:induction false} ReadingIsThere(f: seq<Candidate>, c: Candidate)
    requires c in f && c.busy.Some?
    ensures exists i :: 0 <= i < |Readings(f)| && Readings(f)[i] == if c.busy.value < 0.0 then 0.0 else c.busy.value
  {
    var init, last := f[..|f| - 1], f[|f| - 1];
    var rs := Readings(f);
    if c == last {
      assert rs[|rs| - 1] == if c.busy.value < 0.0 then 0.0 else c.busy.value;
    } else {
      assert c in init by { var i :| 0 <= i < |f| && f[i] == c; assert init[i] == c; }
      ReadingIsThere(init, c);
      var i :| 0 <= i < |Readings(init)| && Readings(init)[i] == if c.busy.value < 0.0 then 0.0 else c.busy.value;
      assert rs[i] == Readings(init)[i];
    }
  }

  /** Of two as free, the one with the lower reading is better, once load counts at all. */
  lemma {:induction false} ColderIsBetter(f: seq<Candidate>, weight: real, a: Candidate, b: Candidate)
    requires b in f && a.busy.Some? && b.busy.Some? && SameShare(a, b) && weight > 0.0
    requires b.busy.value > 0.0 && a.busy.value < b.busy.value
    ensures Better(a, b, f, weight)
  {
    var sa, sb := Shares(a, b);
    var top := TopOf(f);
    ReadingIsThere(f, b);
    var w := if weight > 1.0 then 1.0 else weight;
    var xa, xb := LoadOrder(f, weight, a, b, w, sa, sb, top);
    ColderHasMore(w, Busy(a, f), Busy(b, f), top);
  }

  lemma {:induction false} ColderHasMore(w: real, ba: real, bb: real, top: real)
    requires w > 0.0 && ba < bb && top > 0.0
    ensures w * (1.0 - ba / top) > w * (1.0 - bb / top)
  {
    var qa, qb := ba / top, bb / top;
    assert qa * top == ba && qb * top == bb;
    SignScaled(qb - qa, top);
    Factored(top, qb, qa);
    Positive(w, qb - qa);
    Factored(w, 1.0 - qa, 1.0 - qb);
  }

  lemma {:induction false} FreerHasMore(xa: real, xb: real, u: real, sa: real, sb: real, rest: real)
    requires u > 0.0 && sa > sb && xa == u * sa + rest && xb == u * sb + rest
    ensures xa > xb
  {
    Positive(u, sa - sb);
    Factored(u, sa, sb);
  }

  lemma {:induction false} Factored(u: real, x: real, y: real)
    ensures u * (x - y) == u * x - u * y
  {
  }

  lemma {:induction false} Positive(x: real, y: real)
    requires x > 0.0 && y > 0.0
    ensures x * y > 0.0
  {
  }

  lemma {:induction false} FreerUnderLoad(
    f: seq<Candidate>, weight: real, a: Candidate, b: Candidate, w: real, sa: real, sb: real, top: real)
    requires WeightIs(w, weight) && ShareIs(sa, a) && ShareIs(sb, b) && IsBusiest(top, f) && top > 0.0
    requires a.busy == b.busy && w < 1.0 && sa > sb
    ensures Better(a, b, f, weight)
  {
    var xa, xb := LoadOrder(f, weight, a, b, w, sa, sb, top);
    FreerHasMore(xa, xb, 1.0 - w, sa, sb, w * (1.0 - Busy(a, f) / top));
  }

  lemma {:induction false} FreerWithoutLoad(
    f: seq<Candidate>, weight: real, a: Candidate, b: Candidate, w: real, sa: real, sb: real)
    requires WeightIs(w, weight) && ShareIs(sa, a) && ShareIs(sb, b) && IsBusiest(0.0, f) && w < 1.0 && sa > sb
    ensures Better(a, b, f, weight)
  {
    var xa, xb := NoLoadOrder(f, weight, a, b, w, sa, sb);
    FreerHasMore(xa, xb, 1.0 - w, sa, sb, w);
  }

  /** Of two as busy, the freer one is better, unless load alone counts. */
  lemma {:induction false} FreerIsBetter(f: seq<Candidate>, weight: real, a: Candidate, b: Candidate)
    requires a.busy == b.busy && Freer(a, b) && weight < 1.0
    ensures Better(a, b, f, weight)
  {
    var sa, sb := Shares(a, b);
    var top := TopOf(f);
    var w := if weight < 0.0 then 0.0 else weight;
    if top > 0.0 {
      FreerUnderLoad(f, weight, a, b, w, sa, sb, top);
    } else {
      FreerWithoutLoad(f, weight, a, b, w, sa, sb);
    }
  }

  /** A candidate without a reading stands where one with the mean of the known readings would. */
  lemma {:induction false} NoReadingIsTheMean(f: seq<Candidate>, weight: real, a: Candidate, b: Candidate)
    requires a.busy.None?
    ensures Better(a, b, f, weight) <==> Better(a.(busy := Some(Mean(f))), b, f, weight)
    ensures Better(b, a, f, weight) <==> Better(b, a.(busy := Some(Mean(f))), f, weight)
  {
    MeanScoresTheSame(f, weight, a);
  }

  lemma {:induction false} MeanScoresTheSame(f: seq<Candidate>, weight: real, a: Candidate)
    requires a.busy.None?
    ensures ScoreIn(a.(busy := Some(Mean(f))), f, weight) == ScoreIn(a, f, weight)
  {
    MeanIs(f);
    MeanIsNoLess(f);
    assert FreeRatio(a.(busy := Some(Mean(f)))) == FreeRatio(a);
  }

  lemma {:induction false} MeanIsNoLess(f: seq<Candidate>)
    ensures Mean(f) >= 0.0
  {
    TotalIsNoLess(f);
  }

  lemma {:induction false} TotalIsNoLess(f: seq<Candidate>)
    ensures Total(Readings(f)) >= 0.0
  {
    if f != [] {
      TotalIsNoLess(f[..|f| - 1]);
      var rs := Readings(f);
      if f[|f| - 1].busy.Some? { assert rs[..|rs| - 1] == Readings(f[..|f| - 1]); }
    }
  }

  /** The candidate with a reading below 0 put at 0. */
  function AtLeastZero(c: Candidate): Candidate {
    if c.busy.Some? && c.busy.value < 0.0 then c.(busy := Some(0.0)) else c
  }

  function AllAtLeastZero(f: seq<Candidate>): seq<Candidate> {
    if f == [] then [] else AllAtLeastZero(f[..|f| - 1]) + [AtLeastZero(f[|f| - 1])]
  }

  lemma {:induction false} SameLoad(f: seq<Candidate>)
    ensures LoadOf(AllAtLeastZero(f)) == LoadOf(f)
  {
    if f != [] {
      SameLoad(f[..|f| - 1]);
      assert AllAtLeastZero(f)[..|AllAtLeastZero(f)| - 1] == AllAtLeastZero(f[..|f| - 1]);
    }
  }

  lemma {:induction false} SameScoreAtZero(f: seq<Candidate>, weight: real, c: Candidate)
    ensures ScoreIn(c, f, weight) == ScoreIn(AtLeastZero(c), AllAtLeastZero(f), weight)
  {
    SameLoad(f);
    assert FreeRatio(AtLeastZero(c)) == FreeRatio(c);
  }

  /** Readings below 0 count as 0. */
  lemma {:induction false} BelowZeroIsZero(f: seq<Candidate>, weight: real, a: Candidate, b: Candidate)
    ensures Better(a, b, f, weight) <==> Better(AtLeastZero(a), AtLeastZero(b), AllAtLeastZero(f), weight)
  {
    SameScoreAtZero(f, weight, a);
    SameScoreAtZero(f, weight, b);
  }
}
