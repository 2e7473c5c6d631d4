/** What a plan promises: it is optimal, order does not matter, and a preference costs nothing (src/placement.rs). */
module PlacementTheory {
  import opened Wrappers
  import opened Order
  import opened Placement

  /** Candidates of `f` in pairwise distinct domains. */
  ghost predicate Spread(q: seq<Candidate>, f: seq<Candidate>, rule: Rule) {
    && (forall i :: 0 <= i < |q| ==> q[i] in f)
    && (forall i, j :: 0 <= i < j < |q| ==> Domain(q[i], rule) != Domain(q[j], rule))
  }

  ghost predicate Feasible(f: seq<Candidate>, rule: Rule, replicas: nat) {
    exists q :: |q| == replicas && Spread(q, f, rule)
  }

  function DomainsOf(q: seq<Candidate>, rule: Rule): set<string> {
    set i | 0 <= i < |q| :: Domain(q[i], rule)
  }

  lemma {:induction false} SpreadSize(q: seq<Candidate>, f: seq<Candidate>, rule: Rule)
    requires Spread(q, f, rule)
    ensures |DomainsOf(q, rule)| == |q|
  {
    if q == [] {
      assert DomainsOf(q, rule) == {};
    } else {
      var init, d := q[..|q| - 1], Domain(q[|q| - 1], rule);
      SpreadSize(init, f, rule);
      LastDomain(q, rule);
      assert d !in DomainsOf(init, rule);
    }
  }

  lemma {:induction false} LastDomain(q: seq<Candidate>, rule: Rule)
    requires q != []
    ensures DomainsOf(q, rule) == DomainsOf(q[..|q| - 1], rule) + {Domain(q[|q| - 1], rule)}
  {
  }

  lemma {:induction false} RankingIsSpread(b: seq<Candidate>, f: seq<Candidate>, rule: Rule, weight: real)
    requires IsRanking(b, f, rule, weight)
    ensures Spread(b, f, rule)
  {
    forall i | 0 <= i < |b| ensures b[i] in f { assert b[i] in b; }
    forall i, j | 0 <= i < j < |b| ensures Domain(b[i], rule) != Domain(b[j], rule) {
      assert b[i] in b && b[j] in b;
      BetterTrichotomy(b[i], b[j], f, weight);
    }
  }

  /** Some candidate is the best of its domain. */
  lemma {:induction false} BestExists(part: seq<Candidate>, c: Candidate, f: seq<Candidate>, rule: Rule, weight: real)
    returns (best: Candidate)
    requires DistinctNames(part) && c in part
    ensures BestIn(best, part, f, rule, weight) && Domain(best, rule) == Domain(c, rule)
  {
    var init, last := part[..|part| - 1], part[|part| - 1];
    assert forall x :: x in part <==> x in init || x == last;
    if x :| x in init && Domain(x, rule) == Domain(c, rule) {
      best := BestExists(init, x, f, rule, weight);
      if Domain(last, rule) == Domain(c, rule) {
        assert best.name != last.name;
        BetterTrichotomy(best, last, f, weight);
        if Better(last, best, f, weight) {
          forall y | y in init && Better(best, y, f, weight) ensures Better(last, y, f, weight) {
            BetterTransitive(last, best, y, f, weight);
          }
          best := last;
        }
      }
    } else {
      best := last;
    }
  }

  /** Every domain's best is in the ranking, and is at least as good as any of the domain. */
  lemma {:induction false} RankedBest(
    b: seq<Candidate>, f: seq<Candidate>, rule: Rule, weight: real, c: Candidate) returns (i: nat)
    requires DistinctNames(f) && IsRanking(b, f, rule, weight) && c in f
    ensures i < |b| && Domain(b[i], rule) == Domain(c, rule) && ScoreIn(b[i], f, weight) >= ScoreIn(c, f, weight)
  {
    var best := BestExists(f, c, f, rule, weight);
    assert best in b;
    i :| 0 <= i < |b| && b[i] == best;
  }

  /** With at least one replica, a plan exists exactly when that many fitting nodes lie in distinct domains. */
  lemma {:induction false} PlanSucceedsExactly(
    b: seq<Candidate>, f: seq<Candidate>, rule: Rule, weight: real, replicas: nat)
    requires DistinctNames(f) && IsRanking(b, f, rule, weight) && replicas >= 1
    ensures Answer(b, f, replicas).Ok? <==> Feasible(f, rule, replicas)
    ensures Answer(b, f, replicas).Ok? ==> Spread(b[..replicas], f, rule)
  {
    RankingIsSpread(b, f, rule, weight);
    if Answer(b, f, replicas).Ok? {
      assert |b[..replicas]| == replicas && Spread(b[..replicas], f, rule);
    }
    if q :| |q| == replicas && Spread(q, f, rule) {
      assert q[0] in f;
      SpreadFits(b, f, rule, weight, q);
    }
  }

  lemma {:induction false} SpreadFits(b: seq<Candidate>, f: seq<Candidate>, rule: Rule, weight: real, q: seq<Candidate>)
    requires DistinctNames(f) && IsRanking(b, f, rule, weight) && Spread(q, f, rule)
    ensures |q| <= |b|
  {
    RankingIsSpread(b, f, rule, weight);
    SpreadSize(b, f, rule);
    SpreadSize(q, f, rule);
    forall d | d in DomainsOf(q, rule) ensures d in DomainsOf(b, rule) {
      var j :| 0 <= j < |q| && Domain(q[j], rule) == d;
      var i := RankedBest(b, f, rule, weight, q[j]);
    }
    SubsetSize(DomainsOf(q, rule), DomainsOf(b, rule));
  }

  lemma {:induction false} SubsetSize<T>(a: set<T>, b: set<T>)
    requires a <= b
    ensures |a| <= |b|
  {
    assert b == a + (b - a);
  }

  /** Of the domains of `i + 1` nodes apart, one is not among those of the `i` picks before. */
  lemma {:induction false} DomainLeft(
    b: seq<Candidate>, f: seq<Candidate>, rule: Rule, q: seq<Candidate>, i: nat) returns (j: nat)
    requires Spread(b, f, rule) && Spread(q, f, rule) && i < |q| && i <= |b|
    ensures j <= i && forall m :: 0 <= m < i ==> Domain(b[m], rule) != Domain(q[j], rule)
  {
    var few, many := DomainsOf(b[..i], rule), DomainsOf(q[..i + 1], rule);
    SpreadSize(b[..i], f, rule);
    SpreadSize(q[..i + 1], f, rule);
    if many <= few { SubsetSize(many, few); assert false; }
    var d :| d in many && d !in few;
    j :| 0 <= j < i + 1 && Domain(q[..i + 1][j], rule) == d;
    forall m | 0 <= m < i ensures Domain(b[m], rule) in few { assert b[..i][m] == b[m]; }
  }

  /** No choice of nodes in distinct domains is better: the i-th pick scores at least the i-th best of any. */
  lemma {:induction false} PlanIsOptimal(
    b: seq<Candidate>, f: seq<Candidate>, rule: Rule, weight: real, q: seq<Candidate>, i: nat)
    requires DistinctNames(f) && IsRanking(b, f, rule, weight) && Spread(q, f, rule)
    requires forall j, k :: 0 <= j < k < |q| ==> ScoreIn(q[j], f, weight) >= ScoreIn(q[k], f, weight)
    requires i < |q|
    ensures |q| <= |b| && ScoreIn(b[i], f, weight) >= ScoreIn(q[i], f, weight)
  {
    SpreadFits(b, f, rule, weight, q);
    RankingIsSpread(b, f, rule, weight);
    var j := DomainLeft(b, f, rule, q, i);
    var k := RankedBest(b, f, rule, weight, q[j]);
    assert k >= i;
  }

  // ------------------------------------------------------------ permutation

  lemma {:induction false} AddLoadCommutes(l: Load, a: Candidate, b: Candidate)
    ensures AddLoad(AddLoad(l, a), b) == AddLoad(AddLoad(l, b), a)
  {
  }

  lemma {:induction false} LoadWithout(f: seq<Candidate>, i: nat)
    requires i < |f|
    ensures LoadOf(f) == AddLoad(LoadOf(f[..i] + f[i + 1..]), f[i])
    decreases |f|
  {
    var init, last := f[..|f| - 1], f[|f| - 1];
    if i == |f| - 1 {
      assert f[..i] + f[i + 1..] == init;
    } else {
      LoadWithout(init, i);
      var rest := f[..i] + f[i + 1..];
      assert rest[..|rest| - 1] == init[..i] + init[i + 1..] && rest[|rest| - 1] == last;
      AddLoadCommutes(LoadOf(init[..i] + init[i + 1..]), f[i], last);
    }
  }

  lemma {:induction false} LoadOfPermutation(a: seq<Candidate>, b: seq<Candidate>)
    requires multiset(a) == multiset(b)
    ensures LoadOf(a) == LoadOf(b)
    decreases |a|
  {
    assert |a| == |multiset(a)| == |b|;
    if a != [] {
      var i := LastIn(a, b);
      LoadOfPermutation(a[..|a| - 1], b[..i] + b[i + 1..]);
      LoadWithout(b, i);
    }
  }

  /** Without its last one, and where that is in the other, they are still permutations. */
  lemma {:induction false} LastIn(a: seq<Candidate>, b: seq<Candidate>) returns (i: nat)
    requires multiset(a) == multiset(b) && a != []
    ensures i < |b| && b[i] == a[|a| - 1] && multiset(a[..|a| - 1]) == multiset(b[..i] + b[i + 1..])
  {
    var x := a[|a| - 1];
    assert a == a[..|a| - 1] + [x];
    assert x in multiset(b);
    i :| 0 <= i < |b| && b[i] == x;
    assert b == b[..i] + [x] + b[i + 1..];
    assert multiset(a[..|a| - 1]) == multiset(a) - multiset{x};
    assert multiset(b[..i] + b[i + 1..]) == multiset(b) - multiset{x};
  }

  lemma {:induction false} FittingCounts(cands: seq<Candidate>, size: nat, c: Candidate)
    ensures multiset(Fitting(cands, size))[c] == if c.free >= size then multiset(cands)[c] else 0
  {
    if cands != [] {
      FittingCounts(cands[..|cands| - 1], size, c);
      assert cands == cands[..|cands| - 1] + [cands[|cands| - 1]];
    }
  }

  lemma {:induction false} HasFirst<T>(s: seq<T>)
    ensures s == [] || s[0] in s
  {
  }

  lemma {:induction false} SortedUnique(a: seq<Candidate>, b: seq<Candidate>, f: seq<Candidate>, weight: real)
    requires Sorted(a, f, weight) && Sorted(b, f, weight)
    requires forall c :: c in a <==> c in b
    ensures a == b
  {
    if a == [] {
      HasFirst(b);
    } else {
      assert a[0] in b && b[0] in a;
      var i :| 0 <= i < |b| && b[i] == a[0];
      var j :| 0 <= j < |a| && a[j] == b[0];
      BetterTrichotomy(a[0], b[0], f, weight);
      assert a[0] == b[0];
      forall c ensures c in a[1..] <==> c in b[1..] {
        BetterTrichotomy(c, c, f, weight);
        if c in a[1..] { InRest(a, b, f, weight, c); }
        if c in b[1..] { InRest(b, a, f, weight, c); }
      }
      SortedUnique(a[1..], b[1..], f, weight);
    }
  }

  lemma {:induction false} InRest(a: seq<Candidate>, b: seq<Candidate>, f: seq<Candidate>, weight: real, c: Candidate)
    requires a != [] && b != [] && a[0] == b[0] && Sorted(a, f, weight) && c in a[1..] && c in b
    ensures c in b[1..]
  {
    var i :| 0 <= i < |a| - 1 && a[1..][i] == c;
    BetterTrichotomy(a[0], a[i + 1], f, weight);
  }

  /** The order the candidates come in changes nothing. */
  lemma {:induction false} PlanIgnoresOrder(
    c1: seq<Candidate>, c2: seq<Candidate>, rule: Rule, replicas: nat, size: nat, weight: real,
                         b1: seq<Candidate>, b2: seq<Candidate>)
    requires multiset(c1) == multiset(c2)
    requires IsRanking(b1, Fitting(c1, size), rule, weight) && IsRanking(b2, Fitting(c2, size), rule, weight)
    ensures Answer(b1, Fitting(c1, size), replicas) == Answer(b2, Fitting(c2, size), replicas)
  {
    var f1, f2 := Fitting(c1, size), Fitting(c2, size);
    forall c ensures multiset(f1)[c] == multiset(f2)[c] {
      FittingCounts(c1, size, c);
      FittingCounts(c2, size, c);
    }
    assert multiset(f1) == multiset(f2);
    LoadOfPermutation(f1, f2);
    assert |f1| == |multiset(f1)| == |f2|;
    forall c ensures c in f1 <==> c in f2 { assert c in f1 <==> c in multiset(f1); assert c in f2 <==> c in multiset(f2); }
    forall x, y ensures Better(x, y, f1, weight) == Better(x, y, f2, weight) {}
    forall c ensures BestIn(c, f1, f1, rule, weight) == BestIn(c, f2, f2, rule, weight) {}
    SortedUnique(b1, b2, f1, weight);
  }

  // -------------------------------------------------------------- free ratio

  lemma {:induction false} NoLoad(f: seq<Candidate>)
    requires forall c :: c in f ==> c.busy.None?
    ensures LoadOf(f) == Load(0.0, 0.0, 0)
  {
    if f != [] { NoLoad(f[..|f| - 1]); }
  }

  /** With no load readings, and load not all that counts, the order is the free ratio's. */
  lemma {:induction false} FreeRatioOrder(f: seq<Candidate>, weight: real, a: Candidate, b: Candidate)
    requires (forall c :: c in f ==> c.busy.None?) && a in f && b in f && weight < 1.0
    ensures Better(a, b, f, weight) <==>
            FreeRatio(a) > FreeRatio(b) || (FreeRatio(a) == FreeRatio(b) && Before(a.name, b.name))
  {
    NoLoad(f);
    var w := 1.0 - Clamp(weight);
    assert ScoreIn(a, f, weight) - ScoreIn(b, f, weight) == w * (FreeRatio(a) - FreeRatio(b));
    SignOfProduct(w, FreeRatio(a) - FreeRatio(b));
  }

  lemma {:induction false} SignOfProduct(w: real, d: real)
    requires w > 0.0
    ensures (w * d > 0.0 <==> d > 0.0) && (w * d == 0.0 <==> d == 0.0)
  {
    if d < 0.0 { assert w * (0.0 - d) > 0.0; }
  }

  // -------------------------------------------------------------- preferring

  /** The candidates outside a domain. */
  function Outside(cands: seq<Candidate>, rule: Rule, d: string): seq<Candidate> {
    if cands == [] then []
    else
      var init, c := Outside(cands[..|cands| - 1], rule, d), cands[|cands| - 1];
      if Domain(c, rule) != d then init + [c] else init
  }

  lemma {:induction false} OutsideIs(cands: seq<Candidate>, rule: Rule, d: string)
    ensures forall c :: c in Outside(cands, rule, d) <==> c in cands && Domain(c, rule) != d
    ensures DistinctNames(cands) ==> DistinctNames(Outside(cands, rule, d))
  {
    if cands != [] {
      var init := cands[..|cands| - 1];
      OutsideIs(init, rule, d);
      assert forall c :: c in cands <==> c in init || c == cands[|cands| - 1];
      if DistinctNames(cands) {
        forall c | c in init ensures c.name != cands[|cands| - 1].name {}
      }
    }
  }

  function Find(cands: seq<Candidate>, name: string): (r: Option<Candidate>)
    ensures r.Some? ==> r.value in cands && r.value.name == name
    ensures r.None? ==> forall c :: c in cands ==> c.name != name
  {
    if cands == [] then None else if cands[0].name == name then Some(cands[0]) else Find(cands[1..], name)
  }

  /** One copy less can be placed outside the domain of one of them. */
  lemma {:induction false} FeasibleBeside(cands: seq<Candidate>, size: nat, rule: Rule, replicas: nat, d: string)
    requires replicas >= 1 && Feasible(Fitting(cands, size), rule, replicas)
    ensures Feasible(Fitting(Outside(cands, rule, d), size), rule, replicas - 1)
  {
    var f, g := Fitting(cands, size), Fitting(Outside(cands, rule, d), size);
    FittingIs(cands, size);
    OutsideIs(cands, rule, d);
    FittingIs(Outside(cands, rule, d), size);
    var q :| |q| == replicas && Spread(q, f, rule);
    var k := |q| - 1;
    if i :| 0 <= i < |q| && Domain(q[i], rule) == d { k := i; }
    var rest := q[..k] + q[k + 1..];
    WithoutOne(q, f, rule, k);
    forall j | 0 <= j < |rest| ensures rest[j] in g {
      assert rest[j] == q[if j < k then j else j + 1];
    }
    assert |rest| == replicas - 1 && Spread(rest, g, rule);
  }

  lemma {:induction false} WithoutOne(q: seq<Candidate>, f: seq<Candidate>, rule: Rule, k: nat)
    requires Spread(q, f, rule) && k < |q|
    ensures Spread(q[..k] + q[k + 1..], f, rule)
  {
    var rest := q[..k] + q[k + 1..];
    assert forall j :: 0 <= j < |rest| ==> rest[j] == q[if j < k then j else j + 1];
  }

  /** And one more beside copies outside the domain. */
  lemma {:induction false} SpreadBeside(cands: seq<Candidate>, size: nat, rule: Rule, p: Candidate, q: seq<Candidate>)
    requires p in cands && p.free >= size && Spread(q, Fitting(Outside(cands, rule, Domain(p, rule)), size), rule)
    ensures Spread([p] + q, Fitting(cands, size), rule)
  {
    FittingIs(cands, size);
    OutsideIs(cands, rule, Domain(p, rule));
    FittingIs(Outside(cands, rule, Domain(p, rule)), size);
  }

  ghost predicate HasRoom(cands: seq<Candidate>, name: Option<string>, size: nat) {
    name.Some? && exists c :: c in cands && c.name == name.value && c.free >= size
  }

  /** The other copies, if any. */
  method PlanOthers(rest: seq<Candidate>, rule: Rule, others: nat, size: nat, weight: real)
    returns (picks: Option<seq<string>>, ghost q: seq<Candidate>)
    requires DistinctNames(rest) && DistinctNames(Fitting(rest, size))
    ensures picks.Some? <==> Feasible(Fitting(rest, size), rule, others)
    ensures picks.Some? ==> picks.value == NamesOf(q) && |q| == others && Spread(q, Fitting(rest, size), rule)
  {
    q := [];
    if others == 0 {
      assert Spread(q, Fitting(rest, size), rule);
      return Some([]), q;
    }
    var plan;
    plan, q := Plan(rest, rule, others, size, weight);
    PlanSucceedsExactly(q, Fitting(rest, size), rule, weight, others);
    if plan.Err? {
      return None, q;
    }
    RankingIsSpread(q, Fitting(rest, size), rule, weight);
    q := q[..others];
    picks := Some(plan.value);
  }

  /** As many copies can be placed as one less beside one of them. */
  lemma {:induction false} BesideIsFeasible(cands: seq<Candidate>, size: nat, rule: Rule, replicas: nat, p: Candidate)
    requires p in cands && p.free >= size && replicas >= 1
    ensures Feasible(Fitting(Outside(cands, rule, Domain(p, rule)), size), rule, replicas - 1)
            <==> Feasible(Fitting(cands, size), rule, replicas)
  {
    if Feasible(Fitting(cands, size), rule, replicas) { FeasibleBeside(cands, size, rule, replicas, Domain(p, rule)); }
    if q :| |q| == replicas - 1 && Spread(q, Fitting(Outside(cands, rule, Domain(p, rule)), size), rule) {
      SpreadBeside(cands, size, rule, p, q);
      assert |[p] + q| == replicas;
    }
  }

  lemma {:induction false} NamesBeside(p: Candidate, q: seq<Candidate>)
    ensures NamesOf([p] + q) == [p.name] + NamesOf(q)
  {
  }

  /** The preferred node first, and the other copies outside its domain: whenever that many can be placed at all. */
  method PlanBeside(cands: seq<Candidate>, rule: Rule, replicas: nat, size: nat, weight: real, p: Candidate)
    returns (picks: Option<seq<string>>, ghost q: seq<Candidate>)
    requires DistinctNames(cands) && p in cands && p.free >= size && replicas >= 1
    ensures picks.Some? <==> Feasible(Fitting(cands, size), rule, replicas)
    ensures picks.Some? ==> picks.value == NamesOf(q) && |q| == replicas && Spread(q, Fitting(cands, size), rule)
    ensures picks.Some? ==> q[0] == p
  {
    var d := ComputeDomain(p.labels, rule);
    var rest := Outside(cands, rule, d);
    OutsideIs(cands, rule, d);
    FittingIs(rest, size);
    BesideIsFeasible(cands, size, rule, replicas, p);
    var others;
    others, q := PlanOthers(rest, rule, replicas - 1, size, weight);
    if others.None? {
      return None, q;
    }
    SpreadBeside(cands, size, rule, p, q);
    NamesBeside(p, q);
    q := [p] + q;
    picks := Some([p.name] + others.value);
  }

  /**
    A plan led by the preferred node when that is a candidate with room. With at least one replica it
    succeeds exactly when a plan without the preference does: the plain plan it falls back to, when the
    rest cannot be placed beside the preferred node, never rescues a request.
  */
  method PlanPreferring(
    cands: seq<Candidate>, rule: Rule, replicas: nat, size: nat, weight: real, prefer: Option<string>)
    returns (r: Result<(seq<string>, bool), Refusal>, ghost q: seq<Candidate>)
    requires DistinctNames(cands)
    ensures replicas >= 1 ==> (r.Ok? <==> Feasible(Fitting(cands, size), rule, replicas))
    ensures replicas >= 1 && r.Ok? ==> (r.value.1 <==> HasRoom(cands, prefer, size))
    ensures r.Ok? && r.value.1 ==> prefer.Some? && |r.value.0| > 0 && r.value.0[0] == prefer.value
    ensures r.Ok? ==> r.value.0 == NamesOf(q) && |q| == replicas && Spread(q, Fitting(cands, size), rule)
  {
    var p := if prefer.Some? then Find(cands, prefer.value) else None;
    assert HasRoom(cands, prefer, size) <==> p.Some? && p.value.free >= size by {
      if c :| prefer.Some? && c in cands && c.name == prefer.value && c.free >= size {
        SameName(cands, c, p.value);
      }
    }
    if p.Some? && p.value.free >= size && replicas >= 1 {
      var picks;
      picks, q := PlanBeside(cands, rule, replicas, size, weight, p.value);
      if picks.Some? {
        return Ok((picks.value, true)), q;
      }
    }
    FittingIs(cands, size);
    var plain;
    plain, q := Plan(cands, rule, replicas, size, weight);
    match plain {
      case Err(e) =>
        if replicas >= 1 { PlanSucceedsExactly(q, Fitting(cands, size), rule, weight, replicas); }
        r := Err(e);
      case Ok(names) =>
        RankingIsSpread(q, Fitting(cands, size), rule, weight);
        q := q[..replicas];
        assert replicas >= 1 ==> Feasible(Fitting(cands, size), rule, replicas);
        r := Ok((names, false));
    }
  }
}
