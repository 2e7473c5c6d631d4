/**
  Placement (src/placement.rs): one node per failure domain for the legs of a volume, the emptier and
  colder first. Scores are reals.
*/
module Placement {
  import opened Wrappers
  import opened Order
  import opened Sorting

  datatype Candidate = Candidate(
    name: string, labels: map<string, string>, free: nat, total: nat, busy: Option<real>)

  /** The rungs of the federation, the top one first, and the one copies are spread at. */
  datatype Rule = Rule(rungs: seq<string>, rung: string)

  // --------------------------------------------------------------- domains

  /** The labels a node has from the top rung down to and including `rung`. */
  function Chain(labels: map<string, string>, rungs: seq<string>, rung: string): seq<string> {
    if rungs == [] then []
    else
      var own := if rungs[0] in labels then [labels[rungs[0]]] else [];
      if rungs[0] == rung then own else own + Chain(labels, rungs[1..], rung)
  }

  function Join(parts: seq<string>): string {
    if parts == [] then "" else if |parts| == 1 then parts[0] else parts[0] + "/" + Join(parts[1..])
  }

  function DomainAt(labels: map<string, string>, rule: Rule): string {
    var parts := Chain(labels, rule.rungs, rule.rung);
    if parts != [] then Join(parts) else if "node" in labels then labels["node"] else "?"
  }

  /** What the chain still takes in from the `i`-th rung on. */
  function ChainRest(labels: map<string, string>, rule: Rule, i: nat): seq<string>
    requires i <= |rule.rungs|
  {
    Chain(labels, rule.rungs[i..], rule.rung)
  }

  lemma {:induction false} ChainFrom(labels: map<string, string>, rule: Rule, i: nat)
    requires i < |rule.rungs|
    ensures ChainRest(labels, rule, i)
            == (if rule.rungs[i] in labels then [labels[rule.rungs[i]]] else [])
               + (if rule.rungs[i] == rule.rung then [] else ChainRest(labels, rule, i + 1))
  {
    assert rule.rungs[i..][1..] == rule.rungs[i + 1..];
  }

  method ComputeDomain(labels: map<string, string>, rule: Rule) returns (domain: string)
    ensures domain == DomainAt(labels, rule)
  {
    var parts := ComputeChain(labels, rule);
    if parts == [] {
      domain := if "node" in labels then labels["node"] else "?";
    } else {
      domain := Join(parts);
    }
  }

  method ComputeChain(labels: map<string, string>, rule: Rule) returns (parts: seq<string>)
    ensures parts == Chain(labels, rule.rungs, rule.rung)
  {
    parts := [];
    ghost var whole := ChainRest(labels, rule, 0);
    assert rule.rungs[0..] == rule.rungs;
    var i := 0;
    while i < |rule.rungs|
      invariant 0 <= i <= |rule.rungs|
      invariant parts + ChainRest(labels, rule, i) == whole
    {
      var r := rule.rungs[i];
      ChainFrom(labels, rule, i);
      if r in labels {
        parts := parts + [labels[r]];
      }
      if r == rule.rung {
        return;
      }
      i := i + 1;
    }
  }

  // ---------------------------------------------------------------- scores

  function FreeRatio(c: Candidate): real {
    if c.total == 0 then 0.0 else c.free as real / c.total as real
  }

  function Max(a: real, b: real): real {
    if a >= b then a else b
  }

  function Clamp(w: real): real {
    if w < 0.0 then 0.0 else if w > 1.0 then 1.0 else w
  }

  /** The busiest known reading, the sum of the known ones and how many there are. */
  datatype Load = Load(max: real, sum: real, count: nat)

  function AddLoad(l: Load, c: Candidate): Load {
    match c.busy
    case None => l
    case Some(b) => Load(Max(l.max, Max(b, 0.0)), l.sum + Max(b, 0.0), l.count + 1)
  }

  function LoadOf(cands: seq<Candidate>): Load {
    if cands == [] then Load(0.0, 0.0, 0) else AddLoad(LoadOf(cands[..|cands| - 1]), cands[|cands| - 1])
  }

  function Score(c: Candidate, l: Load, weight: real): real {
    var w := Clamp(weight);
    var mean := if l.count == 0 then 0.0 else l.sum / l.count as real;
    var busy := if c.busy.Some? then Max(c.busy.value, 0.0) else mean;
    var cold := if l.max > 0.0 then 1.0 - busy / l.max else 1.0;
    (1.0 - w) * FreeRatio(c) + w * cold
  }

  /** How good a home a candidate is among `f`. */
  function ScoreIn(c: Candidate, f: seq<Candidate>, weight: real): real {
    Score(c, LoadOf(f), weight)
  }

  // --------------------------------------------------------------- ranking

  ghost predicate DistinctNames(cands: seq<Candidate>) {
    forall i, j :: 0 <= i < j < |cands| ==> cands[i].name != cands[j].name
  }

  function Fitting(cands: seq<Candidate>, size: nat): seq<Candidate> {
    if cands == [] then []
    else
      var init, c := Fitting(cands[..|cands| - 1], size), cands[|cands| - 1];
      if c.free >= size then init + [c] else init
  }

  function Domain(c: Candidate, rule: Rule): string {
    DomainAt(c.labels, rule)
  }

  /** A higher score, or the same and the earlier name. */
  predicate Better(a: Candidate, b: Candidate, f: seq<Candidate>, weight: real) {
    ScoreIn(a, f, weight) > ScoreIn(b, f, weight)
    || (ScoreIn(a, f, weight) == ScoreIn(b, f, weight) && Before(a.name, b.name))
  }

  /** The best of `part` in its domain, scored among `f`. */
  ghost predicate BestIn(c: Candidate, part: seq<Candidate>, f: seq<Candidate>, rule: Rule, weight: real) {
    && c in part
    && (forall x :: x in part && Domain(x, rule) == Domain(c, rule) ==> x == c || Better(c, x, f, weight))
  }

  /** The best of every domain, the best of all first. */
  ghost predicate IsRanking(b: seq<Candidate>, f: seq<Candidate>, rule: Rule, weight: real) {
    && (forall c :: c in b <==> BestIn(c, f, f, rule, weight))
    && Sorted(b, f, weight)
  }

  ghost predicate Sorted(b: seq<Candidate>, f: seq<Candidate>, weight: real) {
    forall i, j :: 0 <= i < j < |b| ==> Better(b[i], b[j], f, weight)
  }

  function NamesOf(cs: seq<Candidate>): (ns: seq<string>)
    ensures |ns| == |cs|
  {
    seq(|cs|, i requires 0 <= i < |cs| => cs[i].name)
  }

  datatype Refusal = NoRoom | TooFewDomains(found: nat)

  /** What a plan answers, given the ranking of the fitting candidates. */
  function Answer(b: seq<Candidate>, f: seq<Candidate>, replicas: nat): Result<seq<string>, Refusal> {
    if f == [] then Err(NoRoom)
    else if |b| < replicas then Err(TooFewDomains(|b|))
    else Ok(NamesOf(b[..replicas]))
  }

  lemma {:induction false} BetterTrichotomy(a: Candidate, b: Candidate, f: seq<Candidate>, weight: real)
    ensures !(Better(a, b, f, weight) && Better(b, a, f, weight))
    ensures a.name != b.name ==> Better(a, b, f, weight) || Better(b, a, f, weight)
  {
    BeforeTrichotomy(a.name, b.name);
  }

  lemma {:induction false} BetterTransitive(a: Candidate, b: Candidate, c: Candidate, f: seq<Candidate>, weight: real)
    requires Better(a, b, f, weight) && Better(b, c, f, weight)
    ensures Better(a, c, f, weight)
  {
    if Before(a.name, b.name) && Before(b.name, c.name) { BeforeTransitive(a.name, b.name, c.name); }
  }

  lemma {:induction false} FittingIs(cands: seq<Candidate>, size: nat)
    ensures forall c :: c in Fitting(cands, size) <==> c in cands && c.free >= size
    ensures DistinctNames(cands) ==> DistinctNames(Fitting(cands, size))
  {
    if cands != [] {
      var init := cands[..|cands| - 1];
      FittingIs(init, size);
      assert forall c :: c in cands <==> c in init || c == cands[|cands| - 1];
      if DistinctNames(cands) {
        forall c | c in init ensures c.name != cands[|cands| - 1].name {}
      }
    }
  }

  lemma {:induction false} SameName(cands: seq<Candidate>, a: Candidate, b: Candidate)
    requires DistinctNames(cands) && a in cands && b in cands && a.name == b.name
    ensures a == b
  {
    var i :| 0 <= i < |cands| && cands[i] == a;
    var j :| 0 <= j < |cands| && cands[j] == b;
    assert !(i < j) && !(j < i);
  }

  /** The best of each domain among the first `i`. */
  ghost predicate BestSoFar(domains: map<string, Candidate>, f: seq<Candidate>, i: nat, rule: Rule, weight: real)
    requires i <= |f|
  {
    && (forall d :: d in domains ==> Domain(domains[d], rule) == d && BestIn(domains[d], f[..i], f, rule, weight))
    && (forall c :: c in f[..i] ==> Domain(c, rule) in domains)
  }

  lemma {:induction false} OneMore(domains: map<string, Candidate>, f: seq<Candidate>, i: nat, rule: Rule, weight: real)
    requires i < |f| && DistinctNames(f) && BestSoFar(domains, f, i, rule, weight)
    ensures var c, d := f[i], Domain(f[i], rule);
            BestSoFar(if d !in domains || Better(c, domains[d], f, weight) then domains[d := c] else domains, f, i + 1, rule, weight)
  {
    var c, d := f[i], Domain(f[i], rule);
    assert forall x :: x in f[..i + 1] <==> x in f[..i] || x == c;
    if d in domains {
      var cur := domains[d];
      assert cur.name != c.name by {
        var k :| 0 <= k < i && f[k] == cur;
      }
      BetterTrichotomy(c, cur, f, weight);
      forall x | x in f[..i] && Better(c, cur, f, weight) && Better(cur, x, f, weight) ensures Better(c, x, f, weight) {
        BetterTransitive(c, cur, x, f, weight);
      }
    }
  }

  // ------------------------------------------------------------------ plan

  method Plan(candidates: seq<Candidate>, rule: Rule, replicas: nat, size: nat, weight: real)
    returns (r: Result<seq<string>, Refusal>, ghost ranking: seq<Candidate>)
    requires DistinctNames(candidates)
    ensures r == Err(NoRoom) <==> Fitting(candidates, size) == []
    ensures r.Ok? ==> |r.value| == replicas
    ensures IsRanking(ranking, Fitting(candidates, size), rule, weight)
    ensures r == Answer(ranking, Fitting(candidates, size), replicas)
  {
    var fitting := Fitting(candidates, size);
    FittingIs(candidates, size);
    if fitting == [] {
      ranking := [];
      return Err(NoRoom), ranking;
    }
    var domains: map<string, Candidate> := map[];
    var i := 0;
    while i < |fitting|
      invariant 0 <= i <= |fitting|
      invariant BestSoFar(domains, fitting, i, rule, weight)
    {
      var c := fitting[i];
      var d := ComputeDomain(c.labels, rule);
      OneMore(domains, fitting, i, rule, weight);
      if d !in domains || Better(c, domains[d], fitting, weight) {
        domains := domains[d := c];
      }
      i := i + 1;
    }
    assert fitting[..|fitting|] == fitting;
    var picks := Values(domains, rule);
    forall j, k | 0 <= j < k < |picks| ensures picks[j].name != picks[k].name {
      assert picks[j] in picks && picks[k] in picks;
      if picks[j].name == picks[k].name { SameName(fitting, picks[j], picks[k]); }
    }
    forall j, k | 0 <= j < k < |picks|
      ensures Better(picks[j], picks[k], fitting, weight) || Better(picks[k], picks[j], fitting, weight)
    {
      BetterTrichotomy(picks[j], picks[k], fitting, weight);
    }
    forall a, b, c | Better(a, b, fitting, weight) && Better(b, c, fitting, weight) ensures Better(a, c, fitting, weight) {
      BetterTransitive(a, b, c, fitting, weight);
    }
    picks := SortBy(picks, (a, b) => Better(a, b, fitting, weight));
    forall c ensures c in picks <==> BestIn(c, fitting, fitting, rule, weight) {
      if BestIn(c, fitting, fitting, rule, weight) {
        BetterTrichotomy(c, domains[Domain(c, rule)], fitting, weight);
        assert c == domains[Domain(c, rule)];
      }
    }
    ranking := picks;
    if |picks| < replicas {
      return Err(TooFewDomains(|picks|)), ranking;
    }
    r := Ok(NamesOf(picks[..replicas]));
  }

  /** The values of the domain map, in some order. */
  method Values(domains: map<string, Candidate>, ghost rule: Rule)
    returns (vs: seq<Candidate>)
    requires forall d :: d in domains ==> Domain(domains[d], rule) == d
    ensures forall c :: c in vs <==> exists d :: d in domains && domains[d] == c
    ensures forall i, j :: 0 <= i < j < |vs| ==> vs[i] != vs[j]
  {
    vs := [];
    var left := domains.Keys;
    while left != {}
      invariant left <= domains.Keys
      invariant forall c :: c in vs <==> exists d :: d in domains && d !in left && domains[d] == c
      invariant forall c :: c in vs ==> Domain(c, rule) !in left
      invariant forall i, j :: 0 <= i < j < |vs| ==> vs[i] != vs[j]
      decreases left
    {
      var d :| d in left;
      vs := vs + [domains[d]];
      left := left - {d};
    }
  }
}
