/**
  Failure domains of a volume whose rung changes (src/migrate.rs, src/orchestrate.rs). A re-leg and a rebalance pick at the
  volume's rung, a tier migration at the destination pool's; once that is done the volume takes the pool's rung.
*/
module RungTheory {
  import opened Wrappers
  import opened Order
  import opened Placement
  import opened Volumes
  import opened VolumeOps
  import opened Lifecycle
  import opened LifecycleTheory
  import opened RelegTheory
  import P = PlacementTheory
  import R = Rebalance
  import T = TierMigration
  import TierTheory

  /** The registered nodes and the rungs of the federation. */
  datatype Net = Net(nodes: seq<R.Node>, rungs: seq<string>)

  /** The nodes' domains at a rung. */
  function At(net: Net, rung: string): map<string, string> {
    R.Domains(net.nodes, Rule(net.rungs, rung))
  }

  datatype Tiered = Tiered(m: Machine, rung: string)

  /** A step of the volume, or a migration that is done and gives it the pool's rung. */
  datatype Event = Op(step: Step) | Settle(rung: string)

  function DoEvent(t: Tiered, e: Event): Tiered {
    match e
    case Op(s) => t.(m := Do(t.m, s))
    case Settle(rung) => t.(rung := rung)
  }

  function AfterEvents(t: Tiered, run: seq<Event>): Tiered {
    if run == [] then t else DoEvent(AfterEvents(t, run[..|run| - 1]), run[|run| - 1])
  }

  lemma {:induction false} OneEvent(t: Tiered, run: seq<Event>, i: nat)
    requires i < |run|
    ensures AfterEvents(t, run[..i + 1]) == DoEvent(AfterEvents(t, run[..i]), run[i])
  {
    assert run[..i + 1][..i] == run[..i];
  }

  lemma {:induction false} EventsKeepInv(t: Tiered, run: seq<Event>)
    requires Inv(t.m)
    ensures Inv(AfterEvents(t, run).m)
  {
    if run != [] {
      EventsKeepInv(t, run[..|run| - 1]);
      if run[|run| - 1].Op? { StepKeepsInv(AfterEvents(t, run[..|run| - 1]).m, run[|run| - 1].step); }
    }
  }

  // --------------------------------------------------- apart at every point

  predicate LegsApart(net: Net, t: Tiered) {
    ApartLegs(At(net, t.rung), t.m.v.legs)
  }

  /** A replacement that completes is apart at the volume's rung, and a rung is taken at which the legs are. */
  predicate KeepsApart(net: Net, t: Tiered, e: Event) {
    match e
    case Op(s) => CompletesApart(At(net, t.rung), t.m, s)
    case Settle(rung) => ApartLegs(At(net, rung), t.m.v.legs)
  }

  lemma {:induction false} EventApart(net: Net, t: Tiered, e: Event)
    requires Inv(t.m) && LegsApart(net, t)
    ensures LegsApart(net, DoEvent(t, e)) <==> KeepsApart(net, t, e)
  {
    if e.Op? { StepApart(At(net, t.rung), t.m, e.step); }
  }

  lemma {:induction false} LegsApartUpTo(net: Net, t: Tiered, run: seq<Event>, k: nat)
    requires Inv(t.m) && LegsApart(net, t) && k <= |run|
    requires forall i :: 0 <= i < |run| ==> KeepsApart(net, AfterEvents(t, run[..i]), run[i])
    ensures LegsApart(net, AfterEvents(t, run[..k]))
  {
    if k > 0 {
      LegsApartUpTo(net, t, run, k - 1);
      EventsKeepInv(t, run[..k - 1]);
      EventApart(net, AfterEvents(t, run[..k - 1]), run[k - 1]);
      OneEvent(t, run, k - 1);
    }
  }

  /**
   * The legs are in distinct domains at the volume's own rung at every point of a run, exactly when each replacement that
   * completes is apart at the rung of then and each rung is taken with the legs apart at it.
   */
  lemma {:induction false} LegsStayApartExactly(net: Net, t: Tiered, run: seq<Event>)
    requires Inv(t.m) && LegsApart(net, t)
    ensures (forall i :: 0 <= i <= |run| ==> LegsApart(net, AfterEvents(t, run[..i])))
            <==> (forall i :: 0 <= i < |run| ==> KeepsApart(net, AfterEvents(t, run[..i]), run[i]))
  {
    if forall i :: 0 <= i <= |run| ==> LegsApart(net, AfterEvents(t, run[..i])) {
      forall i | 0 <= i < |run| ensures KeepsApart(net, AfterEvents(t, run[..i]), run[i]) {
        assert LegsApart(net, AfterEvents(t, run[..i])) && LegsApart(net, AfterEvents(t, run[..i + 1]));
        EventsKeepInv(t, run[..i]);
        OneEvent(t, run, i);
        EventApart(net, AfterEvents(t, run[..i]), run[i]);
      }
    }
    if forall i :: 0 <= i < |run| ==> KeepsApart(net, AfterEvents(t, run[..i]), run[i]) {
      forall i | 0 <= i <= |run| ensures LegsApart(net, AfterEvents(t, run[..i])) { LegsApartUpTo(net, t, run, i); }
    }
  }

  // ------------------------------------------------ picks and their starts

  predicate MovesALeg(t: Tiered, e: Event) {
    e.Op? && Completes(t.m, e.step)
  }

  /**
   * `target` is one that placement picks for `from` among the legs of some earlier point of the run, at `rung`, and no leg
   * has moved since: a pick as the replacement begins is that of the whole run before it.
   */
  predicate PickedSince(
    net: Net, t: Tiered, run: seq<Event>, rung: string, from: string, target: string, at: nat, healthy: set<string>)
    requires at <= |run|
  {
    && target in MoveTargets(At(net, rung), healthy, AfterEvents(t, run[..at]).m.v.legs, from)
    && forall i :: at <= i < |run| ==> !MovesALeg(AfterEvents(t, run[..i]), run[i])
  }

  ghost predicate Picked(net: Net, t: Tiered, run: seq<Event>, rung: string, from: string, target: string) {
    exists at, healthy :: 0 <= at <= |run| && PickedSince(net, t, run, rung, from, target, at, healthy)
  }

  lemma {:induction false} LegsStayPut(t: Tiered, run: seq<Event>, at: nat, k: nat)
    requires at <= k <= |run| && forall i :: at <= i < |run| ==> !MovesALeg(AfterEvents(t, run[..i]), run[i])
    ensures SameNodes(AfterEvents(t, run[..at]).m.v.legs, AfterEvents(t, run[..k]).m.v.legs)
  {
    if at < k {
      LegsStayPut(t, run, at, k - 1);
      OneEvent(t, run, k - 1);
      EventStaysPut(AfterEvents(t, run[..k - 1]), run[k - 1]);
      SameNodesTrans(AfterEvents(t, run[..at]).m.v.legs, AfterEvents(t, run[..k - 1]).m.v.legs, AfterEvents(t, run[..k]).m.v.legs);
    }
  }

  lemma {:induction false} EventStaysPut(t: Tiered, e: Event)
    requires !MovesALeg(t, e)
    ensures SameNodes(t.m.v.legs, DoEvent(t, e).m.v.legs)
  {
    if e.Op? { NodesStay(t.m, e.step); }
  }

  lemma {:induction false} APickStaysApart(net: Net, t: Tiered, run: seq<Event>, rung: string, from: string, target: string)
    requires Picked(net, t, run, rung, from, target)
    ensures Apart(At(net, rung), AfterEvents(t, run).m.v.legs, from, target)
  {
    var at, healthy :| 0 <= at <= |run| && PickedSince(net, t, run, rung, from, target, at, healthy);
    LegsStayPut(t, run, at, |run|);
    assert run[..|run|] == run;
    SameNodesClash(At(net, rung), AfterEvents(t, run[..at]).m.v.legs, AfterEvents(t, run).m.v.legs, from, target);
  }

  /** The legs, and what is being replaced, are spread at the volume's rung. */
  predicate SpreadAt(net: Net, t: Tiered) {
    Spread(At(net, t.rung), t.m)
  }

  /** A start's target was picked at the volume's rung, and a rung is taken at which the volume is spread. */
  ghost predicate WellPicked(net: Net, t: Tiered, run: seq<Event>, e: Event) {
    var now := AfterEvents(t, run);
    match e
    case Op(s) => Begins(now.m, s) ==> Picked(net, t, run, now.rung, s.from, s.target)
    case Settle(rung) => SpreadAt(net, now.(rung := rung))
  }

  ghost predicate WellPickedThrough(net: Net, t: Tiered, run: seq<Event>) {
    forall i :: 0 <= i < |run| ==> WellPicked(net, t, run[..i], run[i])
  }

  lemma {:induction false} FrontWellPicked(net: Net, t: Tiered, run: seq<Event>)
    requires run != [] && WellPickedThrough(net, t, run)
    ensures WellPickedThrough(net, t, run[..|run| - 1]) && WellPicked(net, t, run[..|run| - 1], run[|run| - 1])
  {
    var last := |run| - 1;
    forall i | 0 <= i < last ensures WellPicked(net, t, run[..last][..i], run[..last][i]) {
      assert run[..last][i] == run[i] && run[..last][..i] == run[..i];
    }
  }

  lemma {:induction false} PicksStaySpread(net: Net, t: Tiered, run: seq<Event>)
    requires Inv(t.m) && SpreadAt(net, t) && WellPickedThrough(net, t, run)
    ensures Inv(AfterEvents(t, run).m) && SpreadAt(net, AfterEvents(t, run))
  {
    EventsKeepInv(t, run);
    if run != [] {
      var front, e := run[..|run| - 1], run[|run| - 1];
      FrontWellPicked(net, t, run);
      PicksStaySpread(net, t, front);
      if e.Op? {
        var now := AfterEvents(t, front);
        if Begins(now.m, e.step) { APickStaysApart(net, t, front, now.rung, e.step.from, e.step.target); }
        StepSpread(At(net, now.rung), now.m, e.step);
      }
    }
  }

  /**
   * Targets that placement picked at the volume's rung, for re-legs and rebalances, keep the legs in distinct domains at
   * it in every run in which no leg moves between the pick and the start.
   */
  lemma {:induction false} PickedTargetsKeepDomainsApart(net: Net, t: Tiered, run: seq<Event>)
    requires Start(t.m) && LegsApart(net, t) && WellPickedThrough(net, t, run)
    ensures LegsApart(net, AfterEvents(t, run)) && SpreadAt(net, AfterEvents(t, run))
  {
    PicksStaySpread(net, t, run);
  }

  // -------------------------------------------------- picks at another rung

  /** A leg outside the pool goes to a target in it that is picked with the domains `dp`. */
  predicate TierPick(dp: map<string, string>, pool: set<string>, healthy: set<string>, legs: seq<Leg>, from: string, to: string) {
    HasLeg(legs, from) && from !in pool && to in pool && to in MoveTargets(dp, healthy, legs, from)
  }

  /** What a step of a migration proposes is such a pick. */
  lemma {:induction false} ProposedIsAPick(d: T.Dest, v: Volume, size: nat, s: T.Step)
    requires T.Registry(d) && T.Follows(d, v, size, s) && s.Move?
    ensures exists healthy :: TierPick(R.Domains(d.nodes, d.rule), TierTheory.PoolNames(d.nodes), healthy, v.legs, s.from, s.to)
  {
    TierTheory.ProposedMoves(d, v, size, s);
    assert TierPick(R.Domains(d.nodes, d.rule), TierTheory.PoolNames(d.nodes), {s.to}, v.legs, s.from, s.to);
  }

  /** Every pick with `dp` keeps legs that are apart in `dv` apart in it. */
  ghost predicate PicksKeepApart(dv: map<string, string>, dp: map<string, string>, pool: set<string>) {
    forall legs, healthy, from, to ::
      DistinctLegs(legs) && ApartLegs(dv, legs) && TierPick(dp, pool, healthy, legs, from, to) ==> NoClash(dv, legs, from, to)
  }

  /** A node of the pool shares its domain in `dv` only with nodes that it shares its domain in `dp` with. */
  predicate PoolRefines(dv: map<string, string>, dp: map<string, string>, pool: set<string>)
    requires dv.Keys == dp.Keys
  {
    forall t, n :: t in pool && t in dv && n in dv && dv[t] == dv[n] ==> dp[t] == dp[n]
  }

  lemma {:induction false} FreshName(names: set<string>) returns (unused: string)
    ensures forall n :: n in names ==> |n| < |unused|
  {
    unused := "x";
    if names != {} {
      var n :| n in names;
      unused := FreshName(names - {n});
      if |unused| <= |n| { unused := n + "x"; }
    }
  }

  /** Two nodes that share a domain in `dv` only: a leg moves beside the other. */
  lemma {:induction false} CoarserPickClashes(
    dv: map<string, string>, dp: map<string, string>, pool: set<string>, t: string, n: string)
    requires dv.Keys == dp.Keys && t in pool && t in dv && n in dv && dv[t] == dv[n] && dp[t] != dp[n]
    ensures !PicksKeepApart(dv, dp, pool)
  {
    var from := FreshName(dv.Keys + pool + {t, n});
    var legs := [NewLeg(n, Created), NewLeg(from, Created)];
    assert legs[1].node == from && legs[0].node == n;
    assert TierPick(dp, pool, {t}, legs, from, t);
    assert !NoClash(dv, legs, from, t);
  }

  /**
   * Picks that a tier migration makes at the pool's rung keep the legs apart at the volume's, whatever legs it has,
   * exactly when nodes of the pool that share a domain with another at the volume's rung share one with it at the pool's.
   */
  lemma {:induction false} TierPicksKeepDomainsApartExactly(dv: map<string, string>, dp: map<string, string>, pool: set<string>)
    requires dv.Keys == dp.Keys
    ensures PicksKeepApart(dv, dp, pool) <==> PoolRefines(dv, dp, pool)
  {
    if !PoolRefines(dv, dp, pool) {
      var t, n :| t in pool && t in dv && n in dv && dv[t] == dv[n] && dp[t] != dp[n];
      CoarserPickClashes(dv, dp, pool, t, n);
    }
  }

  /**
   * A move that a migration proposed, and that begins before another leg moves, keeps the legs apart at the volume's rung
   * in every run whose further starts are apart, exactly when its target is apart at that rung too.
   */
  lemma {:induction false} ATierMoveKeepsDomainsApartExactly(
    net: Net, t: Tiered, d: T.Dest, v: Volume, size: nat, s: T.Step, build: Step)
    requires Inv(t.m) && SpreadAt(net, t) && Begins(t.m, build)
    requires T.Registry(d) && d.nodes == net.nodes && T.Follows(d, v, size, s) && SameNodes(v.legs, t.m.v.legs)
    requires s.Move? && build.from == s.from && build.target == s.to
    ensures Apart(R.Domains(d.nodes, d.rule), t.m.v.legs, s.from, s.to)
    ensures StaysApart(At(net, t.rung), Do(t.m, build)) <==> NoClash(At(net, t.rung), t.m.v.legs, s.from, s.to)
  {
    TierTheory.ProposedMoves(d, v, size, s);
    SameNodesClash(R.Domains(d.nodes, d.rule), v.legs, t.m.v.legs, s.from, s.to);
    AStartKeepsDomainsApartExactly(At(net, t.rung), t.m, build);
  }

  // ------------------------------------------------------ runs that surprise

  const RUNGS := ["rack", "node"]

  function RackNode(name: string, rack: string, member: bool): R.Node {
    R.Node(Candidate(name, map["rack" := rack, "node" := name], 100, 100, None), true, member)
  }

  lemma {:induction false} RackDomain(name: string, rack: string, member: bool)
    ensures Domain(RackNode(name, rack, member).cand, Rule(RUNGS, "rack")) == rack
  {
    var labels := RackNode(name, rack, member).cand.labels;
    assert "rack" != "node" by { assert "rack"[0] == 'r' && "node"[0] == 'n'; }
    assert RUNGS[0] == "rack";
    assert Chain(labels, RUNGS, "rack") == [rack];
  }

  lemma {:induction false} NodeDomain(name: string, rack: string, member: bool)
    ensures Domain(RackNode(name, rack, member).cand, Rule(RUNGS, "node")) == rack + "/" + name
  {
    var labels := RackNode(name, rack, member).cand.labels;
    assert "rack" != "node" by { assert "rack"[0] == 'r' && "node"[0] == 'n'; }
    assert RUNGS[1..] == ["node"];
    assert Chain(labels, ["node"], "node") == [name];
    assert Chain(labels, RUNGS, "node") == [rack, name];
    assert [rack, name][1..] == [name];
    assert Join([name]) == name;
  }

  lemma {:induction false} Letters()
    ensures "b" != "c" && "b" != "d" && "b" != "e" && "b" != "f" && "b" != "h" && "c" != "d" && "c" != "e" && "c" != "f"
            && "c" != "h" && "d" != "e" && "d" != "f" && "d" != "h" && "e" != "f" && "w" != "x" && "w" != "y" && "w" != "z"
            && "x" != "y" && "x" != "z" && "y" != "z"
  {
    assert "b"[0] == 'b' && "c"[0] == 'c' && "d"[0] == 'd' && "e"[0] == 'e' && "f"[0] == 'f' && "h"[0] == 'h';
    assert "w"[0] == 'w' && "x"[0] == 'x' && "y"[0] == 'y' && "z"[0] == 'z';
  }

  lemma {:induction false} LettersInOrder()
    ensures Before("c", "d") && Before("e", "f")
  {
    BeforeIs("c", "d");
    BeforeIs("e", "f");
    assert FirstApart("c", "d", 0) && FirstApart("e", "f", 0);
  }

  function Ops(steps: seq<Step>): (run: seq<Event>)
    ensures |run| == |steps| && forall i :: 0 <= i < |run| ==> run[i] == Op(steps[i])
  {
    seq(|steps|, i requires 0 <= i < |steps| => Op(steps[i]))
  }

  lemma {:induction false} OpsAre(t: Tiered, steps: seq<Step>)
    ensures AfterEvents(t, Ops(steps)) == t.(m := After(t.m, steps))
  {
    if steps != [] {
      OpsAre(t, steps[..|steps| - 1]);
      assert Ops(steps)[..|steps| - 1] == Ops(steps[..|steps| - 1]);
    }
  }

  lemma {:induction false} PicksAreFeasible(d: T.Dest, size: nat, picks: seq<R.Node>)
    requires T.Registry(d)
    requires forall i :: 0 <= i < |picks| ==>
               picks[i] in d.nodes && picks[i].healthy && picks[i].member && picks[i].cand.free >= size
    requires forall i, j :: 0 <= i < j < |picks| ==> Domain(picks[i].cand, d.rule) != Domain(picks[j].cand, d.rule)
    ensures TierTheory.CanHold(d, size, |picks|)
  {
    var q := seq(|picks|, i requires 0 <= i < |picks| => picks[i].cand);
    T.RoomyAre(d.nodes, size);
    assert |q| == |picks| && P.Spread(q, T.RoomyNodes(d.nodes, size), d.rule);
  }

  /** The node may take the leg, and comes first by name of those that may. */
  ghost predicate FirstTaker(d: T.Dest, legs: seq<Leg>, from: string, size: nat, n: R.Node) {
    && n in d.nodes && T.MayTake(d, n, legs, from, size)
    && forall m :: m in d.nodes && T.MayTake(d, m, legs, from, size) ==> m == n || Before(n.cand.name, m.cand.name)
  }

  /** The one leg to move goes to the first node that may take it, where those that may are equally good. */
  lemma {:induction false} OneToMove(d: T.Dest, v: Volume, size: nat, k: nat, n: R.Node)
    requires AllCreated(v.legs) && k < |v.legs| && !T.InPool(d.nodes, v.legs[k].node)
    requires forall i :: 0 <= i < |v.legs| ==> (T.ToMove(d.nodes, v.head, v.legs[i]) <==> i == k)
    requires FirstTaker(d, v.legs, v.legs[k].node, size, n)
    requires forall m :: m in d.nodes ==>
               m.cand.free == n.cand.free && m.cand.total == n.cand.total && m.cand.busy == n.cand.busy
    ensures T.Follows(d, v, size, T.Move(v.legs[k].node, n.cand.name))
  {
    EqualIsBest(d, v.legs, v.legs[k].node, size, n);
    assert T.ToMove(d.nodes, v.head, v.legs[k]) && T.FirstMove(d, v, v.legs[k].node);
  }

  lemma {:induction false} EqualIsBest(d: T.Dest, legs: seq<Leg>, from: string, size: nat, n: R.Node)
    requires FirstTaker(d, legs, from, size, n)
    requires forall m :: m in d.nodes ==>
               m.cand.free == n.cand.free && m.cand.total == n.cand.total && m.cand.busy == n.cand.busy
    ensures T.BestMove(d, legs, from, size, n.cand.name)
  {
    var f := Fitting(T.Candidates(d, d.nodes, legs, from), size);
    forall m | m in d.nodes && T.MayTake(d, m, legs, from, size)
      ensures m.cand == n.cand || Better(n.cand, m.cand, f, d.weight)
    {
      SameScore(n.cand, m.cand, f, d.weight);
    }
  }

  lemma {:induction false} SameScore(a: Candidate, b: Candidate, f: seq<Candidate>, weight: real)
    requires a.free == b.free && a.total == b.total && a.busy == b.busy
    ensures ScoreIn(a, f, weight) == ScoreIn(b, f, weight)
  {
  }

  // A mirror on racks 'w' and 'y', spread by rack, into a pool of two nodes in rack 'w' that spreads by node.

  function HostNodes(): seq<R.Node> {
    [RackNode("h", "w", false), RackNode("b", "y", false), RackNode("c", "w", true), RackNode("d", "w", true)]
  }

  function HostNet(): Net {
    Net(HostNodes(), RUNGS)
  }

  function HostPool(): T.Dest {
    T.Dest(HostNodes(), Rule(RUNGS, "node"), 0.0)
  }

  const HOSTS := {"h", "b", "c", "d"}

  function HostVolume(assembly: Assembly, head: Option<string>, arrayId: Option<string>, other: string): Volume {
    Volume("v", [NewLeg("h", Created), NewLeg(other, Created)], assembly, head, arrayId, None, None, None, 1, false, None)
  }

  lemma {:induction false} HostRegistry()
    ensures T.Registry(HostPool())
  {
    Letters();
  }

  lemma {:induction false} HostDomains()
    ensures var dom := At(HostNet(), "rack");
            && "h" in dom && "b" in dom && "c" in dom && "d" in dom
            && dom["h"] == "w" && dom["b"] == "y" && dom["c"] == "w" && dom["d"] == "w"
    ensures var dom := At(HostNet(), "node");
            && "h" in dom && "b" in dom && "c" in dom && "d" in dom
            && dom["h"] == "w/h" && dom["b"] == "y/b" && dom["c"] == "w/c" && dom["d"] == "w/d"
  {
    HostRegistry();
    TierTheory.DomainsAre(HostNodes(), Rule(RUNGS, "rack"));
    TierTheory.DomainsAre(HostNodes(), Rule(RUNGS, "node"));
    var nodes := HostNodes();
    assert nodes[0] in nodes && nodes[1] in nodes && nodes[2] in nodes && nodes[3] in nodes;
    RackDomain("h", "w", false);
    RackDomain("b", "y", false);
    RackDomain("c", "w", true);
    RackDomain("d", "w", true);
    NodeDomain("h", "w", false);
    NodeDomain("b", "y", false);
    NodeDomain("c", "w", true);
    NodeDomain("d", "w", true);
  }

  lemma {:induction false} Paths()
    ensures "w/h" != "w/c" && "w/h" != "w/d" && "w/c" != "w/d" && "y/b" != "w/c" && "y/b" != "w/h"
  {
    assert "w/h"[2] == 'h' && "w/c"[2] == 'c' && "w/d"[2] == 'd' && "y/b"[0] == 'y' && "w/c"[0] == 'w' && "w/h"[0] == 'w';
  }

  /** The pool can hold the volume: a start is granted. */
  lemma {:induction false} HostFeasible()
    ensures TierTheory.CanHold(HostPool(), 10, 2)
  {
    var nodes := HostNodes();
    HostRegistry();
    NodeDomain("c", "w", true);
    NodeDomain("d", "w", true);
    Paths();
    var picks := [nodes[2], nodes[3]];
    assert picks[0] == RackNode("c", "w", true) && picks[1] == RackNode("d", "w", true);
    assert "w" + "/" + "c" == "w/c" && "w" + "/" + "d" == "w/d";
    PicksAreFeasible(HostPool(), 10, picks);
  }

  lemma {:induction false} HostInPool(node: string)
    ensures T.InPool(HostNodes(), node) <==> node == "c" || node == "d"
  {
    Letters();
    var nodes := HostNodes();
    assert nodes[2].cand.name == "c" && nodes[2].member && nodes[3].cand.name == "d" && nodes[3].member;
    if T.InPool(nodes, node) {
      var i :| 0 <= i < |nodes| && nodes[i].cand.name == node && nodes[i].member;
      assert i == 2 || i == 3;
    }
  }

  lemma {:induction false} HostTakes()
    ensures FirstTaker(HostPool(), HostVolume(Assembled, Some("h"), Some("r"), "b").legs, "b", 10, HostNodes()[2])
  {
    Letters();
    Paths();
    HostDomains();
    LettersInOrder();
    var legs := HostVolume(Assembled, Some("h"), Some("r"), "b").legs;
    assert legs[0].node == "h" && legs[1].node == "b";
    assert HostNodes()[3].cand.name == "d";
  }

  lemma {:induction false} HostMoves()
    ensures T.Follows(HostPool(), HostVolume(Assembled, Some("h"), Some("r"), "b"), 10, T.Move("b", "c"))
  {
    HostToMove();
    HostTakes();
    OneToMove(HostPool(), HostVolume(Assembled, Some("h"), Some("r"), "b"), 10, 1, HostNodes()[2]);
  }

  lemma {:induction false} HostToMove()
    ensures var v := HostVolume(Assembled, Some("h"), Some("r"), "b");
            !T.InPool(HostNodes(), v.legs[1].node) && AllCreated(v.legs)
            && forall i :: 0 <= i < 2 ==> (T.ToMove(HostNodes(), v.head, v.legs[i]) <==> i == 1)
  {
    Letters();
    HostInPool("h");
    HostInPool("b");
  }

  lemma {:induction false} HostWaits()
    ensures T.Follows(HostPool(), HostVolume(Assembled, Some("h"), Some("r"), "c"), 10, T.WaitingHandover)
  {
    var v := HostVolume(Assembled, Some("h"), Some("r"), "c");
    Letters();
    HostInPool("h");
    HostInPool("c");
    assert v.legs[0].node == "h" && v.legs[1].node == "c";
  }

  function CreatedHosts(): Tiered {
    Tiered(Machine(HostVolume(Pending, None, None, "b"), false, []), "rack")
  }

  function AssembledHosts(): Machine {
    Machine(HostVolume(Assembled, Some("h"), Some("r"), "b"), false, [])
  }

  function HostSteps(): seq<Step> {
    [Step.Assemble("r")] + ([Build("b", "c", HOSTS)] + Rest("c"))
  }

  lemma {:induction false} HostStarts()
    ensures Start(CreatedHosts().m) && LegsApart(HostNet(), CreatedHosts())
    ensures Inv(AssembledHosts()) && Do(CreatedHosts().m, Step.Assemble("r")) == AssembledHosts()
  {
    HostsAreApart();
    assert MayAssemble(CreatedHosts().m.v);
  }

  lemma {:induction false} HostsAreApart()
    ensures DistinctLegs(CreatedHosts().m.v.legs) && LegsApart(HostNet(), CreatedHosts())
  {
    Letters();
    HostDomains();
  }

  lemma {:induction false} HostEnds()
    ensures After(CreatedHosts().m, HostSteps()).v == HostVolume(Assembled, Some("h"), Some("r"), "c")
  {
    Letters();
    HostStarts();
    var m := AssembledHosts();
    assert m.v.legs[1].node == "b";
    assert HasLeg(m.v.legs, "b") && !HasLeg(m.v.legs, "c");
    ReplaceDone(m, Build("b", "c", HOSTS));
    AfterCons(CreatedHosts().m, Step.Assemble("r"), [Build("b", "c", HOSTS)] + Rest("c"));
    AfterCons(m, Build("b", "c", HOSTS), Rest("c"));
  }

  lemma {:induction false} HostRun()
    ensures var run := Ops(HostSteps());
            && AfterEvents(CreatedHosts(), run[..1]) == Tiered(AssembledHosts(), "rack")
            && AfterEvents(CreatedHosts(), run).m.v == HostVolume(Assembled, Some("h"), Some("r"), "c")
            && AfterEvents(CreatedHosts(), run).rung == "rack"
  {
    var run := Ops(HostSteps());
    HostStarts();
    HostEnds();
    OpsAre(CreatedHosts(), HostSteps());
    OneEvent(CreatedHosts(), run, 0);
    assert run[..0] == [];
  }

  lemma {:induction false} HostSteps1()
    ensures Ops(HostSteps())[1] == Op(Build("b", "c", HOSTS))
  {
  }

  lemma {:induction false} HostsShareARack(t: Tiered)
    requires t.m.v == HostVolume(Assembled, Some("h"), Some("r"), "c") && t.rung == "rack"
    ensures !LegsApart(HostNet(), t)
  {
    HostDomains();
    assert t.m.v.legs[0].node == "h" && t.m.v.legs[1].node == "c";
  }

  /**
   * The migration could start, its first step proposes the move, no leg moves before it begins: and two legs share a rack,
   * which the volume's rung keeps apart. The migration then waits for the head's own leg, so it stays so.
   */
  lemma {:induction false} ATierMoveJoinsDomains()
    ensures Start(CreatedHosts().m) && LegsApart(HostNet(), CreatedHosts())
    ensures T.Registry(HostPool()) && TierTheory.CanHold(HostPool(), 10, 2)
    ensures var run := Ops(HostSteps());
            && T.Follows(HostPool(), AfterEvents(CreatedHosts(), run[..1]).m.v, 10, T.Move("b", "c"))
            && run[1] == Op(Build("b", "c", HOSTS))
            && T.Follows(HostPool(), AfterEvents(CreatedHosts(), run).m.v, 10, T.WaitingHandover)
            && !LegsApart(HostNet(), AfterEvents(CreatedHosts(), run))
  {
    HostStarts();
    HostRegistry();
    HostFeasible();
    HostMoves();
    HostWaits();
    HostRun();
    HostSteps1();
    HostsShareARack(AfterEvents(CreatedHosts(), Ops(HostSteps())));
  }

  // A volume spread by node, with two legs in one rack of a pool that spreads by rack, and one leg outside it.

  function RackNodes(): seq<R.Node> {
    [RackNode("b", "z", false), RackNode("c", "w", true), RackNode("d", "w", true), RackNode("e", "x", true),
     RackNode("f", "y", true)]
  }

  function RackPool(): T.Dest {
    T.Dest(RackNodes(), Rule(RUNGS, "rack"), 0.0)
  }

  function RackVolume(other: string): Volume {
    Volume("v", [NewLeg("c", Created), NewLeg("d", Created), NewLeg(other, Created)], Assembled, Some("c"), Some("r"),
           None, None, None, 1, false, None)
  }

  lemma {:induction false} RackDomains()
    ensures T.Registry(RackPool())
    ensures var dom := R.Domains(RackNodes(), Rule(RUNGS, "rack"));
            && "b" in dom && "c" in dom && "d" in dom && "e" in dom && "f" in dom
            && dom["b"] == "z" && dom["c"] == "w" && dom["d"] == "w" && dom["e"] == "x" && dom["f"] == "y"
  {
    Letters();
    TierTheory.DomainsAre(RackNodes(), Rule(RUNGS, "rack"));
    var nodes := RackNodes();
    assert nodes[0] in nodes && nodes[1] in nodes && nodes[2] in nodes && nodes[3] in nodes && nodes[4] in nodes;
    RackDomain("b", "z", false);
    RackDomain("c", "w", true);
    RackDomain("d", "w", true);
    RackDomain("e", "x", true);
    RackDomain("f", "y", true);
  }

  lemma {:induction false} RackFeasible()
    ensures TierTheory.CanHold(RackPool(), 10, 3)
  {
    var nodes := RackNodes();
    Letters();
    RackDomains();
    RackDomain("c", "w", true);
    RackDomain("e", "x", true);
    RackDomain("f", "y", true);
    PicksAreFeasible(RackPool(), 10, [nodes[1], nodes[3], nodes[4]]);
  }

  lemma {:induction false} RackInPool(node: string)
    ensures T.InPool(RackNodes(), node) <==> node == "c" || node == "d" || node == "e" || node == "f"
  {
    Letters();
    var nodes := RackNodes();
    assert nodes[1].cand.name == "c" && nodes[2].cand.name == "d" && nodes[3].cand.name == "e" && nodes[4].cand.name == "f";
    assert nodes[1].member && nodes[2].member && nodes[3].member && nodes[4].member;
    if T.InPool(nodes, node) {
      var i :| 0 <= i < |nodes| && nodes[i].cand.name == node && nodes[i].member;
      assert i == 1 || i == 2 || i == 3 || i == 4;
    }
  }

  lemma {:induction false} RackTakes()
    ensures FirstTaker(RackPool(), RackVolume("b").legs, "b", 10, RackNodes()[3])
  {
    Letters();
    RackDomains();
    LettersInOrder();
    var legs := RackVolume("b").legs;
    assert legs[0].node == "c" && legs[1].node == "d" && legs[2].node == "b";
    assert RackNodes()[1].cand.name == "c" && RackNodes()[2].cand.name == "d" && RackNodes()[4].cand.name == "f";
  }

  lemma {:induction false} RackToMove()
    ensures var v := RackVolume("b");
            !T.InPool(RackNodes(), v.legs[2].node) && AllCreated(v.legs)
            && forall i :: 0 <= i < 3 ==> (T.ToMove(RackNodes(), v.head, v.legs[i]) <==> i == 2)
  {
    Letters();
    RackInPool("b");
    RackInPool("c");
    RackInPool("d");
  }

  lemma {:induction false} RackMoves()
    ensures T.Follows(RackPool(), RackVolume("b"), 10, T.Move("b", "e"))
  {
    RackToMove();
    RackTakes();
    OneToMove(RackPool(), RackVolume("b"), 10, 2, RackNodes()[3]);
  }

  lemma {:induction false} RackEnds()
    ensures T.Follows(RackPool(), RackVolume("e"), 10, T.Done)
    ensures SameNodes(TierTheory.Placed(RackVolume("b").legs, "b", "e"), RackVolume("e").legs)
  {
    var v := RackVolume("e");
    Letters();
    RackInPool("c");
    RackInPool("d");
    RackInPool("e");
    assert v.legs[0].node == "c" && v.legs[1].node == "d" && v.legs[2].node == "e";
    assert IndexOn(RackVolume("b").legs, "b") == 2;
  }

  function RackRounds(): seq<TierTheory.Round> {
    [TierTheory.Round(RackPool(), RackVolume("b"), T.Move("b", "e"), true),
     TierTheory.Round(RackPool(), RackVolume("e"), T.Done, true)]
  }

  lemma {:induction false} ReadsItsPool(d: T.Dest, size: nat, rounds: seq<TierTheory.Round>, i: nat)
    requires i < |rounds| && rounds[i].d == d && T.Registry(d) && T.Follows(d, rounds[i].v, size, rounds[i].s)
    ensures TierTheory.ReadsAt(d, size, rounds, i)
  {
  }

  lemma {:induction false} TwoRounds(d: T.Dest, size: nat, v: Volume, from: string, to: string, w: Volume, s: T.Step)
    requires T.Registry(d) && T.Follows(d, v, size, T.Move(from, to)) && T.Follows(d, w, size, s)
    requires SameNodes(TierTheory.Placed(v.legs, from, to), w.legs)
    ensures TierTheory.Migrates(d, size, [TierTheory.Round(d, v, T.Move(from, to), true), TierTheory.Round(d, w, s, true)])
  {
    var rounds := [TierTheory.Round(d, v, T.Move(from, to), true), TierTheory.Round(d, w, s, true)];
    ReadsItsPool(d, size, rounds, 0);
    ReadsItsPool(d, size, rounds, 1);
    assert TierTheory.Leads(rounds, 1);
  }

  lemma {:induction false} RackIsRun()
    ensures TierTheory.Migrates(RackPool(), 10, RackRounds())
  {
    RackDomains();
    RackMoves();
    RackEnds();
    TwoRounds(RackPool(), 10, RackVolume("b"), "b", "e", RackVolume("e"), T.Done);
  }

  lemma {:induction false} RacksShareADomain()
    ensures DistinctLegs(RackVolume("b").legs)
    ensures !ApartLegs(R.Domains(RackNodes(), Rule(RUNGS, "rack")), RackVolume("e").legs)
  {
    Letters();
    RackDomains();
    var legs := RackVolume("e").legs;
    assert legs[0].node == "c" && legs[1].node == "d";
  }

  /**
   * The migration could start, moves the one leg outside the pool, and is done: at the pool's rung, which the volume then
   * takes, the two legs that were in the pool share a domain.
   */
  lemma {:induction false} ADoneMigrationJoinsDomains()
    ensures var rounds := RackRounds();
            && TierTheory.CanHold(RackPool(), 10, 3) && TierTheory.Migrates(RackPool(), 10, rounds) && rounds[1].s.Done?
            && DistinctLegs(rounds[0].v.legs) && !ApartLegs(R.Domains(RackNodes(), Rule(RUNGS, "rack")), rounds[1].v.legs)
  {
    RackFeasible();
    RackIsRun();
    RacksShareADomain();
  }
}
