/** What a rebalance pass promises, and why passes come to an end (src/rebalance.rs). */
module RebalanceTheory {
  import opened Wrappers
  import opened Placement
  import opened Volumes
  import opened VolumeOps
  import opened Rebalance

  ghost predicate Receives(moves: seq<Move>, node: string) {
    exists i :: 0 <= i < |moves| && moves[i].to == node
  }

  function Incoming(moves: seq<Move>, node: string): nat {
    Extra(PromisedTo(moves), node)
  }

  lemma {:induction false} MoveOf(f: Fleet, moves: seq<Move>, i: nat) returns (src: Node, v: Vol, dst: Node)
    requires MovesOk(f, moves) && i < |moves|
    ensures src in f.nodes && src.cand.name == moves[i].from && Source(f, src)
    ensures v in f.vols && v.v.name == moves[i].volume && v.size == moves[i].size && Movable(f, v, moves[i].from)
    ensures dst in f.nodes && dst.cand.name == moves[i].to
            && Fits(f, dst, v, moves[i].from, Incoming(moves[..i], moves[i].to))
  {
    assert MoveOk(f, moves, i);
    src, v :| src in f.nodes && v in f.vols && Source(f, src) && src.cand.name == moves[i].from
              && v.v.name == moves[i].volume && v.size == moves[i].size && Movable(f, v, moves[i].from)
              && BestTarget(f, v, moves[i].from, PromisedTo(moves[..i]), moves[i].to);
    var k :| 0 <= k < |f.nodes| && f.nodes[k].cand.name == moves[i].to
             && Fits(f, f.nodes[k], v, moves[i].from, Extra(PromisedTo(moves[..i]), moves[i].to));
    dst := f.nodes[k];
  }

  lemma {:induction false} FrontOk(f: Fleet, moves: seq<Move>)
    requires MovesOk(f, moves) && moves != []
    ensures MovesOk(f, moves[..|moves| - 1])
  {
    var front := moves[..|moves| - 1];
    forall i | 0 <= i < |front| ensures MoveOk(f, front, i) {
      assert MoveOk(f, moves, i) && front[..i] == moves[..i];
    }
  }

  lemma {:induction false} IncomingStep(moves: seq<Move>, node: string)
    requires moves != []
    ensures var front, m := moves[..|moves| - 1], moves[|moves| - 1];
            Incoming(moves, node) == Incoming(front, node) + if m.to == node then m.size else 0
  {
  }

  lemma {:induction false} LastFits(f: Fleet, moves: seq<Move>, n: Node)
    requires Registry(f) && MovesOk(f, moves) && n in f.nodes && moves != [] && moves[|moves| - 1].to == n.cand.name
    ensures var front, m := moves[..|moves| - 1], moves[|moves| - 1];
            (UsedBytes(n.cand) + Incoming(front, n.cand.name) + m.size) as real <= f.high * n.cand.total as real
  {
    var src, v, dst := MoveOf(f, moves, |moves| - 1);
    SameNode(f, dst, n);
    FitsIsBytes(f, dst, v, moves[|moves| - 1].from, Incoming(moves[..|moves| - 1], n.cand.name));
  }

  /** Every target stays at or under the high watermark with everything the pass promised to it. */
  lemma {:induction false} TargetsStayUnderHigh(f: Fleet, moves: seq<Move>, n: Node)
    requires Registry(f) && MovesOk(f, moves) && n in f.nodes && Receives(moves, n.cand.name)
    ensures (UsedBytes(n.cand) + Incoming(moves, n.cand.name)) as real <= f.high * n.cand.total as real
  {
    var front, m := moves[..|moves| - 1], moves[|moves| - 1];
    IncomingStep(moves, n.cand.name);
    if m.to == n.cand.name {
      LastFits(f, moves, n);
    } else {
      var i :| 0 <= i < |moves| && moves[i].to == n.cand.name;
      assert front[i] == moves[i];
      FrontOk(f, moves);
      TargetsStayUnderHigh(f, front, n);
    }
  }

  // ------------------------------------------------- in the bytes of the legs

  /** The bytes a new leg of the volume with that name is made at. */
  function LegBytesOf(vols: seq<Vol>, volume: string): nat {
    if vols == [] then 0
    else
      var v := vols[|vols| - 1];
      if v.v.name == volume then LegBytes(v) else LegBytesOf(vols[..|vols| - 1], volume)
  }

  lemma {:induction false} LegBytesAre(vols: seq<Vol>, v: Vol)
    requires v in vols && forall i, j :: 0 <= i < j < |vols| ==> vols[i].v.name != vols[j].v.name
    ensures LegBytesOf(vols, v.v.name) == LegBytes(v)
  {
    var last := |vols| - 1;
    if v != vols[last] {
      var k :| 0 <= k < |vols| && vols[k] == v;
      assert vols[..last][k] == v;
      LegBytesAre(vols[..last], v);
    }
  }

  /** What the legs that the moves make on a node take. */
  function Made(vols: seq<Vol>, moves: seq<Move>, node: string): nat {
    if moves == [] then 0
    else
      var m := moves[|moves| - 1];
      Made(vols, moves[..|moves| - 1], node) + if m.to == node then LegBytesOf(vols, m.volume) else 0
  }

  /** With `made` bytes more the node stays at or under the high watermark. */
  predicate StaysUnder(f: Fleet, n: Node, made: nat) {
    n.cand.total > 0 && (UsedBytes(n.cand) + made) as real / n.cand.total as real <= f.high
  }

  /** The guard of the i-th move with the bytes of the legs, its own too, in place of the sizes on record. */
  ghost predicate AsksForLegs(f: Fleet, moves: seq<Move>, i: nat)
    requires i < |moves|
  {
    forall n :: n in f.nodes && n.cand.name == moves[i].to ==>
      StaysUnder(f, n, Made(f.vols, moves[..i + 1], n.cand.name))
  }

  /** The same without the division. */
  predicate FitsUnder(f: Fleet, n: Node, made: nat) {
    (UsedBytes(n.cand) + made) as real <= f.high * n.cand.total as real
  }

  predicate UnderHigh(f: Fleet, moves: seq<Move>, n: Node) {
    FitsUnder(f, n, Made(f.vols, moves, n.cand.name))
  }

  /** Every target is at or under the high watermark once the legs the pass makes are there. */
  ghost predicate TargetsUnderHigh(f: Fleet, moves: seq<Move>) {
    forall n :: n in f.nodes && Receives(moves, n.cand.name) ==> UnderHigh(f, moves, n)
  }

  lemma {:induction false} UnderIsBytes(f: Fleet, n: Node, made: nat)
    requires n.cand.total > 0
    ensures StaysUnder(f, n, made) <==> FitsUnder(f, n, made)
  {
    Ratio((UsedBytes(n.cand) + made) as real, n.cand.total as real, f.high);
  }

  lemma {:induction false} TargetHasBytes(f: Fleet, moves: seq<Move>, i: nat, n: Node)
    requires MovesOk(f, moves) && Registry(f) && i < |moves| && n in f.nodes && n.cand.name == moves[i].to
    ensures n.cand.total > 0
  {
    var src, v, dst := MoveOf(f, moves, i);
    SameNode(f, dst, n);
  }

  lemma {:induction false} AskedIsUnder(f: Fleet, moves: seq<Move>, i: nat, n: Node)
    requires Registry(f) && i < |moves| && n in f.nodes && n.cand.name == moves[i].to && n.cand.total > 0
    ensures AsksForLegs(f, moves, i) <==> UnderHigh(f, moves[..i + 1], n)
  {
    AsksOne(f, moves, i, n);
    UnderIsBytes(f, n, Made(f.vols, moves[..i + 1], n.cand.name));
  }

  lemma {:induction false} AsksOne(f: Fleet, moves: seq<Move>, i: nat, n: Node)
    requires Registry(f) && i < |moves| && n in f.nodes && n.cand.name == moves[i].to
    ensures AsksForLegs(f, moves, i) <==> StaysUnder(f, n, Made(f.vols, moves[..i + 1], n.cand.name))
  {
    forall m | m in f.nodes && m.cand.name == moves[i].to ensures m == n { SameNode(f, m, n); }
  }

  lemma {:induction false} MadeGrows(vols: seq<Vol>, moves: seq<Move>, i: nat, node: string)
    requires i <= |moves|
    ensures Made(vols, moves[..i], node) <= Made(vols, moves, node)
  {
    if i < |moves| {
      MadeGrows(vols, moves[..|moves| - 1], i, node);
      assert moves[..|moves| - 1][..i] == moves[..i];
    } else {
      assert moves[..i] == moves;
    }
  }

  /** The last move onto a node decides. */
  lemma {:induction false} LastOnto(f: Fleet, moves: seq<Move>, n: Node) returns (i: nat)
    requires Receives(moves, n.cand.name)
    ensures i < |moves| && moves[i].to == n.cand.name
    ensures Made(f.vols, moves, n.cand.name) == Made(f.vols, moves[..i + 1], n.cand.name)
  {
    var last := |moves| - 1;
    if moves[last].to == n.cand.name {
      i := last;
      assert moves[..last + 1] == moves;
    } else {
      var k :| 0 <= k < |moves| && moves[k].to == n.cand.name;
      assert moves[..last][k] == moves[k];
      i := LastOnto(f, moves[..last], n);
      assert moves[..last][..i + 1] == moves[..i + 1];
    }
  }

  /**
   * Every target of a pass ends at or under the high watermark in the bytes of the legs it makes, exactly when each move
   * meets the source's guard with those bytes in place of the volume's size. For the last move onto a node that guard is
   * the bound itself: it is the check that the pass would have to make, move by move.
   */
  lemma {:induction false} TargetsStayUnderHighExactly(f: Fleet, moves: seq<Move>)
    requires Registry(f) && MovesOk(f, moves)
    ensures TargetsUnderHigh(f, moves) <==> forall i :: 0 <= i < |moves| ==> AsksForLegs(f, moves, i)
  {
    if forall i :: 0 <= i < |moves| ==> AsksForLegs(f, moves, i) {
      forall n | n in f.nodes && Receives(moves, n.cand.name) ensures UnderHigh(f, moves, n) {
        var i := LastOnto(f, moves, n);
        TargetHasBytes(f, moves, i, n);
        AskedIsUnder(f, moves, i, n);
      }
    }
    if TargetsUnderHigh(f, moves) {
      forall i | 0 <= i < |moves| ensures AsksForLegs(f, moves, i) {
        var src, v, n := MoveOf(f, moves, i);
        assert Receives(moves, n.cand.name);
        MadeGrows(f.vols, moves, i + 1, n.cand.name);
        TargetHasBytes(f, moves, i, n);
        AskedIsUnder(f, moves, i, n);
      }
    }
  }

  lemma {:induction false} MadeAsPromised(f: Fleet, moves: seq<Move>, node: string)
    requires Registry(f) && MovesOk(f, moves)
    requires forall v :: v in f.vols && Moved(moves, v.v.name) ==> LegBytes(v) == v.size
    ensures Made(f.vols, moves, node) == Incoming(moves, node)
  {
    if moves != [] {
      var front, m := moves[..|moves| - 1], moves[|moves| - 1];
      assert moves == front + [m];
      FrontOk(f, moves);
      MovedMore(front, m);
      MadeAsPromised(f, front, node);
      IncomingStep(moves, node);
      var src, v, dst := MoveOf(f, moves, |moves| - 1);
      LegBytesAre(f.vols, v);
    }
  }

  /** A pass that moves no volume whose expand is in flight keeps every target at or under the high watermark. */
  lemma {:induction false} WithoutExpandsTargetsStayUnderHigh(f: Fleet, moves: seq<Move>)
    requires Registry(f) && MovesOk(f, moves)
    requires forall v :: v in f.vols && Moved(moves, v.v.name) ==> LegBytes(v) == v.size
    ensures TargetsUnderHigh(f, moves)
  {
    forall n | n in f.nodes && Receives(moves, n.cand.name) ensures UnderHigh(f, moves, n) {
      TargetsStayUnderHigh(f, moves, n);
      MadeAsPromised(f, moves, n.cand.name);
    }
  }

  // --------------------------------------------------- a pass that surprises

  function BareNode(name: string, free: nat): Node {
    Node(Candidate(name, map["node" := name], free, 100, None), true, true)
  }

  function BareLeg(node: string): Leg {
    Leg(node, Some(node), Created, None, None, None, None)
  }

  /** A mirror of 10 bytes on 'h' and 's' that is growing to 80; 's' is nearly full, 't' nearly empty. */
  function Growing(): Vol {
    Vol(Volume("v", [BareLeg("h"), BareLeg("s")], Assembled, Some("h"), Some("r"), None, None, None, 1, false, None),
        10, Some(80), "node", true, false, false)
  }

  function GrowingFleet(): Fleet {
    Fleet([BareNode("h", 40), BareNode("s", 5), BareNode("t", 80)], [Growing()], 0.9, 0.5, 1, [], 0.0, 0)
  }

  lemma {:induction false} FleetNames()
    ensures "h" != "s" && "h" != "t" && "s" != "t"
  {
    assert "h"[0] == 'h' && "s"[0] == 's' && "t"[0] == 't';
  }

  lemma {:induction false} GrowingDomains()
    ensures Domains(GrowingFleet().nodes, Rule([], "node")) == map["h" := "h", "s" := "s", "t" := "t"]
  {
    var nodes, rule := GrowingFleet().nodes, Rule([], "node");
    assert nodes[..3] == nodes && nodes[..3][..2] == nodes[..2] && nodes[..2][..1] == nodes[..1] && nodes[..1][..0] == [];
    assert Domains(nodes[..1], rule) == map["h" := "h"];
    assert Domains(nodes[..2], rule) == map["h" := "h", "s" := "s"];
  }

  lemma {:induction false} GrowingFits(n: Node)
    requires n in GrowingFleet().nodes
    ensures Fits(GrowingFleet(), n, Growing(), "s", 0) <==> n == BareNode("t", 80)
  {
    FleetNames();
    GrowingDomains();
    var legs := Growing().v.legs;
    assert legs[0].node == "h" && legs[1].node == "s";
    if n == BareNode("t", 80) {
      Ratio(30.0, 100.0, 0.9);
      Ratio(80.0, 100.0, 1.0);
      assert Apart(Domains(GrowingFleet().nodes, Rule([], "node")), legs, "s", "t");
    }
  }

  lemma {:induction false} GrowingPicks()
    ensures BestTarget(GrowingFleet(), Growing(), "s", map[], "t")
  {
    var f := GrowingFleet();
    forall n | n in f.nodes ensures Fits(f, n, Growing(), "s", 0) <==> n == f.nodes[2] { GrowingFits(n); }
    assert f.nodes[2].cand.name == "t";
  }

  lemma {:induction false} GrowingMoves()
    ensures MovesOk(GrowingFleet(), [Move("v", "s", "t", 10)])
  {
    var f, moves := GrowingFleet(), [Move("v", "s", "t", 10)];
    GrowingActs();
    GrowingIsMovable();
    GrowingPicks();
    assert moves[..0] == [] && PromisedTo(moves[..0]) == map[];
    assert f.nodes[1] in f.nodes && Growing() in f.vols;
    assert MoveOk(f, moves, 0);
  }

  lemma {:induction false} GrowingIsMovable()
    ensures Source(GrowingFleet(), BareNode("s", 5)) && Movable(GrowingFleet(), Growing(), "s")
  {
    FleetNames();
    assert Growing().v.legs[1].node == "s";
    Ratio(5.0, 100.0, 0.06);
  }

  lemma {:induction false} GrowingActs()
    ensures Registry(GrowingFleet()) && Acts(GrowingFleet()) && Room(GrowingFleet()) == 1
  {
    FleetNames();
    var f := GrowingFleet();
    assert InFlightCount(f.vols[..0]) == 0;
  }

  /**
   * A volume of 10 bytes that is growing to 80 moves to a node with 20 of its 100 used: the pass counts 30, and the leg
   * makes it 100, above the high watermark of 90 and so no longer a target but a source.
   */
  lemma {:induction false} AnExpandPutsATargetOverHigh()
    ensures var f, moves := GrowingFleet(), [Move("v", "s", "t", 10)];
            && Registry(f) && Acts(f) && MovesOk(f, moves) && |moves| == Room(f)
            && !UnderHigh(f, moves, BareNode("t", 80)) && !TargetsUnderHigh(f, moves)
  {
    var f, moves := GrowingFleet(), [Move("v", "s", "t", 10)];
    GrowingActs();
    GrowingMoves();
    LegBytesAre(f.vols, Growing());
    assert moves[..0] == [] && Made(f.vols, moves, "t") == 80;
    assert f.nodes[2] == BareNode("t", 80);
    assert moves[0].to == "t";
  }

  // ---------------------------------------------------------- within a pass

  /** No node is both emptied and filled by a pass. */
  lemma {:induction false} NoNodeIsBoth(f: Fleet, moves: seq<Move>, i: nat, j: nat)
    requires Registry(f) && f.low < f.high && MovesOk(f, moves) && i < |moves| && j < |moves|
    ensures moves[i].from != moves[j].to
  {
    var src, v, dst0 := MoveOf(f, moves, i);
    var src0, v0, dst := MoveOf(f, moves, j);
    if moves[i].from == moves[j].to { SameNode(f, src, dst); }
  }

  /** The pool's volumes with a replacement on record. */
  function Flying(vols: seq<Vol>): set<string> {
    set v | v in vols && v.inPool && v.v.replacing.Some? :: v.v.name
  }

  ghost predicate OneName(vols: seq<Vol>) {
    forall i, j :: 0 <= i < j < |vols| ==> vols[i].v.name != vols[j].v.name
  }

  lemma {:induction false} FlyingMore(vols: seq<Vol>)
    requires OneName(vols) && vols != []
    ensures var init, last := vols[..|vols| - 1], vols[|vols| - 1];
            && OneName(init) && last.v.name !in Flying(init)
            && Flying(vols) == Flying(init) + (if last.inPool && last.v.replacing.Some? then {last.v.name} else {})
  {
    var init, last := vols[..|vols| - 1], vols[|vols| - 1];
    assert vols == init + [last];
    forall v | v in init ensures v.v.name != last.v.name {
      var i :| 0 <= i < |init| && init[i] == v;
      assert vols[i] == v;
    }
  }

  /** The moves in flight are as many as those volumes. */
  lemma {:induction false} InFlightIs(vols: seq<Vol>)
    requires OneName(vols)
    ensures InFlightCount(vols) == |Flying(vols)|
  {
    if vols != [] {
      FlyingMore(vols);
      InFlightIs(vols[..|vols| - 1]);
    }
  }

  /** What a pass may start is what the bound leaves of the volumes in flight. */
  lemma {:induction false} RoomIs(f: Fleet)
    requires Registry(f)
    ensures Room(f) > 0 ==> Room(f) + |Flying(f.vols)| == f.maxMoves
    ensures Room(f) == 0 <==> f.maxMoves <= |Flying(f.vols)|
  {
    InFlightIs(f.vols);
  }

  /** Each volume moves at most once, never off its head, and moves stay within the bound with those in flight. */
  lemma {:induction false} MovesAreBounded(f: Fleet, moves: seq<Move>)
    requires Registry(f) && Acts(f) && MovesOk(f, moves)
    ensures |moves| + |Flying(f.vols)| <= f.maxMoves
    ensures forall i, j :: 0 <= i < j < |moves| ==> moves[i].volume != moves[j].volume
    ensures forall i, v :: 0 <= i < |moves| && v in f.vols && v.v.name == moves[i].volume ==>
              v.v.head != Some(moves[i].from)
  {
    RoomIs(f);
    forall i, v | 0 <= i < |moves| && v in f.vols && v.v.name == moves[i].volume
      ensures v.v.head != Some(moves[i].from)
    {
      var src, w, dst := MoveOf(f, moves, i);
      var a :| 0 <= a < |f.vols| && f.vols[a] == v;
      var b :| 0 <= b < |f.vols| && f.vols[b] == w;
      assert !(a < b) && !(b < a);
    }
  }

  /** A move goes where a moved leg may go: a healthy node without a leg of the volume, in a domain apart. */
  lemma {:induction false} MovesGoApart(f: Fleet, moves: seq<Move>, i: nat, v: Vol)
    requires Registry(f) && MovesOk(f, moves) && i < |moves| && v in f.vols && v.v.name == moves[i].volume
    ensures moves[i].to in MoveTargets(Domains(f.nodes, RuleOf(f, v)), HealthyNames(f.nodes), v.v.legs, moves[i].from)
  {
    var src, w, dst := MoveOf(f, moves, i);
    var a :| 0 <= a < |f.vols| && f.vols[a] == v;
    var b :| 0 <= b < |f.vols| && f.vols[b] == w;
    assert !(a < b) && !(b < a);
    assert dst.cand.name in HealthyNames(f.nodes);
  }

  function HealthyNames(nodes: seq<Node>): set<string> {
    set n | n in nodes && n.healthy :: n.cand.name
  }

  // ---------------------------------------------------------- termination

  /** What a node has used, and the most bytes that are not above the high watermark. */
  datatype Gauge = Gauge(node: string, used: int, cap: int)

  function Over(g: Gauge): nat {
    if g.used > g.cap then g.used - g.cap else 0
  }

  /** The bytes above the watermark. */
  function Excess(gs: seq<Gauge>): nat {
    if gs == [] then 0 else Excess(gs[..|gs| - 1]) + Over(gs[|gs| - 1])
  }

  function Outgoing(moves: seq<Move>, node: string): nat {
    if moves == [] then 0
    else
      var m := moves[|moves| - 1];
      Outgoing(moves[..|moves| - 1], node) + if m.from == node then m.size else 0
  }

  function ShiftedGauge(f: Fleet, g: Gauge, moves: seq<Move>): Gauge {
    g.(used := g.used + Made(f.vols, moves, g.node) - Outgoing(moves, g.node))
  }

  /**
   * The most in use once the moves are done, when nothing else changes it: a leg that leaves had the volume's size at
   * least.
   */
  function Shifted(f: Fleet, gs: seq<Gauge>, moves: seq<Move>): seq<Gauge> {
    seq(|gs|, i requires 0 <= i < |gs| => ShiftedGauge(f, gs[i], moves))
  }

  lemma {:induction false} NothingMade(vols: seq<Vol>, moves: seq<Move>, node: string)
    requires !Receives(moves, node)
    ensures Made(vols, moves, node) == 0
  {
    if moves != [] {
      var front := moves[..|moves| - 1];
      assert moves[|front|].to != node;
      assert forall i :: 0 <= i < |front| ==> front[i] == moves[i];
      NothingMade(vols, front, node);
    }
  }

  function Gauges(f: Fleet, nodes: seq<Node>): seq<Gauge> {
    if nodes == [] then []
    else
      var init, n := Gauges(f, nodes[..|nodes| - 1]), nodes[|nodes| - 1];
      if n.member then init + [GaugeOf(f, n)] else init
  }

  function GaugeOf(f: Fleet, n: Node): Gauge {
    Gauge(n.cand.name, UsedBytes(n.cand), (f.high * n.cand.total as real).Floor)
  }

  lemma {:induction false} GaugesAre(f: Fleet, nodes: seq<Node>)
    ensures forall g :: g in Gauges(f, nodes) <==> exists n :: n in nodes && n.member && GaugeOf(f, n) == g
  {
    if nodes != [] {
      var init, last := nodes[..|nodes| - 1], nodes[|nodes| - 1];
      GaugesAre(f, init);
      assert forall n :: n in nodes <==> n in init || n == last;
    }
  }

  lemma {:induction false} TakesFromSource(moves: seq<Move>, i: nat)
    requires i < |moves|
    ensures Outgoing(moves, moves[i].from) >= moves[i].size
  {
    if i < |moves| - 1 {
      var front := moves[..|moves| - 1];
      TakesFromSource(front, i);
    }
  }

  lemma {:induction false} UnderFloor(used: int, bound: real)
    ensures used as real <= bound <==> used <= bound.Floor
  {
  }

  lemma {:induction false} NoGaugeRises(f: Fleet, moves: seq<Move>, n: Node)
    requires TargetsUnderHigh(f, moves) && n in f.nodes
    ensures Over(ShiftedGauge(f, GaugeOf(f, n), moves)) <= Over(GaugeOf(f, n))
  {
    if Receives(moves, n.cand.name) {
      assert UnderHigh(f, moves, n);
      UnderFloor(UsedBytes(n.cand) + Made(f.vols, moves, n.cand.name), f.high * n.cand.total as real);
      assert ShiftedGauge(f, GaugeOf(f, n), moves).used <= GaugeOf(f, n).cap;
    } else {
      NothingMade(f.vols, moves, n.cand.name);
    }
  }

  lemma {:induction false} SourceIsOver(f: Fleet, n: Node)
    requires f.high >= 0.0 && Source(f, n)
    ensures UsedBytes(n.cand) > GaugeOf(f, n).cap
  {
    UsedIsBytes(n.cand, f.high);
    UnderFloor(UsedBytes(n.cand), f.high * n.cand.total as real);
  }

  lemma {:induction false} FirstIsSource(f: Fleet, moves: seq<Move>, n: Node)
    requires Registry(f) && MovesOk(f, moves) && moves != [] && n in f.nodes && n.cand.name == moves[0].from
    ensures Source(f, n)
  {
    var src, v, dst := MoveOf(f, moves, 0);
    SameNode(f, src, n);
  }

  lemma {:induction false} NothingOntoFirst(f: Fleet, moves: seq<Move>)
    requires Registry(f) && f.low < f.high && MovesOk(f, moves) && moves != []
    ensures Made(f.vols, moves, moves[0].from) == 0
  {
    forall i | 0 <= i < |moves| ensures moves[i].to != moves[0].from { NoNodeIsBoth(f, moves, 0, i); }
    NothingMade(f.vols, moves, moves[0].from);
  }

  lemma {:induction false} SourceFalls(f: Fleet, moves: seq<Move>, n: Node)
    requires Registry(f) && Acts(f) && MovesOk(f, moves) && moves != [] && moves[0].size > 0
    requires n in f.nodes && n.cand.name == moves[0].from
    ensures n.member && Over(ShiftedGauge(f, GaugeOf(f, n), moves)) < Over(GaugeOf(f, n))
  {
    FirstIsSource(f, moves, n);
    SourceIsOver(f, n);
    NothingOntoFirst(f, moves);
    TakesFromSource(moves, 0);
  }

  lemma {:induction false} ExcessMonotone(a: seq<Gauge>, b: seq<Gauge>)
    requires |a| == |b| && forall i :: 0 <= i < |a| ==> Over(b[i]) <= Over(a[i])
    ensures Excess(b) <= Excess(a)
    ensures (exists i :: 0 <= i < |a| && Over(b[i]) < Over(a[i])) ==> Excess(b) < Excess(a)
  {
    if a != [] {
      var x, y := a[..|a| - 1], b[..|b| - 1];
      ExcessMonotone(x, y);
      if i :| 0 <= i < |a| && Over(b[i]) < Over(a[i]) {
        if i < |x| { assert Over(y[i]) < Over(x[i]); }
      }
    }
  }

  /**
   * A pass that moves anything, and whose targets are under the high watermark with the legs it makes, lowers the pool's
   * bytes above the watermark.
   */
  lemma {:induction false} PassLowersExcess(f: Fleet, moves: seq<Move>)
    requires Registry(f) && Acts(f) && MovesOk(f, moves) && moves != [] && moves[0].size > 0 && TargetsUnderHigh(f, moves)
    ensures Excess(Shifted(f, Gauges(f, f.nodes), moves)) < Excess(Gauges(f, f.nodes))
  {
    var gs := Gauges(f, f.nodes);
    var after := Shifted(f, gs, moves);
    GaugesAre(f, f.nodes);
    forall i | 0 <= i < |gs| ensures Over(after[i]) <= Over(gs[i]) {
      assert gs[i] in gs;
      var n :| n in f.nodes && n.member && GaugeOf(f, n) == gs[i];
      NoGaugeRises(f, moves, n);
    }
    var src, v, dst := MoveOf(f, moves, 0);
    SourceFalls(f, moves, src);
    assert GaugeOf(f, src) in gs;
    var k :| 0 <= k < |gs| && gs[k] == GaugeOf(f, src);
    assert Over(after[k]) < Over(gs[k]);
    ExcessMonotone(gs, after);
  }

  /** The fleet at each pass, every pass moving something and usage rising by the legs it makes alone. */
  ghost predicate Passes(fs: seq<Fleet>, passes: seq<seq<Move>>) {
    && |fs| == |passes| + 1
    && forall i :: 0 <= i < |passes| ==> PassAt(fs[i], passes[i], fs[i + 1])
  }

  /** The same nodes with as much in use or less. */
  predicate AtMost(gs: seq<Gauge>, most: seq<Gauge>) {
    |gs| == |most|
    && forall i :: 0 <= i < |gs| ==> gs[i].node == most[i].node && gs[i].cap == most[i].cap && gs[i].used <= most[i].used
  }

  ghost predicate PassAt(f: Fleet, moves: seq<Move>, next: Fleet) {
    Registry(f) && Acts(f) && MovesOk(f, moves) && moves != [] && moves[0].size > 0 && TargetsUnderHigh(f, moves)
    && AtMost(Gauges(next, next.nodes), Shifted(f, Gauges(f, f.nodes), moves))
  }

  lemma {:induction false} PassFalls(f: Fleet, moves: seq<Move>, next: Fleet)
    requires PassAt(f, moves, next)
    ensures Excess(Gauges(next, next.nodes)) < Excess(Gauges(f, f.nodes))
  {
    PassLowersExcess(f, moves);
    ExcessMonotone(Shifted(f, Gauges(f, f.nodes), moves), Gauges(next, next.nodes));
  }

  /** Repeated passes end: there are at most as many as bytes above the watermark at the first. */
  lemma {:induction false} PassesEnd(fs: seq<Fleet>, passes: seq<seq<Move>>)
    requires Passes(fs, passes)
    ensures |passes| <= Excess(Gauges(fs[0], fs[0].nodes))
    decreases |passes|
  {
    if passes != [] {
      assert PassAt(fs[0], passes[0], fs[1]);
      PassFalls(fs[0], passes[0], fs[1]);
      forall i | 0 <= i < |passes[1..]| ensures PassAt(fs[1..][i], passes[1..][i], fs[1..][i + 1]) {
        assert PassAt(fs[i + 1], passes[i + 1], fs[i + 2]);
      }
      PassesEnd(fs[1..], passes[1..]);
    }
  }
}
