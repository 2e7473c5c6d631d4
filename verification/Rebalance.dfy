/**
  One pool's rebalance pass (src/rebalance.rs): legs leave the nodes above the high watermark for nodes below the low
  one. Watermarks and used fractions are reals.
*/
module Rebalance {
  import opened Wrappers
  import opened Order
  import opened Sorting
  import opened Placement
  import opened PlacementTheory
  import opened Volumes
  import opened VolumeOps

  /** A registered node; `member` when the pool's selector takes it. */
  datatype Node = Node(cand: Candidate, healthy: bool, member: bool)

  /** `expandTo` is the target of an expand in flight. */
  datatype Vol = Vol(
    v: Volume, size: nat, expandTo: Option<nat>, rung: string, inPool: bool, migrating: bool, busy: bool)

  /** The bytes a leg of the volume is made at; a pass counts `size`. */
  function LegBytes(v: Vol): nat {
    if v.expandTo.Some? && v.expandTo.value > v.size then v.expandTo.value else v.size
  }

  /** What a pass reads; `maxMoves` and the watermarks are the pool's. */
  datatype Fleet = Fleet(
    nodes: seq<Node>, vols: seq<Vol>, high: real, low: real, maxMoves: nat, rungs: seq<string>, weight: real, now: int)

  /** A proposed move; `size` is the volume's. */
  datatype Move = Move(volume: string, from: string, to: string, size: nat)

  datatype Hold = BadWatermarks | Unreachable(node: string) | InFlight(moves: nat) | NoTarget

  ghost predicate Registry(f: Fleet) {
    && (forall i, j :: 0 <= i < j < |f.nodes| ==> f.nodes[i].cand.name != f.nodes[j].cand.name)
    && (forall i, j :: 0 <= i < j < |f.vols| ==> f.vols[i].v.name != f.vols[j].v.name)
  }

  function Used(c: Candidate): real {
    if c.total == 0 then 0.0 else 1.0 - c.free as real / c.total as real
  }

  function UsedBytes(c: Candidate): nat {
    c.total - if c.free < c.total then c.free else c.total
  }

  predicate Source(f: Fleet, n: Node) {
    n.member && Used(n.cand) > f.high
  }

  /** A leg of an idle volume of the pool that may leave the node. */
  predicate Movable(f: Fleet, v: Vol, from: string) {
    && v.inPool && v.v.assembly == Assembled && !v.v.fenced && v.v.replacing.None? && v.v.window.None? && !v.migrating
    && !v.busy && Due(v.v.nextReleg, f.now) && v.v.head != Some(from)
    && exists i :: 0 <= i < |v.v.legs| && v.v.legs[i].node == from && v.v.legs[i].state == Created
  }

  function Domains(nodes: seq<Node>, rule: Rule): map<string, string> {
    if nodes == [] then map[]
    else
      var n := nodes[|nodes| - 1].cand;
      Domains(nodes[..|nodes| - 1], rule)[n.name := Domain(n, rule)]
  }

  function RuleOf(f: Fleet, v: Vol): Rule {
    Rule(f.rungs, v.rung)
  }

  /** The node may take the leg, with `extra` bytes already promised to it. */
  predicate Fits(f: Fleet, n: Node, v: Vol, from: string, extra: nat) {
    && n.healthy && n.member && !HasLeg(v.v.legs, n.cand.name)
    && Apart(Domains(f.nodes, RuleOf(f, v)), v.v.legs, from, n.cand.name)
    && n.cand.total > 0 && Used(n.cand) < f.low
    && (UsedBytes(n.cand) + extra + v.size) as real / n.cand.total as real <= f.high
  }

  function Targets(f: Fleet, nodes: seq<Node>, v: Vol, from: string, promised: map<string, nat>): seq<Candidate> {
    if nodes == [] then []
    else
      var init, n := Targets(f, nodes[..|nodes| - 1], v, from, promised), nodes[|nodes| - 1];
      if Fits(f, n, v, from, Extra(promised, n.cand.name)) then init + [n.cand] else init
  }

  function Extra(promised: map<string, nat>, node: string): nat {
    if node in promised then promised[node] else 0
  }

  /** `to` is the best of the nodes that fit, given what is promised so far. */
  ghost predicate BestTarget(f: Fleet, v: Vol, from: string, promised: map<string, nat>, to: string) {
    exists i :: 0 <= i < |f.nodes| && f.nodes[i].cand.name == to
                && Fits(f, f.nodes[i], v, from, Extra(promised, to))
                && forall n :: n in f.nodes && Fits(f, n, v, from, Extra(promised, n.cand.name)) ==>
                     n.cand == f.nodes[i].cand || Better(f.nodes[i].cand, n.cand, Targets(f, f.nodes, v, from, promised), f.weight)
  }

  lemma {:induction false} TargetsAre(f: Fleet, nodes: seq<Node>, v: Vol, from: string, promised: map<string, nat>)
    requires forall i, j :: 0 <= i < j < |nodes| ==> nodes[i].cand.name != nodes[j].cand.name
    ensures forall c :: c in Targets(f, nodes, v, from, promised) <==>
              exists n :: n in nodes && n.cand == c && Fits(f, n, v, from, Extra(promised, c.name))
    ensures DistinctNames(Targets(f, nodes, v, from, promised))
  {
    if nodes != [] {
      var init, last := nodes[..|nodes| - 1], nodes[|nodes| - 1];
      TargetsAre(f, init, v, from, promised);
      assert forall n :: n in nodes <==> n in init || n == last;
      forall n | n in init ensures n.cand.name != last.cand.name {}
    }
  }

  // ------------------------------------------------------------ arithmetic

  lemma {:induction false} Ratio(a: real, t: real, h: real)
    requires t > 0.0
    ensures a / t <= h <==> a <= h * t
  {
    var q := a / t;
    assert q * t == a;
    if q <= h { assert q * t <= h * t; } else { assert q * t > h * t; }
  }

  lemma {:induction false} Distributes(q: real, t: real)
    ensures (1.0 - q) * t == t - q * t
  {
  }

  lemma {:induction false} Scaled(a: real, h: real, t: real)
    requires a > h >= 0.0 && t > 0.0
    ensures a * t > h * t >= 0.0
  {
  }

  lemma {:induction false} UsedIsBytes(c: Candidate, h: real)
    requires h >= 0.0
    ensures Used(c) > h ==> c.total > 0 && UsedBytes(c) as real > h * c.total as real
  {
    if Used(c) > h {
      var t, u := c.total as real, c.free as real;
      var q := u / t;
      assert q * t == u;
      Distributes(q, t);
      Scaled(1.0 - q, h, t);
      assert c.free < c.total;
    }
  }

  lemma {:induction false} Below(h: real, t: real)
    requires h <= 1.0 && t >= 0.0
    ensures h * t <= t
  {
  }

  lemma {:induction false} FitsIsBytes(f: Fleet, n: Node, v: Vol, from: string, extra: nat)
    requires Fits(f, n, v, from, extra)
    ensures (UsedBytes(n.cand) + extra + v.size) as real <= f.high * n.cand.total as real
  {
    Ratio((UsedBytes(n.cand) + extra + v.size) as real, n.cand.total as real, f.high);
  }

  lemma {:induction false} WholeUnder(a: nat, t: nat, h: real)
    requires t > 0 && a as real / t as real <= h <= 1.0
    ensures a <= t
  {
    Ratio(a as real, t as real, h);
    Below(h, t as real);
  }

  /** A node with the leg at or under a watermark of at most 1 has room for it. */
  lemma {:induction false} FittingHasRoom(f: Fleet, n: Node, v: Vol, from: string, extra: nat)
    requires Fits(f, n, v, from, extra) && f.high <= 1.0
    ensures n.cand.free >= v.size
  {
    WholeUnder(UsedBytes(n.cand) + extra + v.size, n.cand.total, f.high);
  }

  // ---------------------------------------------------------------- a target

  method PickTarget(f: Fleet, v: Vol, from: string, promised: map<string, nat>) returns (to: Option<string>)
    requires Registry(f) && f.high <= 1.0
    ensures to.Some? ==> BestTarget(f, v, from, promised, to.value)
    ensures to.None? ==> forall n :: n in f.nodes ==> !Fits(f, n, v, from, Extra(promised, n.cand.name))
  {
    var cands := Targets(f, f.nodes, v, from, promised);
    TargetsAre(f, f.nodes, v, from, promised);
    var r, ranking := Plan(cands, RuleOf(f, v), 1, v.size, f.weight);
    AllFit(f, v, from, promised);
    FittingAll(cands, v.size);
    if cands != [] {
      var best := BestExists(cands, cands[0], cands, RuleOf(f, v), f.weight);
      assert best in ranking;
    }
    if r.Err? {
      forall n | n in f.nodes ensures !Fits(f, n, v, from, Extra(promised, n.cand.name)) {
        assert n.cand !in cands;
      }
      return None;
    }
    to := Some(r.value[0]);
    var top := ranking[0];
    assert r.value[0] == NamesOf(ranking[..1])[0] == top.name;
    assert top in ranking;
    TopIsBest(ranking, cands, RuleOf(f, v), f.weight);
    assert BestTarget(f, v, from, promised, top.name) by {
      var n :| n in f.nodes && n.cand == top && Fits(f, n, v, from, Extra(promised, top.name));
      var i :| 0 <= i < |f.nodes| && f.nodes[i] == n;
    }
  }

  lemma {:induction false} AllFit(f: Fleet, v: Vol, from: string, promised: map<string, nat>)
    requires Registry(f) && f.high <= 1.0
    ensures forall c :: c in Targets(f, f.nodes, v, from, promised) ==> c.free >= v.size
  {
    TargetsAre(f, f.nodes, v, from, promised);
    forall c | c in Targets(f, f.nodes, v, from, promised) ensures c.free >= v.size {
      var n :| n in f.nodes && n.cand == c && Fits(f, n, v, from, Extra(promised, c.name));
      FittingHasRoom(f, n, v, from, Extra(promised, c.name));
    }
  }

  lemma {:induction false} FittingAll(cands: seq<Candidate>, size: nat)
    requires forall c :: c in cands ==> c.free >= size
    ensures Fitting(cands, size) == cands
  {
    if cands != [] {
      FittingAll(cands[..|cands| - 1], size);
    }
  }

  lemma {:induction false} TopIsBest(b: seq<Candidate>, f: seq<Candidate>, rule: Rule, weight: real)
    requires DistinctNames(f) && IsRanking(b, f, rule, weight) && b != []
    ensures b[0] in f && forall c :: c in f ==> c == b[0] || Better(b[0], c, f, weight)
  {
    assert b[0] in b;
    forall c | c in f ensures c == b[0] || Better(b[0], c, f, weight) {
      var best := BestExists(f, c, f, rule, weight);
      assert best in b;
      var i :| 0 <= i < |b| && b[i] == best;
      if i > 0 && c != best { BetterTransitive(b[0], best, c, f, weight); }
    }
  }

  // ---------------------------------------------------------------- the pass

  /** The moves one pass may still start. */
  function Room(f: Fleet): nat {
    var flying := InFlightCount(f.vols);
    if f.maxMoves >= flying then f.maxMoves - flying else 0
  }

  function InFlightCount(vols: seq<Vol>): nat {
    if vols == [] then 0
    else InFlightCount(vols[..|vols| - 1]) + if vols[|vols| - 1].inPool && vols[|vols| - 1].v.replacing.Some? then 1 else 0
  }

  /** The pool acts: its watermarks make sense, its nodes answer and it may start a move. */
  ghost predicate Acts(f: Fleet) {
    && 0.0 <= f.low < f.high <= 1.0
    && (forall n :: n in f.nodes && n.member ==> n.healthy)
    && Room(f) > 0
  }

  function PromisedTo(moves: seq<Move>): map<string, nat> {
    if moves == [] then map[]
    else
      var init, m := PromisedTo(moves[..|moves| - 1]), moves[|moves| - 1];
      init[m.to := Extra(init, m.to) + m.size]
  }

  /** The i-th move takes a movable leg off a source to the best target left by the moves before it. */
  ghost predicate MoveOk(f: Fleet, moves: seq<Move>, i: nat)
    requires i < |moves|
  {
    exists n, v :: n in f.nodes && v in f.vols && Source(f, n) && n.cand.name == moves[i].from
                   && v.v.name == moves[i].volume && v.size == moves[i].size && Movable(f, v, moves[i].from)
                   && BestTarget(f, v, moves[i].from, PromisedTo(moves[..i]), moves[i].to)
  }

  ghost predicate Moved(moves: seq<Move>, volume: string) {
    exists i :: 0 <= i < |moves| && moves[i].volume == volume
  }

  ghost predicate MovesOk(f: Fleet, moves: seq<Move>) {
    && (forall i :: 0 <= i < |moves| ==> MoveOk(f, moves, i))
    && (forall i, j :: 0 <= i < j < |moves| ==> moves[i].volume != moves[j].volume)
    && |moves| <= Room(f)
  }

  /** No leg of the node that may leave it has a target left. */
  ghost predicate Exhausted(f: Fleet, n: Node, moves: seq<Move>) {
    forall v, t :: v in f.vols && Movable(f, v, n.cand.name) && !Moved(moves, v.v.name) && t in f.nodes
                   ==> !Fits(f, t, v, n.cand.name, Extra(PromisedTo(moves), t.cand.name))
  }

  /** The fuller node first, then by name. */
  predicate Fuller(a: Node, b: Node) {
    Used(a.cand) > Used(b.cand) || (Used(a.cand) == Used(b.cand) && Before(a.cand.name, b.cand.name))
  }

  /** The larger volume first: fewest moves to bring the source down. */
  predicate Larger(a: Vol, b: Vol) {
    a.size > b.size || (a.size == b.size && Before(a.v.name, b.v.name))
  }

  function Sources(f: Fleet, nodes: seq<Node>): seq<Node> {
    if nodes == [] then []
    else
      var init, n := Sources(f, nodes[..|nodes| - 1]), nodes[|nodes| - 1];
      if Source(f, n) then init + [n] else init
  }

  function VolsOn(f: Fleet, vols: seq<Vol>, from: string): seq<Vol> {
    if vols == [] then []
    else
      var init, v := VolsOn(f, vols[..|vols| - 1], from), vols[|vols| - 1];
      if Movable(f, v, from) then init + [v] else init
  }

  lemma {:induction false} SourcesAre(f: Fleet, nodes: seq<Node>)
    requires forall i, j :: 0 <= i < j < |nodes| ==> nodes[i].cand.name != nodes[j].cand.name
    ensures var s := Sources(f, nodes);
            && (forall n :: n in s <==> n in nodes && Source(f, n))
            && (forall i, j :: 0 <= i < j < |s| ==> s[i].cand.name != s[j].cand.name)
  {
    if nodes != [] {
      var init, last := nodes[..|nodes| - 1], nodes[|nodes| - 1];
      SourcesAre(f, init);
      assert forall n :: n in nodes <==> n in init || n == last;
      forall n | n in init ensures n.cand.name != last.cand.name {}
    }
  }

  lemma {:induction false} VolsOnAre(f: Fleet, vols: seq<Vol>, from: string)
    requires forall i, j :: 0 <= i < j < |vols| ==> vols[i].v.name != vols[j].v.name
    ensures var s := VolsOn(f, vols, from);
            && (forall v :: v in s <==> v in vols && Movable(f, v, from))
            && (forall i, j :: 0 <= i < j < |s| ==> s[i].v.name != s[j].v.name)
  {
    if vols != [] {
      var init, last := vols[..|vols| - 1], vols[|vols| - 1];
      VolsOnAre(f, init, from);
      assert forall v :: v in vols <==> v in init || v == last;
      forall v | v in init ensures v.v.name != last.v.name {}
    }
  }

  method SortSources(sources: seq<Node>) returns (sorted: seq<Node>)
    requires forall i, j :: 0 <= i < j < |sources| ==> sources[i].cand.name != sources[j].cand.name
    ensures |sorted| == |sources| && (forall n :: n in sorted <==> n in sources)
    ensures forall i, j :: 0 <= i < j < |sorted| ==> Fuller(sorted[i], sorted[j])
  {
    forall i, j | 0 <= i < j < |sources| ensures Fuller(sources[i], sources[j]) || Fuller(sources[j], sources[i]) {
      BeforeTrichotomy(sources[i].cand.name, sources[j].cand.name);
    }
    forall a, b, c | Fuller(a, b) && Fuller(b, c) ensures Fuller(a, c) {
      if Before(a.cand.name, b.cand.name) && Before(b.cand.name, c.cand.name) {
        BeforeTransitive(a.cand.name, b.cand.name, c.cand.name);
      }
    }
    sorted := SortBy(sources, Fuller);
  }

  method SortVols(vols: seq<Vol>) returns (sorted: seq<Vol>)
    requires forall i, j :: 0 <= i < j < |vols| ==> vols[i].v.name != vols[j].v.name
    ensures |sorted| == |vols| && (forall v :: v in sorted <==> v in vols)
    ensures forall i, j :: 0 <= i < j < |sorted| ==> Larger(sorted[i], sorted[j])
  {
    forall i, j | 0 <= i < j < |vols| ensures Larger(vols[i], vols[j]) || Larger(vols[j], vols[i]) {
      BeforeTrichotomy(vols[i].v.name, vols[j].v.name);
    }
    forall a, b, c | Larger(a, b) && Larger(b, c) ensures Larger(a, c) {
      if Before(a.v.name, b.v.name) && Before(b.v.name, c.v.name) {
        BeforeTransitive(a.v.name, b.v.name, c.v.name);
      }
    }
    sorted := SortBy(vols, Larger);
  }

  lemma {:induction false} MovesExtend(f: Fleet, moves: seq<Move>, m: Move)
    requires MovesOk(f, moves) && |moves| < Room(f) && !Moved(moves, m.volume)
    requires MoveOk(f, moves + [m], |moves|)
    ensures MovesOk(f, moves + [m])
  {
    var more := moves + [m];
    forall i | 0 <= i < |moves| ensures MoveOk(f, more, i) {
      assert more[..i] == moves[..i] && more[i] == moves[i];
      assert MoveOk(f, moves, i);
    }
  }

  lemma {:induction false} ExtraGrows(moves: seq<Move>, m: Move, node: string)
    ensures Extra(PromisedTo(moves), node) <= Extra(PromisedTo(moves + [m]), node)
  {
    assert (moves + [m])[..|moves|] == moves;
  }

  lemma {:induction false} FitsWithLess(f: Fleet, t: Node, v: Vol, from: string, a: nat, b: nat)
    requires a <= b && Fits(f, t, v, from, b)
    ensures Fits(f, t, v, from, a)
  {
    Ratio((UsedBytes(t.cand) + a + v.size) as real, t.cand.total as real, f.high);
    Ratio((UsedBytes(t.cand) + b + v.size) as real, t.cand.total as real, f.high);
  }

  /** What is promised only grows, so a leg without a target does not get one later. */
  lemma {:induction false} StillExhausted(f: Fleet, n: Node, moves: seq<Move>, more: seq<Move>)
    requires Exhausted(f, n, moves) && moves <= more
    ensures Exhausted(f, n, more)
  {
    if moves == more { return; }
    var init, m := more[..|more| - 1], more[|more| - 1];
    assert more == init + [m];
    StillExhausted(f, n, moves, init);
    MovedMore(init, m);
    forall v, t | v in f.vols && Movable(f, v, n.cand.name) && !Moved(more, v.v.name) && t in f.nodes
      ensures !Fits(f, t, v, n.cand.name, Extra(PromisedTo(more), t.cand.name))
    {
      ExtraGrows(init, m, t.cand.name);
      if Fits(f, t, v, n.cand.name, Extra(PromisedTo(more), t.cand.name)) {
        FitsWithLess(f, t, v, n.cand.name, Extra(PromisedTo(init), t.cand.name), Extra(PromisedTo(more), t.cand.name));
      }
    }
  }

  /** No volume of `vols` may still leave the node: it was moved, or nothing fits. */
  ghost predicate Tried(f: Fleet, n: Node, vols: seq<Vol>, moves: seq<Move>) {
    forall v, t :: v in vols && !Moved(moves, v.v.name) && t in f.nodes
                   ==> !Fits(f, t, v, n.cand.name, Extra(PromisedTo(moves), t.cand.name))
  }

  lemma {:induction false} TriedStays(f: Fleet, n: Node, vols: seq<Vol>, moves: seq<Move>, m: Move)
    requires Tried(f, n, vols, moves)
    ensures Tried(f, n, vols, moves + [m])
  {
    MovedMore(moves, m);
    forall v, t | v in vols && !Moved(moves + [m], v.v.name) && t in f.nodes
      ensures !Fits(f, t, v, n.cand.name, Extra(PromisedTo(moves + [m]), t.cand.name))
    {
      ExtraGrows(moves, m, t.cand.name);
      if Fits(f, t, v, n.cand.name, Extra(PromisedTo(moves + [m]), t.cand.name)) {
        FitsWithLess(f, t, v, n.cand.name, Extra(PromisedTo(moves), t.cand.name), Extra(PromisedTo(moves + [m]), t.cand.name));
      }
    }
  }

  ghost predicate Names(moved: set<string>, moves: seq<Move>) {
    forall n :: n in moved <==> Moved(moves, n)
  }

  /** The move is of a larger volume, or of one as large with a name before. */
  predicate LargerFirst(m: Move, size: nat, name: string) {
    m.size > size || (m.size == size && Before(m.volume, name))
  }

  /** Moves after the first `k` are off the node `from`, the larger volumes first. */
  ghost predicate OffInOrder(moves: seq<Move>, k: nat, from: string) {
    && (forall i :: k <= i < |moves| ==> moves[i].from == from)
    && (forall i, j :: k <= i < j < |moves| ==> LargerFirst(moves[i], moves[j].size, moves[j].volume))
  }

  lemma {:induction false} MovedMore(moves: seq<Move>, m: Move)
    ensures forall n :: Moved(moves + [m], n) <==> Moved(moves, n) || n == m.volume
  {
    var more := moves + [m];
    forall n ensures Moved(more, n) <==> Moved(moves, n) || n == m.volume {
      if n == m.volume { assert more[|moves|].volume == n; }
      if Moved(moves, n) {
        var i :| 0 <= i < |moves| && moves[i].volume == n;
        assert more[i].volume == n;
      }
    }
  }

  lemma {:induction false} MoveIsOk(f: Fleet, src: Node, v: Vol, moves: seq<Move>, to: string)
    requires src in f.nodes && Source(f, src) && v in f.vols && Movable(f, v, src.cand.name)
    requires BestTarget(f, v, src.cand.name, PromisedTo(moves), to)
    ensures MoveOk(f, moves + [Move(v.v.name, src.cand.name, to, v.size)], |moves|)
  {
    assert (moves + [Move(v.v.name, src.cand.name, to, v.size)])[..|moves|] == moves;
  }

  /** What a pass keeps track of: its moves, what they promise and which volumes they take. */
  ghost predicate Tracked(f: Fleet, moves: seq<Move>, promised: map<string, nat>, moved: set<string>) {
    MovesOk(f, moves) && promised == PromisedTo(moves) && Names(moved, moves)
  }

  lemma {:induction false} NamesMore(moves: seq<Move>, moved: set<string>, m: Move)
    requires Names(moved, moves)
    ensures Names(moved + {m.volume}, moves + [m])
  {
    MovedMore(moves, m);
  }

  lemma {:induction false} PromisedMore(moves: seq<Move>, m: Move)
    ensures PromisedTo(moves + [m]) == PromisedTo(moves)[m.to := Extra(PromisedTo(moves), m.to) + m.size]
  {
    assert (moves + [m])[..|moves|] == moves;
  }

  lemma {:induction false} TrackMore(
    f: Fleet, src: Node, v: Vol, moves: seq<Move>, promised: map<string, nat>, moved: set<string>, to: string)
    requires Tracked(f, moves, promised, moved) && |moves| < Room(f) && v.v.name !in moved
    requires src in f.nodes && Source(f, src) && v in f.vols && Movable(f, v, src.cand.name)
    requires BestTarget(f, v, src.cand.name, promised, to)
    ensures Tracked(f, moves + [Move(v.v.name, src.cand.name, to, v.size)], promised[to := Extra(promised, to) + v.size],
                    moved + {v.v.name})
  {
    var m := Move(v.v.name, src.cand.name, to, v.size);
    NamesMore(moves, moved, m);
    PromisedMore(moves, m);
    MovesOkMore(f, src, v, moves, moved, to);
  }

  lemma {:induction false} MovesOkMore(f: Fleet, src: Node, v: Vol, moves: seq<Move>, moved: set<string>, to: string)
    requires MovesOk(f, moves) && Names(moved, moves) && |moves| < Room(f) && v.v.name !in moved
    requires src in f.nodes && Source(f, src) && v in f.vols && Movable(f, v, src.cand.name)
    requires BestTarget(f, v, src.cand.name, PromisedTo(moves), to)
    ensures MovesOk(f, moves + [Move(v.v.name, src.cand.name, to, v.size)])
  {
    MoveIsOk(f, src, v, moves, to);
    MovesExtend(f, moves, Move(v.v.name, src.cand.name, to, v.size));
  }

  /** One leg: to its best target, if it has one and its volume was not moved yet. */
  method TryMove(f: Fleet, src: Node, v: Vol, moves0: seq<Move>, promised0: map<string, nat>, moved0: set<string>)
    returns (moves: seq<Move>, promised: map<string, nat>, moved: set<string>)
    requires Registry(f) && f.high <= 1.0 && src in f.nodes && Source(f, src) && v in f.vols && Movable(f, v, src.cand.name)
    requires Tracked(f, moves0, promised0, moved0) && |moves0| < Room(f)
    ensures Tracked(f, moves, promised, moved)
    ensures moves == moves0
            || exists to :: moves == moves0 + [Move(v.v.name, src.cand.name, to, v.size)]
    ensures Tried(f, src, [v], moves)
  {
    moves, promised, moved := moves0, promised0, moved0;
    if v.v.name in moved {
      return;
    }
    var to := PickTarget(f, v, src.cand.name, promised);
    if to.None? {
      return;
    }
    var m := Move(v.v.name, src.cand.name, to.value, v.size);
    TrackMore(f, src, v, moves, promised, moved, to.value);
    MovedMore(moves, m);
    promised := promised[to.value := Extra(promised, to.value) + v.size];
    moved := moved + {v.v.name};
    moves := moves + [m];
  }

  lemma {:induction false} OffInOrderMore(moves: seq<Move>, k: nat, m: Move, from: string)
    requires OffInOrder(moves, k, from) && k <= |moves| && m.from == from
    requires forall i :: k <= i < |moves| ==> LargerFirst(moves[i], m.size, m.volume)
    ensures OffInOrder(moves + [m], k, from)
  {
  }

  /** Moved so far: off `from` in order, none smaller than the volumes to come. */
  ghost predicate Shrinking(moves0: seq<Move>, moves: seq<Move>, from: string, rest: seq<Vol>) {
    && moves0 <= moves && OffInOrder(moves, |moves0|, from)
    && forall k, j :: |moves0| <= k < |moves| && 0 <= j < |rest| ==> LargerFirst(moves[k], rest[j].size, rest[j].v.name)
  }

  lemma {:induction false} ShrinkOn(
    f: Fleet, src: Node, moves0: seq<Move>, moves: seq<Move>, more: seq<Move>, vols: seq<Vol>, i: nat)
    requires i < |vols| && Shrinking(moves0, moves, src.cand.name, vols[i..])
    requires forall j :: i < j < |vols| ==> Larger(vols[i], vols[j])
    requires more == moves || exists to :: more == moves + [Move(vols[i].v.name, src.cand.name, to, vols[i].size)]
    requires Tried(f, src, vols[..i], moves) && Tried(f, src, [vols[i]], more)
    ensures Shrinking(moves0, more, src.cand.name, vols[i + 1..]) && Tried(f, src, vols[..i + 1], more)
  {
    assert vols[..i + 1] == vols[..i] + [vols[i]];
    assert vols[i..][0] == vols[i];
    assert vols[i..][1..] == vols[i + 1..];
    if more != moves {
      var to :| more == moves + [Move(vols[i].v.name, src.cand.name, to, vols[i].size)];
      OffInOrderMore(moves, |moves0|, Move(vols[i].v.name, src.cand.name, to, vols[i].size), src.cand.name);
      TriedStays(f, src, vols[..i], moves, Move(vols[i].v.name, src.cand.name, to, vols[i].size));
    }
    TriedOneMore(f, src, vols[..i], vols[i], more);
  }

  /** The moves off one source. */
  method MoveOff(f: Fleet, src: Node, moves0: seq<Move>, promised0: map<string, nat>, moved0: set<string>)
    returns (moves: seq<Move>, promised: map<string, nat>, moved: set<string>)
    requires Registry(f) && f.high <= 1.0 && src in f.nodes && Source(f, src)
    requires Tracked(f, moves0, promised0, moved0)
    ensures Tracked(f, moves, promised, moved)
    ensures moves0 <= moves && OffInOrder(moves, |moves0|, src.cand.name)
    ensures |moves| < Room(f) ==> Exhausted(f, src, moves)
  {
    moves, promised, moved := moves0, promised0, moved0;
    var vols := VolsOn(f, f.vols, src.cand.name);
    VolsOnAre(f, f.vols, src.cand.name);
    vols := SortVols(vols);
    var i := 0;
    while i < |vols|
      invariant 0 <= i <= |vols|
      invariant Tracked(f, moves, promised, moved)
      invariant Shrinking(moves0, moves, src.cand.name, vols[i..])
      invariant Tried(f, src, vols[..i], moves)
    {
      if |moves| == Room(f) {
        break;
      }
      assert vols[i] in vols;
      ghost var before := moves;
      moves, promised, moved := TryMove(f, src, vols[i], moves, promised, moved);
      ShrinkOn(f, src, moves0, before, moves, vols, i);
      i := i + 1;
    }
    if |moves| < Room(f) {
      assert vols[..|vols|] == vols;
      AllTried(f, src, vols, moves);
    }
  }

  lemma {:induction false} TriedOneMore(f: Fleet, n: Node, vols: seq<Vol>, v: Vol, moves: seq<Move>)
    requires Tried(f, n, vols, moves) && Tried(f, n, [v], moves)
    ensures Tried(f, n, vols + [v], moves)
  {
    forall x | x in vols + [v] ensures x in vols || x in [v] {}
  }

  lemma {:induction false} AllTried(f: Fleet, n: Node, vols: seq<Vol>, moves: seq<Move>)
    requires Tried(f, n, vols, moves) && forall v :: v in f.vols && Movable(f, v, n.cand.name) ==> v in vols
    ensures Exhausted(f, n, moves)
  {
  }

  /** Earlier moves are off fuller nodes, or off the same one and of larger volumes. */
  ghost predicate InOrder(f: Fleet, moves: seq<Move>) {
    forall i, j, a, b :: 0 <= i < j < |moves| && a in f.nodes && b in f.nodes
                         && a.cand.name == moves[i].from && b.cand.name == moves[j].from
                         ==> (a == b && LargerFirst(moves[i], moves[j].size, moves[j].volume)) || Fuller(a, b)
  }

  /** Moves only off the first `k` sources. */
  ghost predicate OffFirst(moves: seq<Move>, sources: seq<Node>, k: nat)
    requires k <= |sources|
  {
    forall i :: 0 <= i < |moves| ==> exists s :: 0 <= s < k && sources[s].cand.name == moves[i].from
  }

  lemma {:induction false} SameNode(f: Fleet, a: Node, b: Node)
    requires Registry(f) && a in f.nodes && b in f.nodes && a.cand.name == b.cand.name
    ensures a == b
  {
    var i :| 0 <= i < |f.nodes| && f.nodes[i] == a;
    var j :| 0 <= j < |f.nodes| && f.nodes[j] == b;
    assert !(i < j) && !(j < i);
  }

  lemma {:induction false} OrderExtends(f: Fleet, sources: seq<Node>, k: nat, moves: seq<Move>, more: seq<Move>)
    requires Registry(f) && k < |sources| && (forall n :: n in sources ==> n in f.nodes)
    requires forall i, j :: 0 <= i < j < |sources| ==> Fuller(sources[i], sources[j])
    requires InOrder(f, moves) && OffFirst(moves, sources, k)
    requires moves <= more && OffInOrder(more, |moves|, sources[k].cand.name)
    ensures InOrder(f, more) && OffFirst(more, sources, k + 1)
  {
    forall i | 0 <= i < |more| ensures exists s :: 0 <= s < k + 1 && sources[s].cand.name == more[i].from {
      if i < |moves| {
        assert more[i] == moves[i];
        var s :| 0 <= s < k && sources[s].cand.name == moves[i].from;
      } else {
        assert sources[k].cand.name == more[i].from;
      }
    }
    forall i, j, a, b | 0 <= i < j < |more| && a in f.nodes && b in f.nodes
                        && a.cand.name == more[i].from && b.cand.name == more[j].from
      ensures (a == b && LargerFirst(more[i], more[j].size, more[j].volume)) || Fuller(a, b)
    {
      if j < |moves| {
        assert more[i] == moves[i] && more[j] == moves[j];
      } else {
        assert sources[k] in sources;
        SameNode(f, b, sources[k]);
        if i < |moves| {
          assert more[i] == moves[i];
          var s :| 0 <= s < k && sources[s].cand.name == moves[i].from;
          assert sources[s] in sources;
          SameNode(f, a, sources[s]);
        } else {
          SameNode(f, a, b);
        }
      }
    }
  }

  predicate SoundMarks(f: Fleet) {
    0.0 <= f.low < f.high <= 1.0
  }

  /** The i-th node is the first of the pool that does not answer. */
  ghost predicate FirstDownAt(nodes: seq<Node>, i: nat) {
    && i < |nodes| && nodes[i].member && !nodes[i].healthy
    && forall j :: 0 <= j < i && nodes[j].member ==> nodes[j].healthy
  }

  /** Why a pass moves nothing: its watermarks, else its first node down, else its moves in flight, else no target. */
  ghost predicate Why(f: Fleet, h: Hold) {
    match h
    case BadWatermarks => !SoundMarks(f)
    case Unreachable(node) => SoundMarks(f) && exists i: nat :: FirstDownAt(f.nodes, i) && f.nodes[i].cand.name == node
    case InFlight(moves) =>
      && SoundMarks(f) && (forall n :: n in f.nodes && n.member ==> n.healthy)
      && f.maxMoves <= moves == InFlightCount(f.vols)
    case NoTarget => Acts(f)
  }

  /**
   * One pass. It stops when no more moves may start; else every leg that may leave a source was moved, or no node
   * takes it given what the pass promised.
   */
  method PlanPool(f: Fleet) returns (moves: seq<Move>, held: Option<Hold>)
    requires Registry(f)
    ensures !Acts(f) ==> moves == [] && held.Some?
    ensures held.Some? ==> moves == []
    ensures Acts(f) ==> MovesOk(f, moves) && InOrder(f, moves)
    ensures Acts(f) && |moves| < Room(f) ==> AllExhausted(f, Sources(f, f.nodes), moves)
    ensures Acts(f) ==> (held.Some? <==> moves == [] && exists n :: n in f.nodes && Source(f, n))
    ensures held.Some? ==> Why(f, held.value)
  {
    moves, held := [], None;
    if !(0.0 <= f.low <= 1.0) || !(0.0 <= f.high <= 1.0) || f.low >= f.high {
      return [], Some(BadWatermarks);
    }
    var down := FirstDown(f.nodes);
    if down.Some? {
      assert FirstDownAt(f.nodes, down.value) && SoundMarks(f);
      return [], Some(Unreachable(f.nodes[down.value].cand.name));
    }
    if Room(f) == 0 {
      return [], Some(InFlight(InFlightCount(f.vols)));
    }
    var sources := Sources(f, f.nodes);
    SourcesAre(f, f.nodes);
    sources := SortSources(sources);
    if sources == [] {
      NoSources(f, sources);
      return;
    }
    assert sources[0] in sources;
    moves := MoveAll(f, sources);
    assert forall n :: n in Sources(f, f.nodes) ==> n in sources;
    if moves == [] {
      held := Some(NoTarget);
    }
  }

  ghost predicate PassState(f: Fleet, sources: seq<Node>, k: nat, moves: seq<Move>)
    requires k <= |sources|
  {
    InOrder(f, moves) && OffFirst(moves, sources, k)
    && (|moves| < Room(f) ==> AllExhausted(f, sources[..k], moves))
  }

  lemma {:induction false} PassStep(f: Fleet, sources: seq<Node>, k: nat, moves: seq<Move>, more: seq<Move>)
    requires Registry(f) && k < |sources| && (forall n :: n in sources ==> n in f.nodes)
    requires forall i, j :: 0 <= i < j < |sources| ==> Fuller(sources[i], sources[j])
    requires PassState(f, sources, k, moves) && moves <= more && OffInOrder(more, |moves|, sources[k].cand.name)
    requires |more| < Room(f) ==> Exhausted(f, sources[k], more)
    ensures PassState(f, sources, k + 1, more)
  {
    OrderExtends(f, sources, k, moves, more);
    if |more| < Room(f) {
      ExhaustedOneMore(f, sources[..k], sources[k], moves, more);
      assert sources[..k + 1] == sources[..k] + [sources[k]];
    }
  }

  method MoveAll(f: Fleet, sources: seq<Node>) returns (moves: seq<Move>)
    requires Registry(f) && f.high <= 1.0 && forall n :: n in sources <==> n in f.nodes && Source(f, n)
    requires forall i, j :: 0 <= i < j < |sources| ==> Fuller(sources[i], sources[j])
    ensures MovesOk(f, moves) && InOrder(f, moves)
    ensures |moves| < Room(f) ==> AllExhausted(f, sources, moves)
  {
    moves := [];
    var promised: map<string, nat>, moved: set<string> := map[], {};
    var i := 0;
    while i < |sources|
      invariant 0 <= i <= |sources|
      invariant Tracked(f, moves, promised, moved)
      invariant PassState(f, sources, i, moves)
    {
      ghost var before := moves;
      assert sources[i] in sources;
      moves, promised, moved := MoveOff(f, sources[i], moves, promised, moved);
      PassStep(f, sources, i, before, moves);
      i := i + 1;
    }
    assert sources[..|sources|] == sources;
  }

  ghost predicate AllExhausted(f: Fleet, nodes: seq<Node>, moves: seq<Move>) {
    forall n :: n in nodes ==> Exhausted(f, n, moves)
  }

  lemma {:induction false} ExhaustedOneMore(f: Fleet, nodes: seq<Node>, n: Node, moves: seq<Move>, more: seq<Move>)
    requires AllExhausted(f, nodes, moves) && moves <= more && Exhausted(f, n, more)
    ensures AllExhausted(f, nodes + [n], more)
  {
    forall x | x in nodes ensures Exhausted(f, x, more) {
      StillExhausted(f, x, moves, more);
    }
  }

  lemma {:induction false} NoSources(f: Fleet, sources: seq<Node>)
    requires sources == [] && forall n :: n in sources <==> n in f.nodes && Source(f, n)
    ensures forall n :: n in f.nodes ==> !Source(f, n)
  {
    forall n | n in f.nodes ensures !Source(f, n) {
      assert n !in sources;
    }
  }

  method FirstDown(nodes: seq<Node>) returns (down: Option<nat>)
    ensures down.Some? ==> FirstDownAt(nodes, down.value)
    ensures down.None? ==> forall n :: n in nodes && n.member ==> n.healthy
  {
    var i := 0;
    while i < |nodes|
      invariant 0 <= i <= |nodes|
      invariant forall n :: n in nodes[..i] && n.member ==> n.healthy
    {
      if nodes[i].member && !nodes[i].healthy {
        forall j | 0 <= j < i && nodes[j].member ensures nodes[j].healthy { assert nodes[j] in nodes[..i]; }
        return Some(i);
      }
      i := i + 1;
    }
    down := None;
  }
}
