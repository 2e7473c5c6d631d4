/** What one pass moves and what it leaves, in bytes and by the records' fields (src/rebalance.rs, `plan`). */
module RebalanceAnswers {
  import opened Wrappers
  import opened Order
  import opened Placement
  import opened Volumes
  import opened Rebalance
  import opened RebalanceTheory

  // ------------------------------------------------------------- in bytes

  function InUse(c: Candidate): int {
    c.total - c.free
  }

  predicate OverHigh(f: Fleet, n: Node) {
    n.member && InUse(n.cand) as real > f.high * n.cand.total as real
  }

  lemma {:induction false} UsedIs(c: Candidate)
    requires c.total > 0
    ensures Used(c) == InUse(c) as real / c.total as real
  {
    var t, u := c.total as real, c.free as real;
    var q := u / t;
    assert q * t == u;
    Distributes(q, t);
    assert (t - u) / t == ((1.0 - q) * t) / t;
  }

  lemma {:induction false} Above(a: real, t: real, h: real)
    requires t > 0.0
    ensures a / t > h <==> a > h * t
    ensures a / t < h <==> a < h * t
  {
    Ratio(a, t, h);
    var q := a / t;
    assert q * t == a;
    if q < h { assert q * t < h * t; } else { assert q * t >= h * t; }
  }

  lemma {:induction false} SourceIs(f: Fleet, n: Node)
    requires 0.0 <= f.high
    ensures Source(f, n) <==> OverHigh(f, n)
  {
    if n.cand.total > 0 {
      UsedIs(n.cand);
      Above(InUse(n.cand) as real, n.cand.total as real, f.high);
    }
  }

  /** Of two nodes above the watermark the fuller one, by what is in use of what each has, comes first, then by name. */
  lemma {:induction false} FullerIs(a: Node, b: Node)
    requires a.cand.total > 0 && b.cand.total > 0
    ensures var x, y := InUse(a.cand) * b.cand.total, InUse(b.cand) * a.cand.total;
            Fuller(a, b) <==> x > y || (x == y && Before(a.cand.name, b.cand.name))
  {
    UsedIs(a.cand);
    UsedIs(b.cand);
    Cross(InUse(a.cand), a.cand.total, InUse(b.cand), b.cand.total);
  }

  lemma {:induction false} Cross(a: int, s: nat, b: int, t: nat)
    requires s > 0 && t > 0
    ensures a as real / s as real > b as real / t as real <==> a * t > b * s
    ensures a as real / s as real == b as real / t as real <==> a * t == b * s
  {
    var p, q, x, y := a as real / s as real, b as real / t as real, s as real, t as real;
    assert p * x == a as real && q * y == b as real;
    assert a as real * y == p * (x * y);
    assert b as real * x == q * (x * y);
    assert (a * t) as real == a as real * y && (b * s) as real == b as real * x;
    Scale(p, q, x * y);
  }

  lemma {:induction false} Scale(p: real, q: real, k: real)
    requires k > 0.0
    ensures p > q <==> p * k > q * k
    ensures p == q <==> p * k == q * k
  {
    if p > q { assert (p - q) * k > 0.0; }
    if p < q { assert (q - p) * k > 0.0; }
  }

  // -------------------------------------------------- a leg that may leave

  predicate LegOn(v: Volume, node: string) {
    exists l :: l in v.legs && l.node == node
  }

  /** One of the pool's mirrors at rest, whole, not held back, with a created leg on a node that is not its head. */
  predicate MayGo(f: Fleet, v: Vol, from: string) {
    && v.inPool && !v.busy && !v.migrating
    && v.v.assembly == Assembled && !v.v.fenced && v.v.replacing == None && v.v.window == None
    && (v.v.nextReleg.Some? ==> v.v.nextReleg.value <= f.now)
    && v.v.head != Some(from)
    && exists l :: l in v.v.legs && l.node == from && l.state == Created
  }

  lemma {:induction false} MovableIs(f: Fleet, v: Vol, from: string)
    ensures Movable(f, v, from) <==> MayGo(f, v, from)
  {
    if MayGo(f, v, from) {
      var l :| l in v.v.legs && l.node == from && l.state == Created;
      var i :| 0 <= i < |v.v.legs| && v.v.legs[i] == l;
    }
  }

  // -------------------------------------------------- a node that may take it

  /** No leg but the one on `from` is on a registered node of the same domain. */
  predicate ApartAt(nodes: seq<Node>, rule: Rule, n: Node, v: Volume, from: string) {
    forall l, m :: l in v.legs && l.node != from && m in nodes && m.cand.name == l.node
                   ==> Domain(m.cand, rule) != Domain(n.cand, rule)
  }

  /** A node of the pool below the low watermark that with the leg and `extra` bytes stays at or under the high one. */
  predicate MayTake(f: Fleet, n: Node, v: Vol, from: string, extra: nat) {
    && n.healthy && n.member && !LegOn(v.v, n.cand.name)
    && ApartAt(f.nodes, Rule(f.rungs, v.rung), n, v.v, from)
    && n.cand.total > 0 && InUse(n.cand) as real < f.low * n.cand.total as real
    && (if InUse(n.cand) > 0 then InUse(n.cand) else 0) as real + (extra + v.size) as real <= f.high * n.cand.total as real
  }

  lemma {:induction false} DomainsAre(nodes: seq<Node>, rule: Rule)
    requires forall i, j :: 0 <= i < j < |nodes| ==> nodes[i].cand.name != nodes[j].cand.name
    ensures forall n :: n in nodes ==> n.cand.name in Domains(nodes, rule)
                                       && Domains(nodes, rule)[n.cand.name] == Domain(n.cand, rule)
    ensures forall name :: name in Domains(nodes, rule) ==> exists n :: n in nodes && n.cand.name == name
  {
    if nodes != [] {
      var init, last := nodes[..|nodes| - 1], nodes[|nodes| - 1];
      DomainsAre(init, rule);
      assert forall n :: n in nodes <==> n in init || n == last;
      forall n | n in init ensures n.cand.name != last.cand.name {
        var i :| 0 <= i < |init| && init[i] == n;
        assert nodes[i] == n;
      }
    }
  }

  lemma {:induction false} ApartIs(nodes: seq<Node>, rule: Rule, n: Node, v: Volume, from: string)
    requires (forall i, j :: 0 <= i < j < |nodes| ==> nodes[i].cand.name != nodes[j].cand.name) && n in nodes
    ensures VolumeOps.Apart(Domains(nodes, rule), v.legs, from, n.cand.name) <==> ApartAt(nodes, rule, n, v, from)
  {
    var dom := Domains(nodes, rule);
    DomainsAre(nodes, rule);
    if ApartAt(nodes, rule, n, v, from) {
      forall i | 0 <= i < |v.legs| && v.legs[i].node != from && v.legs[i].node in dom
        ensures dom[v.legs[i].node] != dom[n.cand.name]
      {
        var m :| m in nodes && m.cand.name == v.legs[i].node;
        assert v.legs[i] in v.legs;
      }
    }
  }

  lemma {:induction false} HasLegIs(v: Volume, node: string)
    ensures VolumeOps.HasLeg(v.legs, node) <==> LegOn(v, node)
  {
    if LegOn(v, node) {
      var l :| l in v.legs && l.node == node;
      var i :| 0 <= i < |v.legs| && v.legs[i] == l;
    }
  }

  lemma {:induction false} FitsIs(f: Fleet, n: Node, v: Vol, from: string, extra: nat)
    requires Registry(f) && n in f.nodes && 0.0 <= f.low
    ensures Fits(f, n, v, from, extra) <==> MayTake(f, n, v, from, extra)
  {
    ApartIs(f.nodes, RuleOf(f, v), n, v.v, from);
    HasLegIs(v.v, n.cand.name);
    if n.cand.total > 0 {
      UsedIs(n.cand);
      Above(InUse(n.cand) as real, n.cand.total as real, f.low);
      Ratio((UsedBytes(n.cand) + extra + v.size) as real, n.cand.total as real, f.high);
    }
  }

  // ---------------------------------------------------------------- the pass

  /** The bytes of the volumes moved to the node. */
  function BytesTo(moves: seq<Move>, node: string): nat {
    if moves == [] then 0
    else
      var m := moves[|moves| - 1];
      (if m.to == node then m.size else 0) + BytesTo(moves[..|moves| - 1], node)
  }

  lemma {:induction false} PromisedIs(moves: seq<Move>, node: string)
    ensures Extra(PromisedTo(moves), node) == BytesTo(moves, node)
  {
    if moves != [] { PromisedIs(moves[..|moves| - 1], node); }
  }

  /** Each move is of a leg that may leave a node above the watermark, to a node that may take it on top of the moves before. */
  lemma {:induction false} PassMoves(f: Fleet, moves: seq<Move>, i: nat) returns (src: Node, v: Vol, dst: Node)
    requires Registry(f) && Acts(f) && MovesOk(f, moves) && i < |moves|
    ensures src in f.nodes && v in f.vols && dst in f.nodes
    ensures moves[i] == Move(v.v.name, src.cand.name, dst.cand.name, v.size)
    ensures OverHigh(f, src) && MayGo(f, v, src.cand.name)
    ensures MayTake(f, dst, v, src.cand.name, BytesTo(moves[..i], dst.cand.name))
  {
    assert MoveOk(f, moves, i);
    src, v :| src in f.nodes && v in f.vols && Source(f, src) && src.cand.name == moves[i].from
              && v.v.name == moves[i].volume && v.size == moves[i].size && Movable(f, v, moves[i].from)
              && BestTarget(f, v, moves[i].from, PromisedTo(moves[..i]), moves[i].to);
    var k :| 0 <= k < |f.nodes| && f.nodes[k].cand.name == moves[i].to
             && Fits(f, f.nodes[k], v, moves[i].from, Extra(PromisedTo(moves[..i]), moves[i].to));
    dst := f.nodes[k];
    SourceIs(f, src);
    MovableIs(f, v, src.cand.name);
    PromisedIs(moves[..i], dst.cand.name);
    FitsIs(f, dst, v, src.cand.name, BytesTo(moves[..i], dst.cand.name));
  }

  /** A pass that could have moved more left no leg that may leave such a node with a node that may take it. */
  lemma {:induction false} PassLeavesNone(f: Fleet, moves: seq<Move>, src: Node, v: Vol, dst: Node)
    requires Registry(f) && Acts(f) && (|moves| < Room(f) ==> AllExhausted(f, Sources(f, f.nodes), moves))
    requires |moves| + |Flying(f.vols)| < f.maxMoves
    requires src in f.nodes && OverHigh(f, src) && v in f.vols && MayGo(f, v, src.cand.name)
    requires dst in f.nodes && MayTake(f, dst, v, src.cand.name, BytesTo(moves, dst.cand.name))
    ensures exists i :: 0 <= i < |moves| && moves[i].volume == v.v.name
  {
    RoomIs(f);
    SourceIs(f, src);
    SourcesAre(f, f.nodes);
    assert Exhausted(f, src, moves);
    MovableIs(f, v, src.cand.name);
    PromisedIs(moves, dst.cand.name);
    FitsIs(f, dst, v, src.cand.name, BytesTo(moves, dst.cand.name));
    assert Moved(moves, v.v.name);
  }
}
