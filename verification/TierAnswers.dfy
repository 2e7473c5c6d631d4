/** What a tier migration does next and when one may start, by the volume's fields and the nodes (src/migrate.rs). */
module TierAnswers {
  import opened Wrappers
  import opened Order
  import opened Placement
  import opened PlacementTheory
  import opened Volumes
  import opened TierMigration
  import R = Rebalance
  import A = RebalanceAnswers

  // --------------------------------------------------------------- next step

  /** The destination's selector takes the node of this name. */
  predicate Inside(d: Dest, node: string) {
    exists n :: n in d.nodes && n.cand.name == node && n.member
  }

  /** A created leg that is to go: outside the pool, and not the head's. */
  predicate Outside(d: Dest, v: Volume, leg: Leg) {
    leg in v.legs && !Inside(d, leg.node) && (v.head.Some? ==> leg.node != v.head.value)
  }

  /** An answering node of the pool with room for the leg, without one of the volume, in a domain of its own. */
  predicate Takes(d: Dest, n: R.Node, v: Volume, from: string, size: nat) {
    && n in d.nodes && n.healthy && n.member && n.cand.free >= size
    && !A.LegOn(v, n.cand.name) && A.ApartAt(d.nodes, d.rule, n, v, from)
  }

  lemma {:induction false} InsideIs(d: Dest, node: string)
    ensures InPool(d.nodes, node) <==> Inside(d, node)
  {
    if Inside(d, node) {
      var n :| n in d.nodes && n.cand.name == node && n.member;
      var i :| 0 <= i < |d.nodes| && d.nodes[i] == n;
    }
  }

  lemma {:induction false} OutsideIs(d: Dest, v: Volume, i: nat)
    requires i < |v.legs|
    ensures ToMove(d.nodes, v.head, v.legs[i]) <==> Outside(d, v, v.legs[i])
  {
    InsideIs(d, v.legs[i].node);
  }

  lemma {:induction false} TakesIs(d: Dest, n: R.Node, v: Volume, from: string, size: nat)
    requires Registry(d) && n in d.nodes
    ensures MayTake(d, n, v.legs, from, size) <==> Takes(d, n, v, from, size)
  {
    A.ApartIs(d.nodes, d.rule, n, v, from);
    A.HasLegIs(v, n.cand.name);
  }

  predicate Created(v: Volume) {
    forall l :: l in v.legs ==> l.state == LegState.Created
  }

  lemma {:induction false} CreatedIs(v: Volume)
    ensures VolumeOps.AllCreated(v.legs) <==> Created(v)
  {
    if VolumeOps.AllCreated(v.legs) {
      forall l | l in v.legs ensures l.state == LegState.Created {
        var i :| 0 <= i < |v.legs| && v.legs[i] == l;
      }
    } else {
      var i :| 0 <= i < |v.legs| && v.legs[i].state != LegState.Created;
      assert v.legs[i] in v.legs;
    }
  }

  /** It rests while a leg is not created, and when none is outside the pool, or none but the head's. */
  lemma {:induction false} RestsExactly(d: Dest, v: Volume, size: nat, s: Step)
    requires Follows(d, v, size, s)
    ensures s.LegNotCreated? <==> !Created(v)
    ensures s.Done? <==> Created(v) && forall l :: l in v.legs ==> Inside(d, l.node)
    ensures s.WaitingHandover? <==>
              Created(v) && (exists l :: l in v.legs && !Inside(d, l.node)) && forall l :: !Outside(d, v, l)
  {
    CreatedIs(v);
    forall i: nat | i < |v.legs| ensures InPool(d.nodes, v.legs[i].node) <==> Inside(d, v.legs[i].node) {
      InsideIs(d, v.legs[i].node);
      assert v.legs[i] in v.legs;
    }
    forall i: nat | i < |v.legs| ensures ToMove(d.nodes, v.head, v.legs[i]) <==> Outside(d, v, v.legs[i]) {
      OutsideIs(d, v, i);
    }
    if l :| l in v.legs && !Inside(d, l.node) {
      var i :| 0 <= i < |v.legs| && v.legs[i] == l;
    }
    if AnyToMove(d.nodes, v.head, v.legs) {
      var i :| 0 <= i < |v.legs| && ToMove(d.nodes, v.head, v.legs[i]);
      assert Outside(d, v, v.legs[i]);
    } else {
      forall l ensures !Outside(d, v, l) {
        if l in v.legs { var i :| 0 <= i < |v.legs| && v.legs[i] == l; }
      }
    }
  }

  /** Else the leg outside whose node's name comes first is to go, to the best node that takes it, or there is none. */
  lemma {:induction false} MovesExactly(d: Dest, v: Volume, size: nat, s: Step)
    requires Registry(d) && Follows(d, v, size, s) && (s.Move? || s.NoTarget?)
    ensures Created(v) && (exists l :: Outside(d, v, l) && l.node == s.from)
    ensures forall l :: Outside(d, v, l) ==> l.node == s.from || Before(s.from, l.node)
    ensures s.NoTarget? <==> forall n :: !Takes(d, n, v, s.from, size)
    ensures s.Move? ==> exists n :: Takes(d, n, v, s.from, size) && n.cand.name == s.to && IsBest(d, v, s.from, size, n)
  {
    CreatedIs(v);
    forall i: nat | i < |v.legs| ensures ToMove(d.nodes, v.head, v.legs[i]) <==> Outside(d, v, v.legs[i]) {
      OutsideIs(d, v, i);
    }
    var i :| 0 <= i < |v.legs| && v.legs[i].node == s.from && ToMove(d.nodes, v.head, v.legs[i]);
    assert Outside(d, v, v.legs[i]);
    forall l | Outside(d, v, l) ensures l.node == s.from || Before(s.from, l.node) {
      var k :| 0 <= k < |v.legs| && v.legs[k] == l;
    }
    forall n | n in d.nodes ensures MayTake(d, n, v.legs, s.from, size) <==> Takes(d, n, v, s.from, size) {
      TakesIs(d, n, v, s.from, size);
    }
    if s.Move? { BestIs(d, v, s.from, size, s.to); }
  }

  /** No other node that takes the leg is better, among all that do. */
  ghost predicate IsBest(d: Dest, v: Volume, from: string, size: nat, n: R.Node) {
    var f := Fitting(Candidates(d, d.nodes, v.legs, from), size);
    forall m :: Takes(d, m, v, from, size) ==> m.cand == n.cand || Better(n.cand, m.cand, f, d.weight)
  }

  lemma {:induction false} BestIs(d: Dest, v: Volume, from: string, size: nat, to: string)
    requires Registry(d) && BestMove(d, v.legs, from, size, to)
    ensures exists n :: Takes(d, n, v, from, size) && n.cand.name == to && IsBest(d, v, from, size, n)
  {
    var n :| n in d.nodes && n.cand.name == to && MayTake(d, n, v.legs, from, size)
             && forall m :: m in d.nodes && MayTake(d, m, v.legs, from, size) ==>
                  m.cand == n.cand || Better(n.cand, m.cand, Fitting(Candidates(d, d.nodes, v.legs, from), size), d.weight);
    TakesIs(d, n, v, from, size);
    forall m | Takes(d, m, v, from, size)
      ensures m.cand == n.cand || Better(n.cand, m.cand, Fitting(Candidates(d, d.nodes, v.legs, from), size), d.weight)
    {
      TakesIs(d, m, v, from, size);
    }
  }

  /** What it was chosen among: the nodes that take the leg. */
  lemma {:induction false} ChosenAmong(d: Dest, v: Volume, from: string, size: nat)
    requires Registry(d)
    ensures forall c :: c in Fitting(Candidates(d, d.nodes, v.legs, from), size)
                        <==> exists n :: Takes(d, n, v, from, size) && n.cand == c
  {
    FittingMayTake(d, v.legs, from, size);
    forall n | n in d.nodes ensures MayTake(d, n, v.legs, from, size) <==> Takes(d, n, v, from, size) {
      TakesIs(d, n, v, from, size);
    }
  }

  // ------------------------------------------------------------------- start

  /** The pool has answering nodes with room for all legs, each in a domain of its own. */
  ghost predicate Holds(d: Dest, homes: seq<R.Node>, legs: nat, size: nat) {
    && |homes| == legs
    && (forall i :: 0 <= i < |homes| ==>
          homes[i] in d.nodes && homes[i].healthy && homes[i].member && homes[i].cand.free >= size)
    && forall i, j :: 0 <= i < j < |homes| ==> Domain(homes[i].cand, d.rule) != Domain(homes[j].cand, d.rule)
  }

  lemma {:induction false} NodesFor(d: Dest, size: nat, g: seq<Candidate>) returns (homes: seq<R.Node>)
    requires Registry(d) && forall c :: c in g ==> c in RoomyNodes(d.nodes, size)
    ensures |homes| == |g| && forall i :: 0 <= i < |g| ==>
              homes[i] in d.nodes && homes[i].healthy && homes[i].member && homes[i].cand == g[i] && g[i].free >= size
  {
    RoomyAre(d.nodes, size);
    if g == [] {
      homes := [];
    } else {
      var last := g[|g| - 1];
      homes := NodesFor(d, size, g[..|g| - 1]);
      assert last in g;
      var n :| n in d.nodes && n.cand == last && n.healthy && n.member && last.free >= size;
      homes := homes + [n];
    }
  }

  /** A pool can hold the volume exactly when it has such nodes. */
  lemma {:induction false} FeasibleExactly(d: Dest, legs: nat, size: nat)
    requires Registry(d)
    ensures Feasible(RoomyNodes(d.nodes, size), d.rule, legs) <==> exists homes :: Holds(d, homes, legs, size)
  {
    RoomyAre(d.nodes, size);
    var f := RoomyNodes(d.nodes, size);
    if Feasible(f, d.rule, legs) {
      var g :| Spread(g, f, d.rule) && |g| == legs;
      var homes := NodesFor(d, size, g);
      assert Holds(d, homes, legs, size);
    }
    if exists homes :: Holds(d, homes, legs, size) {
      var homes: seq<R.Node> :| Holds(d, homes, legs, size);
      var g := seq(|homes|, i requires 0 <= i < |homes| => homes[i].cand);
      assert forall i :: 0 <= i < |homes| ==> g[i] == homes[i].cand && g[i] in f;
      assert Spread(g, f, d.rule);
    }
  }
}
