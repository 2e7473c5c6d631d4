/**
  Tier migration (src/migrate.rs): a volume's legs move into another pool one at a time, by leg replacements, the
  head's own leg last and only by promote.
*/
module TierMigration {
  import opened Wrappers
  import opened Order
  import opened Placement
  import opened PlacementTheory
  import opened Volumes
  import opened VolumeOps
  import R = Rebalance

  datatype Step = Move(from: string, to: string) | Done | WaitingHandover | LegNotCreated | NoTarget(from: string)

  /** The nodes as registered (`member` when the destination's selector takes them) and how copies are spread there. */
  datatype Dest = Dest(nodes: seq<R.Node>, rule: Rule, weight: real)

  ghost predicate Registry(d: Dest) {
    forall i, j :: 0 <= i < j < |d.nodes| ==> d.nodes[i].cand.name != d.nodes[j].cand.name
  }

  predicate InPool(nodes: seq<R.Node>, node: string) {
    exists i :: 0 <= i < |nodes| && nodes[i].cand.name == node && nodes[i].member
  }

  /** A leg that is to move: outside the pool and not the head's. */
  predicate ToMove(nodes: seq<R.Node>, head: Option<string>, leg: Leg) {
    !InPool(nodes, leg.node) && head != Some(leg.node)
  }

  predicate AnyToMove(nodes: seq<R.Node>, head: Option<string>, legs: seq<Leg>) {
    exists i :: 0 <= i < |legs| && ToMove(nodes, head, legs[i])
  }

  /** A node of the destination that may take the leg on `from` now. */
  predicate MayTake(d: Dest, n: R.Node, legs: seq<Leg>, from: string, size: nat) {
    && n.healthy && n.member && !HasLeg(legs, n.cand.name) && n.cand.free >= size
    && Apart(R.Domains(d.nodes, d.rule), legs, from, n.cand.name)
  }

  function Candidates(d: Dest, nodes: seq<R.Node>, legs: seq<Leg>, from: string): seq<Candidate> {
    if nodes == [] then []
    else
      var init, n := Candidates(d, nodes[..|nodes| - 1], legs, from), nodes[|nodes| - 1];
      if n.healthy && n.member && !HasLeg(legs, n.cand.name) && Apart(R.Domains(d.nodes, d.rule), legs, from, n.cand.name)
      then init + [n.cand] else init
  }

  lemma {:induction false} CandidatesAre(d: Dest, nodes: seq<R.Node>, legs: seq<Leg>, from: string, size: nat)
    requires forall i, j :: 0 <= i < j < |nodes| ==> nodes[i].cand.name != nodes[j].cand.name
    ensures var cs := Candidates(d, nodes, legs, from);
            && DistinctNames(cs)
            && (forall c :: c in cs && c.free >= size <==> exists n :: n in nodes && n.cand == c && MayTake(d, n, legs, from, size))
            && (forall c :: c in cs ==> exists n :: n in nodes && n.cand == c)
  {
    if nodes != [] {
      var init, last := nodes[..|nodes| - 1], nodes[|nodes| - 1];
      CandidatesAre(d, init, legs, from, size);
      assert forall n :: n in nodes <==> n in init || n == last;
      forall n | n in init ensures n.cand.name != last.cand.name {}
      var cs := Candidates(d, init, legs, from);
      forall i | 0 <= i < |cs| ensures cs[i].name != last.cand.name {
        assert cs[i] in cs;
      }
    }
  }

  /** The first name of the legs to move. */
  method FirstToMove(nodes: seq<R.Node>, head: Option<string>, legs: seq<Leg>) returns (first: Option<string>)
    ensures first.None? <==> !AnyToMove(nodes, head, legs)
    ensures first.Some? ==> exists i :: 0 <= i < |legs| && legs[i].node == first.value && ToMove(nodes, head, legs[i])
    ensures first.Some? ==> forall i :: 0 <= i < |legs| && ToMove(nodes, head, legs[i]) ==>
              legs[i].node == first.value || Before(first.value, legs[i].node)
  {
    first := None;
    var i := 0;
    while i < |legs|
      invariant 0 <= i <= |legs|
      invariant first.None? <==> forall j :: 0 <= j < i ==> !ToMove(nodes, head, legs[j])
      invariant first.Some? ==> exists j :: 0 <= j < i && legs[j].node == first.value && ToMove(nodes, head, legs[j])
      invariant first.Some? ==> forall j :: 0 <= j < i && ToMove(nodes, head, legs[j]) ==>
                  legs[j].node == first.value || Before(first.value, legs[j].node)
    {
      if ToMove(nodes, head, legs[i]) {
        if first.None? || Before(legs[i].node, first.value) {
          if first.Some? {
            forall j | 0 <= j < i && ToMove(nodes, head, legs[j])
              ensures legs[j].node == legs[i].node || Before(legs[i].node, legs[j].node)
            {
              if legs[j].node != first.value { BeforeTransitive(legs[i].node, first.value, legs[j].node); }
            }
          }
          first := Some(legs[i].node);
        } else {
          BeforeTrichotomy(legs[i].node, first.value);
        }
      }
      i := i + 1;
    }
  }

  /** `to` may take the leg, and is better than any other node that may. */
  ghost predicate BestMove(d: Dest, legs: seq<Leg>, from: string, size: nat, to: string) {
    exists n :: n in d.nodes && n.cand.name == to && MayTake(d, n, legs, from, size)
                && forall m :: m in d.nodes && MayTake(d, m, legs, from, size) ==>
                     m.cand == n.cand || Better(n.cand, m.cand, Fitting(Candidates(d, d.nodes, legs, from), size), d.weight)
  }

  /**
   * `s` is what the migration does next: nothing while a leg is not created, nor when every leg is in the pool or only
   * the head's is not; else the first leg to move goes to the best node that may take it.
   */
  ghost predicate Follows(d: Dest, v: Volume, size: nat, s: Step) {
    && (s.LegNotCreated? <==> !AllCreated(v.legs))
    && (s.Done? <==> AllCreated(v.legs) && forall i :: 0 <= i < |v.legs| ==> InPool(d.nodes, v.legs[i].node))
    && (s.WaitingHandover? <==> AllCreated(v.legs) && !AnyToMove(d.nodes, v.head, v.legs)
                                && exists i :: 0 <= i < |v.legs| && !InPool(d.nodes, v.legs[i].node))
    && (s.Move? || s.NoTarget? ==> FirstMove(d, v, s.from))
    && (s.NoTarget? ==> forall n :: n in d.nodes ==> !MayTake(d, n, v.legs, s.from, size))
    && (s.Move? ==> BestMove(d, v.legs, s.from, size, s.to))
  }

  /** The leg on `from` is to move, and none whose node's name comes before it is. */
  ghost predicate FirstMove(d: Dest, v: Volume, from: string) {
    && (exists i :: 0 <= i < |v.legs| && v.legs[i].node == from && ToMove(d.nodes, v.head, v.legs[i]))
    && (forall i :: 0 <= i < |v.legs| && ToMove(d.nodes, v.head, v.legs[i]) ==>
          v.legs[i].node == from || Before(from, v.legs[i].node))
  }

  method NextStep(d: Dest, v: Volume, size: nat) returns (s: Step)
    requires Registry(d)
    ensures Follows(d, v, size, s)
  {
    if !AllCreated(v.legs) {
      return LegNotCreated;
    }
    if forall i :: 0 <= i < |v.legs| ==> InPool(d.nodes, v.legs[i].node) {
      return Done;
    }
    var from := FirstToMove(d.nodes, v.head, v.legs);
    if from.None? {
      return WaitingHandover;
    }
    s := MoveOrNone(d, v.legs, from.value, size);
  }

  lemma {:induction false} FittingMayTake(d: Dest, legs: seq<Leg>, from: string, size: nat)
    requires Registry(d)
    ensures var f := Fitting(Candidates(d, d.nodes, legs, from), size);
            && DistinctNames(f) && DistinctNames(Candidates(d, d.nodes, legs, from))
            && (forall c :: c in f <==> exists n :: n in d.nodes && n.cand == c && MayTake(d, n, legs, from, size))
  {
    CandidatesAre(d, d.nodes, legs, from, size);
    FittingIs(Candidates(d, d.nodes, legs, from), size);
  }

  lemma {:induction false} TopMove(d: Dest, legs: seq<Leg>, from: string, size: nat, ranking: seq<Candidate>)
    requires Registry(d)
    requires IsRanking(ranking, Fitting(Candidates(d, d.nodes, legs, from), size), d.rule, d.weight)
    ensures ranking != [] ==> BestMove(d, legs, from, size, ranking[0].name)
    ensures ranking == [] ==> forall n :: n in d.nodes ==> !MayTake(d, n, legs, from, size)
  {
    var f := Fitting(Candidates(d, d.nodes, legs, from), size);
    FittingMayTake(d, legs, from, size);
    RankedNone(f, d.rule, d.weight, ranking);
    if ranking != [] {
      R.TopIsBest(ranking, f, d.rule, d.weight);
      var n :| n in d.nodes && n.cand == ranking[0] && MayTake(d, n, legs, from, size);
      forall m | m in d.nodes && MayTake(d, m, legs, from, size)
        ensures m.cand == n.cand || Better(n.cand, m.cand, f, d.weight)
      {
        assert m.cand in f;
      }
    } else {
      forall n | n in d.nodes ensures !MayTake(d, n, legs, from, size) {
        assert n.cand !in f;
      }
    }
  }

  method MoveOrNone(d: Dest, legs: seq<Leg>, from: string, size: nat) returns (s: Step)
    requires Registry(d)
    ensures s.NoTarget? || s.Move?
    ensures s.from == from
    ensures s.NoTarget? ==> forall n :: n in d.nodes ==> !MayTake(d, n, legs, from, size)
    ensures s.Move? ==> BestMove(d, legs, from, size, s.to)
  {
    FittingMayTake(d, legs, from, size);
    var r, ranking := Plan(Candidates(d, d.nodes, legs, from), d.rule, 1, size, d.weight);
    TopMove(d, legs, from, size, ranking);
    RankedNone(Fitting(Candidates(d, d.nodes, legs, from), size), d.rule, d.weight, ranking);
    if r.Err? {
      return NoTarget(from);
    }
    assert r.value[0] == NamesOf(ranking[..1])[0] == ranking[0].name;
    s := Move(from, r.value[0]);
  }

  lemma {:induction false} RankedNone(f: seq<Candidate>, rule: Rule, weight: real, ranking: seq<Candidate>)
    requires DistinctNames(f) && IsRanking(ranking, f, rule, weight)
    ensures f == [] <==> ranking == []
  {
    if f != [] {
      var best := BestExists(f, f[0], f, rule, weight);
      assert best in ranking;
    }
    if ranking != [] {
      assert ranking[0] in ranking;
    }
  }

  // -------------------------------------------------------------- the record

  /** The destination's nodes that answer. */
  function Answering(nodes: seq<R.Node>): seq<Candidate> {
    if nodes == [] then []
    else
      var init, n := Answering(nodes[..|nodes| - 1]), nodes[|nodes| - 1];
      if n.healthy && n.member then init + [n.cand] else init
  }

  /** Those with room for a leg, as a start counts them. */
  function RoomyNodes(nodes: seq<R.Node>, size: nat): seq<Candidate> {
    Fitting(Answering(nodes), size)
  }

  lemma {:induction false} AnsweringAre(nodes: seq<R.Node>)
    requires forall i, j :: 0 <= i < j < |nodes| ==> nodes[i].cand.name != nodes[j].cand.name
    ensures forall c :: c in Answering(nodes) <==> exists n :: n in nodes && n.cand == c && n.healthy && n.member
    ensures DistinctNames(Answering(nodes))
  {
    if nodes != [] {
      var init, last := nodes[..|nodes| - 1], nodes[|nodes| - 1];
      AnsweringAre(init);
      assert forall n :: n in nodes <==> n in init || n == last;
      forall n | n in init ensures n.cand.name != last.cand.name {}
      forall i | 0 <= i < |Answering(init)| ensures Answering(init)[i].name != last.cand.name {
        assert Answering(init)[i] in Answering(init);
      }
    }
  }

  lemma {:induction false} RoomyAre(nodes: seq<R.Node>, size: nat)
    requires forall i, j :: 0 <= i < j < |nodes| ==> nodes[i].cand.name != nodes[j].cand.name
    ensures forall c :: c in RoomyNodes(nodes, size) <==>
              exists n :: n in nodes && n.cand == c && n.healthy && n.member && c.free >= size
  {
    AnsweringAre(nodes);
    FittingIs(Answering(nodes), size);
  }

  datatype Migration = Migration(to: string, waiting: bool)

  datatype Started = Begun | Already | Refused

  class Tier {
    var pool: Option<string>
    var rung: string
    var migration: Option<Migration>

    constructor (pool: Option<string>, rung: string)
      ensures this.pool == pool && this.rung == rung && migration.None?
    {
      this.pool, this.rung, migration := pool, rung, None;
    }

    /** Ask for a migration: of a whole mirror at rest, into a pool that can hold it in distinct domains. */
    method Start(d: Dest, v: Volume, size: nat, to: string) returns (r: Started)
      requires Registry(d)
      modifies this`migration
      ensures r == Begun <==>
                && old(migration).None? && v.assembly == Assembled && !v.fenced && v.replacing.None? && v.window.None?
                && (exists i :: 0 <= i < |v.legs| && !InPool(d.nodes, v.legs[i].node))
                && Feasible(RoomyNodes(d.nodes, size), d.rule, |v.legs|)
      ensures r == Already <==> old(migration).Some? && old(migration).value.to == to
      ensures migration == if r == Begun then Some(Migration(to, false)) else old(migration)
    {
      if migration.Some? {
        return if migration.value.to == to then Already else Refused;
      }
      if v.assembly != Assembled || v.fenced || v.replacing.Some? || v.window.Some? {
        return Refused;
      }
      if forall i :: 0 <= i < |v.legs| ==> InPool(d.nodes, v.legs[i].node) {
        return Refused;
      }
      AnsweringAre(d.nodes);
      var plan, ranking := Plan(Answering(d.nodes), d.rule, |v.legs|, size, d.weight);
      FittingIs(Answering(d.nodes), size);
      PlanSucceedsExactly(ranking, RoomyNodes(d.nodes, size), d.rule, d.weight, |v.legs|);
      if plan.Err? {
        return Refused;
      }
      migration := Some(Migration(to, false));
      r := Begun;
    }

    /** Legs already moved stay where they are. */
    method Cancel() returns (had: bool)
      modifies this`migration
      ensures had == old(migration).Some? && migration.None?
    {
      had := migration.Some?;
      migration := None;
    }

    /** Record a step; `rungOf` is the destination's rung while it is in the configuration. */
    method Record(s: Step, rungOf: Option<string>)
      requires migration.Some?
      modifies this
      ensures s.Done? ==> pool == Some(old(migration).value.to) && migration.None? && rung == if rungOf.Some? then rungOf.value else old(rung)
      ensures !s.Done? ==> pool == old(pool) && rung == old(rung) && migration == Some(old(migration).value.(waiting := s.WaitingHandover?))
    {
      if s.Done? {
        pool := Some(migration.value.to);
        rung := if rungOf.Some? then rungOf.value else rung;
        migration := None;
      } else {
        migration := Some(migration.value.(waiting := s.WaitingHandover?));
      }
    }
  }
}
