/** A tier migration ends, where its legs end up, and why it is not held for want of a node (src/migrate.rs). */
module TierTheory {
  import opened Wrappers
  import opened Placement
  import opened PlacementTheory
  import opened Volumes
  import opened VolumeOps
  import opened Lifecycle
  import opened RelegTheory
  import opened TierMigration
  import R = Rebalance

  // -------------------------------------------------------- always a target

  lemma {:induction false} DomainsAre(nodes: seq<R.Node>, rule: Rule)
    requires forall i, j :: 0 <= i < j < |nodes| ==> nodes[i].cand.name != nodes[j].cand.name
    ensures forall n :: n in nodes ==> n.cand.name in R.Domains(nodes, rule)
                                       && R.Domains(nodes, rule)[n.cand.name] == Domain(n.cand, rule)
  {
    if nodes != [] {
      var init, last := nodes[..|nodes| - 1], nodes[|nodes| - 1];
      DomainsAre(init, rule);
      forall n | n in nodes
        ensures n.cand.name in R.Domains(nodes, rule) && R.Domains(nodes, rule)[n.cand.name] == Domain(n.cand, rule)
      {
        if n in init {
          var i :| 0 <= i < |init| && init[i] == n;
          assert n.cand.name != last.cand.name;
        } else {
          assert n == last;
        }
      }
    }
  }

  /** The domains of the legs that stay. */
  function Staying(dom: map<string, string>, legs: seq<Leg>, from: string): set<string> {
    set i | 0 <= i < |legs| && legs[i].node != from && legs[i].node in dom :: dom[legs[i].node]
  }

  lemma {:induction false} StayingMore(dom: map<string, string>, legs: seq<Leg>, from: string)
    requires legs != []
    ensures var init, last := legs[..|legs| - 1], legs[|legs| - 1];
            Staying(dom, legs, from)
            == if last.node != from && last.node in dom then Staying(dom, init, from) + {dom[last.node]} else Staying(dom, init, from)
  {
    var init := legs[..|legs| - 1];
    assert legs == init + [legs[|legs| - 1]];
  }

  lemma {:induction false} FewStay(dom: map<string, string>, legs: seq<Leg>, from: string)
    ensures |Staying(dom, legs, from)| <= |legs|
    ensures HasLeg(legs, from) ==> |Staying(dom, legs, from)| < |legs|
  {
    if legs == [] {
      assert Staying(dom, legs, from) == {};
    } else {
      var init, last := legs[..|legs| - 1], legs[|legs| - 1];
      FewStay(dom, init, from);
      StayingMore(dom, legs, from);
      if last.node != from && HasLeg(legs, from) {
        var i :| 0 <= i < |legs| && legs[i].node == from;
        assert init[i].node == from;
      }
    }
  }

  /** A node had room for a leg when the migration started, carries none of the volume now, and has not the room. */
  predicate RoomLost(start: Dest, d: Dest, legs: seq<Leg>, size: nat, n: R.Node) {
    && n in start.nodes && n.healthy && n.member && n.cand.free >= size && !HasLeg(legs, n.cand.name)
    && !exists now :: now in d.nodes && now.cand.name == n.cand.name && now.healthy && now.member && now.cand.free >= size
  }

  /** Of the domains that could hold the volume at the start, one holds no leg that stays. */
  lemma {:induction false} ADomainIsFree(start: Dest, dom: map<string, string>, legs: seq<Leg>, from: string, size: nat)
    returns (n: R.Node)
    requires Registry(start) && HasLeg(legs, from) && Feasible(RoomyNodes(start.nodes, size), start.rule, |legs|)
    ensures n in start.nodes && n.healthy && n.member && n.cand.free >= size
    ensures Domain(n.cand, start.rule) !in Staying(dom, legs, from)
  {
    var f := RoomyNodes(start.nodes, size);
    var q: seq<Candidate> :| |q| == |legs| && PlacementTheory.Spread(q, f, start.rule);
    var stay := Staying(dom, legs, from);
    SpreadSize(q, f, start.rule);
    FewStay(dom, legs, from);
    if DomainsOf(q, start.rule) <= stay { SubsetSize(DomainsOf(q, start.rule), stay); assert false; }
    var x :| x in DomainsOf(q, start.rule) && x !in stay;
    var k :| 0 <= k < |q| && Domain(q[k], start.rule) == x;
    RoomyAre(start.nodes, size);
    assert q[k] in f;
    n :| n in start.nodes && n.cand == q[k] && n.healthy && n.member && q[k].free >= size;
  }

  /** The same nodes are in the pool, in the same domains, as when the migration started. */
  ghost predicate SamePool(start: Dest, d: Dest) {
    && Registry(d) && d.rule == start.rule && PoolNames(d.nodes) == PoolNames(start.nodes)
    && R.Domains(d.nodes, d.rule) == R.Domains(start.nodes, start.rule)
  }

  /** The node of such a domain carries no leg, and may take one while it has its room. */
  lemma {:induction false} FreeDomainTakes(start: Dest, d: Dest, legs: seq<Leg>, from: string, size: nat, n: R.Node)
    requires Registry(start) && SamePool(start, d) && !InPool(d.nodes, from)
    requires n in start.nodes && n.healthy && n.member && n.cand.free >= size
    requires Domain(n.cand, start.rule) !in Staying(R.Domains(d.nodes, d.rule), legs, from)
    ensures RoomLost(start, d, legs, size, n) || exists now :: now in d.nodes && MayTake(d, now, legs, from, size)
  {
    var dom := R.Domains(d.nodes, d.rule);
    DomainsAre(start.nodes, start.rule);
    InPoolIsNamed(d.nodes, from);
    assert n.cand.name in PoolNames(start.nodes);
    assert forall i :: 0 <= i < |legs| && legs[i].node != from && legs[i].node in dom ==> dom[legs[i].node] in Staying(dom, legs, from);
    assert !HasLeg(legs, n.cand.name);
    if !RoomLost(start, d, legs, size, n) {
      var now :| now in d.nodes && now.cand.name == n.cand.name && now.healthy && now.member && now.cand.free >= size;
      assert MayTake(d, now, legs, from, size);
    }
  }

  /**
   * A migration that started is held for want of a node only where room that was there at the start has gone from a node
   * without a leg of the volume. What its own moves take does not count.
   */
  lemma {:induction false} RoomMeansATarget(start: Dest, d: Dest, v: Volume, size: nat, s: TierMigration.Step)
    requires Registry(start) && Feasible(RoomyNodes(start.nodes, size), start.rule, |v.legs|)
    requires SamePool(start, d) && Follows(d, v, size, s)
    ensures s.NoTarget? ==> exists n :: RoomLost(start, d, v.legs, size, n)
  {
    if s.NoTarget? {
      var n := ADomainIsFree(start, R.Domains(d.nodes, d.rule), v.legs, s.from, size);
      FreeDomainTakes(start, d, v.legs, s.from, size, n);
    }
  }

  // ------------------------------------------------------------------- moves

  /** The legs once the one on `from` has moved to `to`. */
  function Placed(legs: seq<Leg>, from: string, to: string): seq<Leg> {
    Swapped(legs, from, Leg(to, None, Created, None, None, None, None))
  }

  /** A leg outside the pool may go to a node in it, apart from those that stay. */
  predicate MovesIn(pool: set<string>, dom: map<string, string>, legs: seq<Leg>, from: string, to: string) {
    HasLeg(legs, from) && from !in pool && to in pool && !HasLeg(legs, to) && Apart(dom, legs, from, to)
  }

  /** What a step proposes is such a move, of a leg that is not the head's. */
  lemma {:induction false} ProposedMoves(d: Dest, v: Volume, size: nat, s: TierMigration.Step)
    requires Registry(d) && Follows(d, v, size, s) && s.Move?
    ensures MovesIn(PoolNames(d.nodes), R.Domains(d.nodes, d.rule), v.legs, s.from, s.to) && v.head != Some(s.from)
  {
    var n :| n in d.nodes && n.cand.name == s.to && MayTake(d, n, v.legs, s.from, size);
    assert n.cand.name in PoolNames(d.nodes);
    InPoolIsNamed(d.nodes, s.from);
  }

  function PoolNames(nodes: seq<R.Node>): set<string> {
    set n | n in nodes && n.member :: n.cand.name
  }

  /** How many legs are still to move. */
  function Left(pool: set<string>, head: Option<string>, legs: seq<Leg>): nat {
    if legs == [] then 0
    else
      var l := legs[|legs| - 1];
      Left(pool, head, legs[..|legs| - 1]) + if l.node !in pool && head != Some(l.node) then 1 else 0
  }

  lemma {:induction false} LeftUpdated(pool: set<string>, head: Option<string>, legs: seq<Leg>, k: nat, leg: Leg)
    requires k < |legs| && legs[k].node !in pool && head != Some(legs[k].node) && leg.node in pool
    ensures Left(pool, head, legs[k := leg]) == Left(pool, head, legs) - 1
  {
    var last := |legs| - 1;
    if k == last {
      assert legs[k := leg][..last] == legs[..last];
    } else {
      assert legs[k := leg][..last] == legs[..last][k := leg];
      LeftUpdated(pool, head, legs[..last], k, leg);
    }
  }

  lemma {:induction false} NoneLeft(pool: set<string>, head: Option<string>, legs: seq<Leg>)
    ensures Left(pool, head, legs) == 0 <==> forall i :: 0 <= i < |legs| ==> legs[i].node in pool || head == Some(legs[i].node)
  {
    if legs != [] {
      var init := legs[..|legs| - 1];
      NoneLeft(pool, head, init);
      assert forall i :: 0 <= i < |init| ==> init[i] == legs[i];
    }
  }

  /** Leg `k` is in the pool, in a domain that no other leg of the volume has. */
  predicate Settled(pool: set<string>, dom: map<string, string>, legs: seq<Leg>, k: nat) {
    && k < |legs| && legs[k].node in pool && legs[k].node in dom
    && forall j :: 0 <= j < |legs| && j != k && legs[j].node in dom ==> dom[legs[j].node] != dom[legs[k].node]
  }

  ghost predicate SettledOn(pool: set<string>, dom: map<string, string>, legs: seq<Leg>, node: string) {
    exists k :: 0 <= k < |legs| && legs[k].node == node && Settled(pool, dom, legs, k)
  }

  lemma {:induction false} MoveSettles(
    pool: set<string>, dom: map<string, string>, head: Option<string>, legs: seq<Leg>, from: string, to: string)
    requires DistinctLegs(legs) && MovesIn(pool, dom, legs, from, to) && head != Some(from)
    ensures var next := Placed(legs, from, to);
            && DistinctLegs(next) && |next| == |legs| && SettledOn(pool, dom, next, to)
            && Left(pool, head, next) == Left(pool, head, legs) - 1
            && forall node :: SettledOn(pool, dom, legs, node) ==> SettledOn(pool, dom, next, node)
  {
    var leg := Leg(to, None, Created, None, None, None, None);
    var next := Placed(legs, from, to);
    SwapFacts(legs, from, leg);
    var k := IndexOn(legs, from);
    LeftUpdated(pool, head, legs, k, leg);
    assert forall j :: 0 <= j < |legs| && j != k ==> next[j] == legs[j] && legs[j].node != from;
    assert Settled(pool, dom, next, k);
    forall node | SettledOn(pool, dom, legs, node) ensures SettledOn(pool, dom, next, node) {
      var i :| 0 <= i < |legs| && legs[i].node == node && Settled(pool, dom, legs, i);
      assert i != k;
      assert Settled(pool, dom, next, i);
    }
  }

  lemma {:induction false} SameNodesSettle(
    pool: set<string>, dom: map<string, string>, a: seq<Leg>, b: seq<Leg>, node: string)
    requires SameNodes(a, b) && SettledOn(pool, dom, a, node)
    ensures SettledOn(pool, dom, b, node)
  {
    var i :| 0 <= i < |a| && a[i].node == node && Settled(pool, dom, a, i);
    assert Settled(pool, dom, b, i);
  }

  lemma {:induction false} SameLeft(pool: set<string>, head: Option<string>, a: seq<Leg>, b: seq<Leg>)
    requires SameNodes(a, b)
    ensures Left(pool, head, b) == Left(pool, head, a)
  {
    if a != [] { SameLeft(pool, head, a[..|a| - 1], b[..|b| - 1]); }
  }

  // -------------------------------------------------------------------- runs

  /** A pass over the volume: what it reads, the step that follows, and whether a move it begins completes. */
  datatype Round = Round(d: Dest, v: Volume, s: TierMigration.Step, done: bool)

  predicate Moved(r: Round) {
    r.s.Move? && r.done
  }

  function LegsAfter(r: Round): seq<Leg> {
    if Moved(r) then Placed(r.v.legs, r.s.from, r.s.to) else r.v.legs
  }

  /** The round reads the pool the migration started with, and its step is the one that follows. */
  ghost predicate Reads(start: Dest, size: nat, r: Round) {
    SamePool(start, r.d) && Follows(r.d, r.v, size, r.s)
  }

  /**
   * Rounds of a migration. In between, legs may be lost and come back, the head may move, moves may fail, and free space
   * and health change. Only the migration moves legs here: nobody moves one by hand and none is re-legged.
   */
  ghost predicate Migrates(start: Dest, size: nat, rounds: seq<Round>) {
    && Registry(start)
    && (forall i :: 0 <= i < |rounds| ==> ReadsAt(start, size, rounds, i))
    && (forall i :: 0 < i < |rounds| ==> Leads(rounds, i))
  }

  ghost predicate ReadsAt(start: Dest, size: nat, rounds: seq<Round>, i: nat)
    requires i < |rounds|
  {
    Reads(start, size, rounds[i])
  }

  predicate Leads(rounds: seq<Round>, i: nat)
    requires 0 < i < |rounds|
  {
    SameNodes(LegsAfter(rounds[i - 1]), rounds[i].v.legs)
  }

  /** How many moves complete. */
  function Completed(rounds: seq<Round>): nat {
    if rounds == [] then 0
    else Completed(rounds[..|rounds| - 1]) + if Moved(rounds[|rounds| - 1]) then 1 else 0
  }

  lemma {:induction false} RoundCounts(start: Dest, size: nat, r: Round, head: Option<string>, next: seq<Leg>)
    requires Reads(start, size, r) && SameNodes(LegsAfter(r), next)
    requires DistinctLegs(r.v.legs) && (head == None || head == r.v.head)
    ensures DistinctLegs(next) && |next| == |r.v.legs|
    ensures var pool := PoolNames(start.nodes);
            Left(pool, head, next) + (if Moved(r) then 1 else 0) == Left(pool, head, r.v.legs)
  {
    var pool, dom := PoolNames(start.nodes), R.Domains(start.nodes, start.rule);
    if Moved(r) {
      ProposedMoves(r.d, r.v, size, r.s);
      MoveSettles(pool, dom, head, r.v.legs, r.s.from, r.s.to);
    }
    SameLeft(pool, head, LegsAfter(r), next);
    NodesKept(LegsAfter(r), next);
  }

  lemma {:induction false} RoundSettles(start: Dest, size: nat, r: Round, next: seq<Leg>, node: string)
    requires Reads(start, size, r) && SameNodes(LegsAfter(r), next) && DistinctLegs(r.v.legs)
    requires var pool, dom := PoolNames(start.nodes), R.Domains(start.nodes, start.rule);
             SettledOn(pool, dom, r.v.legs, node) || (Moved(r) && node == r.s.to)
    ensures SettledOn(PoolNames(start.nodes), R.Domains(start.nodes, start.rule), next, node)
  {
    var pool, dom := PoolNames(start.nodes), R.Domains(start.nodes, start.rule);
    if Moved(r) {
      ProposedMoves(r.d, r.v, size, r.s);
      MoveSettles(pool, dom, None, r.v.legs, r.s.from, r.s.to);
    }
    SameNodesSettle(pool, dom, LegsAfter(r), next, node);
  }

  /**
   * While only the migration moves legs, each move that completes leaves one leg less outside the pool, so at most as many
   * complete as were outside at first.
   */
  lemma {:induction false} MovesCount(start: Dest, size: nat, rounds: seq<Round>, k: nat)
    requires Migrates(start, size, rounds) && k < |rounds| && DistinctLegs(rounds[0].v.legs)
    ensures DistinctLegs(rounds[k].v.legs) && |rounds[k].v.legs| == |rounds[0].v.legs|
    ensures var pool := PoolNames(start.nodes);
            Completed(rounds[..k]) + Left(pool, None, rounds[k].v.legs) == Left(pool, None, rounds[0].v.legs)
  {
    if k > 0 {
      MovesCount(start, size, rounds, k - 1);
      assert rounds[..k][..k - 1] == rounds[..k - 1];
      assert ReadsAt(start, size, rounds, k - 1) && Leads(rounds, k);
      RoundCounts(start, size, rounds[k - 1], None, rounds[k].v.legs);
    }
  }

  ghost predicate InPlace(start: Dest, legs: seq<Leg>, node: string) {
    SettledOn(PoolNames(start.nodes), R.Domains(start.nodes, start.rule), legs, node)
  }

  lemma {:induction false} RoundAt(start: Dest, size: nat, rounds: seq<Round>, k: nat)
    requires Migrates(start, size, rounds) && 0 < k < |rounds| && DistinctLegs(rounds[0].v.legs)
    ensures Reads(start, size, rounds[k - 1]) && DistinctLegs(rounds[k - 1].v.legs)
    ensures SameNodes(LegsAfter(rounds[k - 1]), rounds[k].v.legs)
  {
    MovesCount(start, size, rounds, k - 1);
    assert ReadsAt(start, size, rounds, k - 1) && Leads(rounds, k);
  }

  lemma {:induction false} StaysInPlace(start: Dest, size: nat, rounds: seq<Round>, k: nat, node: string)
    requires Migrates(start, size, rounds) && 0 < k < |rounds| && DistinctLegs(rounds[0].v.legs)
    requires InPlace(start, rounds[k - 1].v.legs, node) || (Moved(rounds[k - 1]) && node == rounds[k - 1].s.to)
    ensures InPlace(start, rounds[k].v.legs, node)
  {
    RoundAt(start, size, rounds, k);
    RoundSettles(start, size, rounds[k - 1], rounds[k].v.legs, node);
  }

  /** A leg that moved is in the pool, in a domain of its own, and stays so while only the migration moves legs. */
  lemma {:induction false} MovedLegsStay(start: Dest, size: nat, rounds: seq<Round>, i: nat, k: nat)
    requires Migrates(start, size, rounds) && i < k < |rounds| && DistinctLegs(rounds[0].v.legs) && Moved(rounds[i])
    ensures InPlace(start, rounds[k].v.legs, rounds[i].s.to)
  {
    if i < k - 1 { MovedLegsStay(start, size, rounds, i, k - 1); }
    StaysInPlace(start, size, rounds, k, rounds[i].s.to);
  }

  // ---------------------------------------- the legs when it is done

  /** Legs that are in the pool are in distinct domains at its rung. */
  predicate ApartWithin(pool: set<string>, dom: map<string, string>, legs: seq<Leg>) {
    forall i, j :: 0 <= i < j < |legs| && HasDomainIn(pool, dom, legs[i]) && HasDomainIn(pool, dom, legs[j])
                   ==> dom[legs[i].node] != dom[legs[j].node]
  }

  predicate HasDomainIn(pool: set<string>, dom: map<string, string>, leg: Leg) {
    leg.node in pool && leg.node in dom
  }

  /** The leg is where it was at first, or it moved; and one that was in the pool did not. */
  predicate Kept(pool: set<string>, dom: map<string, string>, first: seq<Leg>, legs: seq<Leg>, k: nat) {
    && k < |first| == |legs|
    && (legs[k].node == first[k].node || Settled(pool, dom, legs, k))
    && (first[k].node in pool ==> legs[k].node == first[k].node)
  }

  lemma {:induction false} PlacedKeeps(
    pool: set<string>, dom: map<string, string>, first: seq<Leg>, legs: seq<Leg>, from: string, to: string, k: nat)
    requires DistinctLegs(legs) && MovesIn(pool, dom, legs, from, to) && Kept(pool, dom, first, legs, k)
    ensures Kept(pool, dom, first, Placed(legs, from, to), k)
  {
    var leg := Leg(to, None, Created, None, None, None, None);
    var next := Placed(legs, from, to);
    SwapFacts(legs, from, leg);
    var i := IndexOn(legs, from);
    assert forall j :: 0 <= j < |legs| && j != i ==> next[j] == legs[j] && legs[j].node != from;
    if k == i {
      assert Settled(pool, dom, next, k);
    } else if Settled(pool, dom, legs, k) {
      assert Settled(pool, dom, next, k);
    }
  }

  lemma {:induction false} SameNodesKeep(
    pool: set<string>, dom: map<string, string>, first: seq<Leg>, a: seq<Leg>, b: seq<Leg>, k: nat)
    requires SameNodes(a, b) && Kept(pool, dom, first, a, k)
    ensures Kept(pool, dom, first, b, k)
  {
    if Settled(pool, dom, a, k) { assert Settled(pool, dom, b, k); }
  }

  lemma {:induction false} RoundKeeps(start: Dest, size: nat, r: Round, first: seq<Leg>, next: seq<Leg>, k: nat)
    requires Reads(start, size, r) && SameNodes(LegsAfter(r), next) && DistinctLegs(r.v.legs)
    requires Kept(PoolNames(start.nodes), R.Domains(start.nodes, start.rule), first, r.v.legs, k)
    ensures Kept(PoolNames(start.nodes), R.Domains(start.nodes, start.rule), first, next, k)
  {
    var pool, dom := PoolNames(start.nodes), R.Domains(start.nodes, start.rule);
    if Moved(r) {
      ProposedMoves(r.d, r.v, size, r.s);
      PlacedKeeps(pool, dom, first, r.v.legs, r.s.from, r.s.to, k);
    }
    SameNodesKeep(pool, dom, first, LegsAfter(r), next, k);
  }

  lemma {:induction false} LegsKept(start: Dest, size: nat, rounds: seq<Round>, n: nat, k: nat)
    requires Migrates(start, size, rounds) && n < |rounds| && DistinctLegs(rounds[0].v.legs) && k < |rounds[0].v.legs|
    ensures Kept(PoolNames(start.nodes), R.Domains(start.nodes, start.rule), rounds[0].v.legs, rounds[n].v.legs, k)
  {
    if n > 0 {
      LegsKept(start, size, rounds, n - 1, k);
      RoundAt(start, size, rounds, n);
      RoundKeeps(start, size, rounds[n - 1], rounds[0].v.legs, rounds[n].v.legs, k);
    }
  }

  lemma {:induction false} AllInPool(start: Dest, size: nat, r: Round, k: nat)
    requires Reads(start, size, r) && r.s.Done? && k < |r.v.legs|
    ensures r.v.legs[k].node in PoolNames(start.nodes)
  {
    InPoolIsNamed(r.d.nodes, r.v.legs[k].node);
  }

  lemma {:induction false} TwoApart(
    pool: set<string>, dom: map<string, string>, first: seq<Leg>, legs: seq<Leg>, i: nat, j: nat)
    requires i < j < |legs| && Kept(pool, dom, first, legs, i) && Kept(pool, dom, first, legs, j)
    requires legs[i].node in pool && legs[j].node in pool && legs[i].node in dom && legs[j].node in dom
    requires ApartWithin(pool, dom, first)
    ensures dom[legs[i].node] != dom[legs[j].node]
  {
  }

  /**
   * A migration that is done gives the volume the pool's rung. Its legs are in distinct domains at that rung exactly when
   * those were that were in the pool at first: they are never compared with each other.
   */
  lemma {:induction false} DoneSpreadsExactly(start: Dest, size: nat, rounds: seq<Round>, n: nat)
    requires Migrates(start, size, rounds) && n < |rounds| && DistinctLegs(rounds[0].v.legs) && rounds[n].s.Done?
    ensures ApartLegs(R.Domains(start.nodes, start.rule), rounds[n].v.legs)
            <==> ApartWithin(PoolNames(start.nodes), R.Domains(start.nodes, start.rule), rounds[0].v.legs)
  {
    var pool, dom := PoolNames(start.nodes), R.Domains(start.nodes, start.rule);
    var first, legs := rounds[0].v.legs, rounds[n].v.legs;
    MovesCount(start, size, rounds, n);
    forall k | 0 <= k < |legs| ensures Kept(pool, dom, first, legs, k) && legs[k].node in pool {
      LegsKept(start, size, rounds, n, k);
      assert ReadsAt(start, size, rounds, n);
      AllInPool(start, size, rounds[n], k);
    }
    DoneSpreads(pool, dom, first, legs);
  }

  lemma {:induction false} DoneSpreads(pool: set<string>, dom: map<string, string>, first: seq<Leg>, legs: seq<Leg>)
    requires |first| == |legs| && forall k :: 0 <= k < |legs| ==> Kept(pool, dom, first, legs, k) && legs[k].node in pool
    ensures ApartLegs(dom, legs) <==> ApartWithin(pool, dom, first)
  {
    if ApartWithin(pool, dom, first) {
      forall i, j | 0 <= i < j < |legs| && legs[i].node in dom && legs[j].node in dom
        ensures dom[legs[i].node] != dom[legs[j].node]
      {
        TwoApart(pool, dom, first, legs, i, j);
      }
    } else {
      var i, j :| 0 <= i < j < |first| && HasDomainIn(pool, dom, first[i]) && HasDomainIn(pool, dom, first[j])
                  && dom[first[i].node] == dom[first[j].node];
      assert legs[i].node == first[i].node && legs[j].node == first[j].node;
    }
  }

  predicate Ended(r: Round) {
    r.s.Done? || r.s.WaitingHandover?
  }

  /** Room stays on the nodes without a leg, legs are created, and a move that begins completes. */
  ghost predicate Unhindered(start: Dest, size: nat, r: Round) {
    AllCreated(r.v.legs) && r.done && forall n :: !RoomLost(start, r.d, r.v.legs, size, n)
  }

  /** What a start asks of the pool, for as many legs. */
  ghost predicate CanHold(start: Dest, size: nat, legs: nat) {
    Registry(start) && Feasible(RoomyNodes(start.nodes, size), start.rule, legs)
  }

  lemma {:induction false} MovesOrEnds(start: Dest, size: nat, r: Round)
    requires Reads(start, size, r) && Unhindered(start, size, r) && CanHold(start, size, |r.v.legs|)
    ensures Moved(r) || Ended(r)
    ensures Moved(r) <==> Left(PoolNames(start.nodes), r.v.head, r.v.legs) > 0
  {
    RoomMeansATarget(start, r.d, r.v, size, r.s);
    NoneLeftEnds(r.d, r.v);
  }

  /** None is left to move exactly when no leg is, which is when the next step is done or waits for the head's own leg. */
  lemma {:induction false} NoneLeftEnds(d: Dest, v: Volume)
    ensures Left(PoolNames(d.nodes), v.head, v.legs) == 0 <==> !AnyToMove(d.nodes, v.head, v.legs)
  {
    NoneLeft(PoolNames(d.nodes), v.head, v.legs);
    forall i | 0 <= i < |v.legs| ensures v.legs[i].node in PoolNames(d.nodes) <==> InPool(d.nodes, v.legs[i].node) {
      InPoolIsNamed(d.nodes, v.legs[i].node);
    }
  }

  lemma {:induction false} AllMovedCount(rounds: seq<Round>)
    requires forall i :: 0 <= i < |rounds| ==> Moved(rounds[i])
    ensures Completed(rounds) == |rounds|
  {
    if rounds != [] { AllMovedCount(rounds[..|rounds| - 1]); }
  }

  lemma {:induction false} MovesOneLeft(start: Dest, size: nat, r: Round)
    requires Reads(start, size, r) && DistinctLegs(r.v.legs) && Moved(r)
    ensures Left(PoolNames(start.nodes), None, r.v.legs) > 0
  {
    RoundCounts(start, size, r, None, LegsAfter(r));
  }

  lemma {:induction false} RoundMoves(start: Dest, size: nat, rounds: seq<Round>, k: nat)
    requires Migrates(start, size, rounds) && k < |rounds| && DistinctLegs(rounds[0].v.legs)
    requires CanHold(start, size, |rounds[0].v.legs|) && Unhindered(start, size, rounds[k]) && !Ended(rounds[k])
    requires forall i :: 0 <= i < k ==> Moved(rounds[i])
    ensures Moved(rounds[k]) && k < Left(PoolNames(start.nodes), None, rounds[0].v.legs)
  {
    MovesCount(start, size, rounds, k);
    AllMovedCount(rounds[..k]);
    assert ReadsAt(start, size, rounds, k);
    MovesOrEnds(start, size, rounds[k]);
    MovesOneLeft(start, size, rounds[k]);
  }

  /**
   * A migration that could start ends: where room stays on the nodes without a leg of the volume, legs are created and
   * moves complete, one of its rounds is done or waits for the head's own leg, after no more moves than legs were outside.
   */
  lemma {:induction false} MigrationEnds(start: Dest, size: nat, rounds: seq<Round>) returns (end: nat)
    requires Migrates(start, size, rounds) && rounds != [] && DistinctLegs(rounds[0].v.legs)
    requires CanHold(start, size, |rounds[0].v.legs|)
    requires forall i :: 0 <= i < |rounds| ==> Unhindered(start, size, rounds[i])
    requires |rounds| > Left(PoolNames(start.nodes), None, rounds[0].v.legs)
    ensures end <= Left(PoolNames(start.nodes), None, rounds[0].v.legs) && Ended(rounds[end])
    ensures forall i :: 0 <= i < end ==> Moved(rounds[i])
  {
    end := FirstEnd(start, size, rounds, Left(PoolNames(start.nodes), None, rounds[0].v.legs), 0);
  }

  lemma {:induction false} FirstEnd(start: Dest, size: nat, rounds: seq<Round>, outside: nat, k: nat) returns (end: nat)
    requires Migrates(start, size, rounds) && k <= outside < |rounds| && DistinctLegs(rounds[0].v.legs)
    requires outside == Left(PoolNames(start.nodes), None, rounds[0].v.legs)
    requires CanHold(start, size, |rounds[0].v.legs|)
    requires forall i :: 0 <= i < |rounds| ==> Unhindered(start, size, rounds[i])
    requires forall i :: 0 <= i < k ==> Moved(rounds[i])
    ensures end <= outside && Ended(rounds[end]) && forall i :: 0 <= i < end ==> Moved(rounds[i])
    decreases outside - k
  {
    if Ended(rounds[k]) {
      end := k;
    } else {
      RoundMoves(start, size, rounds, k);
      end := FirstEnd(start, size, rounds, outside, k + 1);
    }
  }

  lemma {:induction false} LeftFalls(start: Dest, size: nat, rounds: seq<Round>, head: Option<string>, k: nat)
    requires Migrates(start, size, rounds) && k < |rounds| && DistinctLegs(rounds[0].v.legs)
    requires CanHold(start, size, |rounds[0].v.legs|)
    requires forall i :: 0 <= i < |rounds| ==> Unhindered(start, size, rounds[i]) && rounds[i].v.head == head
    ensures var first := Left(PoolNames(start.nodes), head, rounds[0].v.legs);
            Left(PoolNames(start.nodes), head, rounds[k].v.legs) == if k <= first then first - k else 0
  {
    if k > 0 {
      LeftFalls(start, size, rounds, head, k - 1);
      MovesCount(start, size, rounds, k - 1);
      assert ReadsAt(start, size, rounds, k - 1) && Leads(rounds, k);
      MovesOrEnds(start, size, rounds[k - 1]);
      RoundCounts(start, size, rounds[k - 1], head, rounds[k].v.legs);
    }
  }

  /** While the head stays where it is, exactly the first rounds move, one for each leg to move, and all others have ended. */
  lemma {:induction false} MovesThenEnds(start: Dest, size: nat, rounds: seq<Round>, head: Option<string>, k: nat)
    requires Migrates(start, size, rounds) && k < |rounds| && DistinctLegs(rounds[0].v.legs)
    requires CanHold(start, size, |rounds[0].v.legs|)
    requires forall i :: 0 <= i < |rounds| ==> Unhindered(start, size, rounds[i]) && rounds[i].v.head == head
    ensures Moved(rounds[k]) <==> k < Left(PoolNames(start.nodes), head, rounds[0].v.legs)
    ensures Ended(rounds[k]) <==> k >= Left(PoolNames(start.nodes), head, rounds[0].v.legs)
  {
    LeftFalls(start, size, rounds, head, k);
    MovesCount(start, size, rounds, k);
    assert ReadsAt(start, size, rounds, k);
    MovesOrEnds(start, size, rounds[k]);
  }

  lemma {:induction false} InPoolIsNamed(nodes: seq<R.Node>, node: string)
    ensures node in PoolNames(nodes) <==> InPool(nodes, node)
  {
    if InPool(nodes, node) {
      var i :| 0 <= i < |nodes| && nodes[i].cand.name == node && nodes[i].member;
      assert nodes[i] in nodes;
    }
    if node in PoolNames(nodes) {
      var n :| n in nodes && n.member && n.cand.name == node;
      var i :| 0 <= i < |nodes| && nodes[i] == n;
    }
  }
}
