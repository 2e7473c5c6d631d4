/**
  Which legs are replaced, and where the new ones go (src/orchestrate.rs). A poll, a rebalance and a tier migration decide
  both before the replacement begins, and its beginning does not ask again: what holds anyway, and exactly when. Failure
  domains are those at one rung here; `RungTheory` has volumes whose rung changes.
*/
module RelegTheory {
  import opened Wrappers
  import opened Volumes
  import opened Superblocks
  import opened VolumeOps
  import opened Lifecycle
  import opened LifecycleTheory

  // ------------------------------------------------------- the legs' nodes

  lemma {:induction false} PromoteStays(m: Machine, s: Step)
    requires s.PromoteTo? || s.Poll?
    ensures SameNodes(m.v.legs, Do(m, s).v.legs)
  {
  }

  lemma {:induction false} ReadingStays(v: Volume, reading: Option<Reading>)
    ensures var w := AfterHeadReading(v, reading).0;
            SameNodes(v.legs, w.legs) && w.head == v.head && w.replacing == v.replacing
  {
  }

  lemma {:induction false} ReassembleStays(m: Machine, s: Step)
    requires s.Reassemble?
    ensures SameNodes(m.v.legs, Do(m, s).v.legs)
  {
  }

  /** Only a replacement that completes changes the nodes the legs are on. */
  lemma {:induction false} NodesStay(m: Machine, s: Step)
    requires !Completes(m, s)
    ensures SameNodes(m.v.legs, Do(m, s).v.legs)
  {
    if s.Poll? || s.PromoteTo? {
      PromoteStays(m, s);
    } else if s.ReadHead? {
      ReadingStays(m.v, s.reading);
    } else if s.Reassemble? {
      ReassembleStays(m, s);
    } else {
      LegsStay(m, s);
    }
  }

  lemma {:induction false} LegsStay(m: Machine, s: Step)
    requires !Completes(m, s) && !s.Poll? && !s.PromoteTo? && !s.ReadHead? && !s.Reassemble?
    ensures Do(m, s).v.legs == m.v.legs
  {
  }

  lemma {:induction false} SameNodesTrans(a: seq<Leg>, b: seq<Leg>, c: seq<Leg>)
    requires SameNodes(a, b) && SameNodes(b, c)
    ensures SameNodes(a, c)
  {
  }

  /** What a replacement that completes leaves. */
  lemma {:induction false} CompletesAs(m: Machine, s: Step)
    requires Inv(m) && Completes(m, s)
    ensures var rep, n := m.works[s.task].rep, Do(m, s);
            && n.v == Replaced(m.v, rep) && n.works == [] && !n.claimed && m.v.replacing == Some(rep)
            && rep.leg.state == Created && Sound(m.v.legs, rep.from, rep.leg.node)
            && var i := IndexOn(m.v.legs, rep.from);
               i < |m.v.legs| && n.v.legs == m.v.legs[i := rep.leg.(message := None)]
  {
    var rep := m.works[s.task].rep;
    SwapFacts(m.v.legs, rep.from, rep.leg.(message := None));
  }

  // ---------------------------------------------------- automatic re-legs

  predicate CompletesOnto(m: Machine, s: Step, node: string) {
    Completes(m, s) && m.works[s.task].rep.leg.node == node
  }

  /** No replacement in the run puts a leg on `node`. */
  predicate NoneCompletesOnto(m: Machine, run: seq<Step>, node: string) {
    forall i :: 0 <= i < |run| ==> !CompletesOnto(After(m, run[..i]), run[i], node)
  }

  predicate OnlyLost(legs: seq<Leg>, node: string) {
    forall i :: 0 <= i < |legs| && legs[i].node == node ==> legs[i].state == Lost
  }

  /** A mirror whose head is elsewhere, with a lost leg on `node` or none. */
  predicate OffTheHead(v: Volume, node: string) {
    Mirrored(v) && v.head.Some? && v.head != Some(node) && OnlyLost(v.legs, node)
  }

  lemma {:induction false} ReadingOffTheHead(v: Volume, reading: Option<Reading>, node: string)
    requires OffTheHead(v, node)
    ensures OffTheHead(AfterHeadReading(v, reading).0, node)
  {
  }

  lemma {:induction false} LossOffTheHead(v: Volume, healthy: set<string>, node: string)
    requires OffTheHead(v, node)
    ensures OffTheHead(MarkLost(v, healthy), node)
  {
  }

  lemma {:induction false} ReassembledOffTheHead(v: Volume, healthy: set<string>, node: string)
    requires OffTheHead(v, node)
    ensures OffTheHead(Reassembled(v, healthy), node)
  {
  }

  lemma {:induction false} PromotedOffTheHead(v: Volume, target: string, healthy: set<string>, node: string)
    requires OffTheHead(v, node) && IndexOn(v.legs, target) < |v.legs| && v.legs[IndexOn(v.legs, target)].state == Created
    ensures OffTheHead(Promoted(v, target, healthy), node)
  {
  }

  lemma {:induction false} AssembledOffTheHead(v: Volume, arrayId: string, node: string)
    requires OffTheHead(v, node) && MayAssemble(v)
    ensures OffTheHead(AssembledOn(v, arrayId), node)
  {
    assert v.legs[0].state == Created;
  }

  lemma {:induction false} ReplacedOffTheHead(m: Machine, s: Step, node: string)
    requires Inv(m) && OffTheHead(m.v, node) && Completes(m, s) && !CompletesOnto(m, s, node)
    ensures OffTheHead(Do(m, s).v, node)
  {
    CompletesAs(m, s);
  }

  lemma {:induction false} StepOffTheHead(m: Machine, s: Step, node: string)
    requires Inv(m) && OffTheHead(m.v, node) && !CompletesOnto(m, s, node)
    ensures OffTheHead(Do(m, s).v, node)
  {
    if Completes(m, s) {
      ReplacedOffTheHead(m, s, node);
    } else if s.Poll? {
      LossOffTheHead(m.v, s.healthy, node);
    } else if s.ReadHead? {
      ReadingOffTheHead(m.v, s.reading, node);
    } else if s.PromoteTo? {
      if Promotes(m, s) && m.v.head != Some(s.target) { PromotedOffTheHead(m.v, s.target, s.healthy, node); }
    } else if s.Reassemble? {
      if MayReassemble(m.v, s.healthy) { ReassembledOffTheHead(m.v, s.healthy, node); }
    } else if s.Assemble? {
      if Assembles(m, s) { AssembledOffTheHead(m.v, s.arrayId, node); }
    } else {
      OtherOffTheHead(m, s, node);
    }
  }

  lemma {:induction false} OtherOffTheHead(m: Machine, s: Step, node: string)
    requires OffTheHead(m.v, node) && !Completes(m, s)
    requires !s.Poll? && !s.ReadHead? && !s.PromoteTo? && !s.Reassemble? && !s.Assemble?
    ensures OffTheHead(Do(m, s).v, node)
  {
    LegsStay(m, s);
  }

  lemma {:induction false} StaysOffTheHead(m: Machine, run: seq<Step>, node: string)
    requires Inv(m) && OffTheHead(m.v, node) && NoneCompletesOnto(m, run, node)
    ensures OffTheHead(After(m, run).v, node)
  {
    if run != [] {
      var last := |run| - 1;
      assert forall i :: 0 <= i < last ==> run[..last][i] == run[i] && run[..last][..i] == run[..i];
      StaysOffTheHead(m, run[..last], node);
      RunKeepsInv(m, run[..last]);
      StepOffTheHead(After(m, run[..last]), run[last], node);
    }
  }

  lemma {:induction false} PlannedOffTheHead(v: Volume, healthy: set<string>, enabled: bool, busy: bool, now: int, from: string)
    requires DistinctLegs(v.legs) && Decide(v, healthy, enabled, busy, now) == StartFrom(from)
    ensures OffTheHead(v, from)
  {
    var k :| 0 <= k < |v.legs| && v.legs[k].state == Lost && v.legs[k].node == from;
    assert LostOn(v.legs, from);
  }

  /**
   * A poll decides to replace the lost leg on `from`. However long it takes to begin, and whatever other replacements
   * complete, unless one puts a leg on `from` again: the head is not on `from`, and if the replacement begins at all it
   * takes a leg that is lost.
   */
  lemma {:induction false} AutomaticRelegsLeaveTheHead(
    m: Machine, healthy: set<string>, enabled: bool, now: int, from: string, run: seq<Step>)
    requires Inv(m)
    requires Decide(MarkLost(m.v, healthy), healthy, enabled, m.claimed, now) == StartFrom(from)
    requires NoneCompletesOnto(Do(m, Poll(healthy)), run, from)
    ensures var n := After(Do(m, Poll(healthy)), run);
            && n.v.head.Some? && n.v.head != Some(from)
            && forall s: Step :: s.Build? && s.from == from && Begins(n, s) ==> LostOn(n.v.legs, from)
  {
    StepKeepsInv(m, Poll(healthy));
    var polled := Do(m, Poll(healthy));
    PlannedOffTheHead(polled.v, healthy, enabled, m.claimed, now, from);
    StaysOffTheHead(polled, run, from);
    var legs := After(polled, run).v.legs;
    if HasLeg(legs, from) {
      var i :| 0 <= i < |legs| && legs[i].node == from;
      assert legs[i].state == Lost;
    }
  }

  // ------------------------------------------------ the head's own leg

  predicate HeadHasLeg(v: Volume) {
    v.head.Some? ==> HasLeg(v.legs, v.head.value)
  }

  /** The leg that leaves is the head's own. */
  predicate TakesHeadsLeg(m: Machine, s: Step) {
    Completes(m, s) && m.v.head == Some(m.works[s.task].rep.from)
  }

  lemma {:induction false} CompletedHeadLeg(m: Machine, s: Step)
    requires Inv(m) && HeadHasLeg(m.v) && Completes(m, s)
    ensures HeadHasLeg(Do(m, s).v) <==> !TakesHeadsLeg(m, s)
  {
    CompletesAs(m, s);
    var legs, rep, after := m.v.legs, m.works[s.task].rep, Do(m, s).v.legs;
    var i := IndexOn(legs, rep.from);
    if m.v.head.Some? && m.v.head.value != rep.from {
      var k :| 0 <= k < |legs| && legs[k].node == m.v.head.value;
      assert after[k] == legs[k];
    }
    assert forall j :: 0 <= j < |legs| && j != i ==> after[j] == legs[j] && legs[j].node != rep.from;
  }

  lemma {:induction false} GivenHeadHasLeg(m: Machine, s: Step)
    requires HeadHasLeg(m.v) && (s.PromoteTo? || s.Assemble?)
    ensures HeadHasLeg(Do(m, s).v)
  {
    NodesStay(m, s);
    NodesKept(m.v.legs, Do(m, s).v.legs);
    if s.PromoteTo? && Promotes(m, s) {
      assert HasLeg(m.v.legs, s.target);
    } else if s.Assemble? && Assembles(m, s) {
      assert HasLeg(m.v.legs, m.v.legs[0].node);
    }
  }

  lemma {:induction false} OtherHead(m: Machine, s: Step)
    requires !s.PromoteTo? && !s.Assemble?
    ensures Do(m, s).v.head == m.v.head
  {
  }

  lemma {:induction false} StepHeadLeg(m: Machine, s: Step)
    requires Inv(m) && HeadHasLeg(m.v)
    ensures HeadHasLeg(Do(m, s).v) <==> !TakesHeadsLeg(m, s)
  {
    if Completes(m, s) {
      CompletedHeadLeg(m, s);
    } else if s.PromoteTo? || s.Assemble? {
      GivenHeadHasLeg(m, s);
    } else {
      NodesStay(m, s);
      NodesKept(m.v.legs, Do(m, s).v.legs);
      OtherHead(m, s);
    }
  }

  lemma {:induction false} HeadHasLegUpTo(m: Machine, run: seq<Step>, k: nat)
    requires Inv(m) && HeadHasLeg(m.v) && k <= |run|
    requires forall i :: 0 <= i < |run| ==> !TakesHeadsLeg(After(m, run[..i]), run[i])
    ensures HeadHasLeg(After(m, run[..k]).v)
  {
    if k > 0 {
      HeadHasLegUpTo(m, run, k - 1);
      RunKeepsInv(m, run[..k - 1]);
      StepHeadLeg(After(m, run[..k - 1]), run[k - 1]);
      AfterOne(m, run, k - 1);
    }
  }

  /** The head keeps a leg of its own at every point of a run exactly when no replacement that completes takes it. */
  lemma {:induction false} HeadKeepsItsLegExactly(m: Machine, run: seq<Step>)
    requires Inv(m) && HeadHasLeg(m.v)
    ensures (forall i :: 0 <= i <= |run| ==> HeadHasLeg(After(m, run[..i]).v))
            <==> (forall i :: 0 <= i < |run| ==> !TakesHeadsLeg(After(m, run[..i]), run[i]))
  {
    if forall i :: 0 <= i <= |run| ==> HeadHasLeg(After(m, run[..i]).v) {
      forall i | 0 <= i < |run| ensures !TakesHeadsLeg(After(m, run[..i]), run[i]) {
        assert HeadHasLeg(After(m, run[..i]).v) && HeadHasLeg(After(m, run[..i + 1]).v);
        RunKeepsInv(m, run[..i]);
        AfterOne(m, run, i);
        StepHeadLeg(After(m, run[..i]), run[i]);
      }
    }
    if forall i :: 0 <= i < |run| ==> !TakesHeadsLeg(After(m, run[..i]), run[i]) {
      forall i | 0 <= i <= |run| ensures HeadHasLeg(After(m, run[..i]).v) { HeadHasLegUpTo(m, run, i); }
    }
  }

  /** The check that the beginning of a replacement lacks, and the one that an assembly lacks. */
  predicate LooksAgain(m: Machine, s: Step) {
    (Begins(m, s) ==> m.v.head != Some(s.from)) && !StaleAssembly(m, s)
  }

  predicate LooksAgainThrough(m: Machine, run: seq<Step>) {
    forall i :: 0 <= i < |run| ==> LooksAgain(After(m, run[..i]), run[i])
  }

  /** What is being replaced is not the head's leg. */
  predicate SparesHead(m: Machine) {
    && (m.v.replacing.Some? ==> m.v.head != Some(m.v.replacing.value.from))
    && (m.claimed && |m.works| == 1 && m.works[0].Building? ==> m.v.head != Some(m.works[0].from))
  }

  lemma {:induction false} GivenHeadSpares(m: Machine, s: Step)
    requires Inv(m) && SparesHead(m) && (s.PromoteTo? || s.Assemble?) && !StaleAssembly(m, s)
    ensures SparesHead(Do(m, s))
  {
  }

  lemma {:induction false} TaskSpares(m: Machine, s: Step)
    requires Inv(m) && SparesHead(m) && LooksAgain(m, s)
    requires s.Build? || s.Record? || s.Resume? || s.GiveUp? || s.Abandon? || s.Restart? || s.Finish?
    ensures SparesHead(Do(m, s))
  {
  }

  lemma {:induction false} RecordSpares(m: Machine, s: Step)
    requires SparesHead(m) && (s.Poll? || s.ReadHead? || s.Reassemble? || LeavesLegs(s))
    ensures SparesHead(Do(m, s))
  {
    if s.ReadHead? { ReadingStays(m.v, s.reading); }
  }

  lemma {:induction false} StepSpares(m: Machine, s: Step)
    requires Inv(m) && SparesHead(m) && LooksAgain(m, s)
    ensures SparesHead(Do(m, s)) && !TakesHeadsLeg(m, s)
  {
    if s.PromoteTo? || s.Assemble? {
      GivenHeadSpares(m, s);
    } else if s.Poll? || s.ReadHead? || s.Reassemble? || LeavesLegs(s) {
      RecordSpares(m, s);
    } else {
      TaskSpares(m, s);
    }
  }

  lemma {:induction false} FrontLooksAgain(m: Machine, run: seq<Step>)
    requires run != [] && LooksAgainThrough(m, run)
    ensures LooksAgainThrough(m, run[..|run| - 1]) && LooksAgain(After(m, run[..|run| - 1]), run[|run| - 1])
  {
    var last := |run| - 1;
    forall i | 0 <= i < last ensures LooksAgain(After(m, run[..last][..i]), run[..last][i]) {
      assert run[..last][i] == run[i] && run[..last][..i] == run[..i];
    }
  }

  lemma {:induction false} StepServes(m: Machine, s: Step)
    requires Inv(m) && SparesHead(m) && HeadHasLeg(m.v) && LooksAgain(m, s)
    ensures Inv(Do(m, s)) && SparesHead(Do(m, s)) && HeadHasLeg(Do(m, s).v)
  {
    StepKeepsInv(m, s);
    StepSpares(m, s);
    StepHeadLeg(m, s);
  }

  lemma {:induction false} LookingAgainSpares(m: Machine, run: seq<Step>)
    requires Inv(m) && SparesHead(m) && HeadHasLeg(m.v) && LooksAgainThrough(m, run)
    ensures Inv(After(m, run)) && SparesHead(After(m, run)) && HeadHasLeg(After(m, run).v)
  {
    if run != [] {
      FrontLooksAgain(m, run);
      LookingAgainSpares(m, run[..|run| - 1]);
      StepServes(After(m, run[..|run| - 1]), run[|run| - 1]);
    }
  }

  /** However it goes on, with these checks made from here on, the head has a leg of its own. */
  ghost predicate HeadStaysServed(m: Machine) {
    forall run :: LooksAgainThrough(m, run) ==> HeadHasLeg(After(m, run).v)
  }

  /** The rest of a replacement once it has begun. */
  function Rest(target: string): seq<Step> {
    [Record(0, NewLeg(target, Created)), Finish(0, true, 0)]
  }

  lemma {:induction false} RestIs(m: Machine, target: string)
    ensures After(m, Rest(target)) == Do(Do(m, Rest(target)[0]), Rest(target)[1])
  {
    var r := Rest(target);
    AfterOne(m, r, 0);
    AfterOne(m, r, 1);
    assert r[..2] == r && r[..0] == [];
  }

  lemma {:induction false} RestOfABuild(m: Machine, s: Step)
    requires Inv(m) && Begins(m, s)
    ensures var n := Do(Do(m, s), Rest(s.target)[0]);
            && n == m.(v := Recorded(m.v, s.from, NewLeg(s.target, Created)), claimed := true,
                       works := [Waiting(Replacement(s.from, NewLeg(s.target, Created)))])
            && Completes(n, Rest(s.target)[1])
  {
    assert Do(m, s) == m.(claimed := true, works := [Building(s.from, s.target)]);
  }

  /** A replacement begins and completes with nothing in between. */
  lemma {:induction false} ReplaceDone(m: Machine, s: Step)
    requires Inv(m) && Begins(m, s)
    ensures var n, i := After(Do(m, s), Rest(s.target)), IndexOn(m.v.legs, s.from);
            && Inv(n) && i < |m.v.legs| && n.works == [] && !n.claimed
            && n.v.legs == m.v.legs[i := NewLeg(s.target, Created)]
            && n.v == m.v.(legs := n.v.legs, nextReleg := None, assembly := if AnyLost(n.v.legs) then Degraded else Assembled)
  {
    StepKeepsInv(m, s);
    RestIs(Do(m, s), s.target);
    RestOfABuild(m, s);
    var recorded := Do(Do(m, s), Rest(s.target)[0]);
    StepKeepsInv(Do(m, s), Rest(s.target)[0]);
    StepKeepsInv(recorded, Rest(s.target)[1]);
    CompletesAs(recorded, Rest(s.target)[1]);
  }

  lemma {:induction false} RestLooksAgain(m: Machine, target: string)
    ensures LooksAgainThrough(m, Rest(target))
  {
  }

  /**
   * A replacement may take the head's own leg, exactly when the head is on `from` as it begins: the check it lacks. With
   * that check, and none late in an assembly, the head has a leg of its own in every run.
   */
  lemma {:induction false} AStartServesTheHeadExactly(m: Machine, s: Step)
    requires Inv(m) && HeadHasLeg(m.v) && Begins(m, s)
    ensures HeadStaysServed(Do(m, s)) <==> m.v.head != Some(s.from)
  {
    StepKeepsInv(m, s);
    if m.v.head != Some(s.from) {
      assert SparesHead(Do(m, s));
      forall run | LooksAgainThrough(Do(m, s), run) ensures HeadHasLeg(After(Do(m, s), run).v) {
        LookingAgainSpares(Do(m, s), run);
      }
    } else {
      var run := Rest(s.target);
      RestLooksAgain(Do(m, s), s.target);
      RestIs(Do(m, s), s.target);
      RestOfABuild(m, s);
      var n := Do(Do(m, s), run[0]);
      StepKeepsInv(Do(m, s), run[0]);
      CompletedHeadLeg(n, run[1]);
      assert !HeadHasLeg(After(Do(m, s), run).v);
    }
  }

  // -------------------------------------------------------- failure domains

  predicate ApartLegs(dom: map<string, string>, legs: seq<Leg>) {
    forall i, j :: 0 <= i < j < |legs| && legs[i].node in dom && legs[j].node in dom
                   ==> dom[legs[i].node] != dom[legs[j].node]
  }

  /** A leg on the target shares no domain with those that stay; one on a node that is not registered has none. */
  predicate NoClash(dom: map<string, string>, legs: seq<Leg>, from: string, target: string) {
    target in dom ==> Apart(dom, legs, from, target)
  }

  lemma {:induction false} SameNodesClash(dom: map<string, string>, a: seq<Leg>, b: seq<Leg>, from: string, target: string)
    requires SameNodes(a, b)
    ensures ApartLegs(dom, a) <==> ApartLegs(dom, b)
    ensures NoClash(dom, a, from, target) <==> NoClash(dom, b, from, target)
    ensures Apart(dom, a, from, target) <==> Apart(dom, b, from, target)
  {
  }

  /** Legs in distinct domains stay so exactly when the new leg's domain is none of those that stay. */
  lemma {:induction false} SwapSpreads(dom: map<string, string>, legs: seq<Leg>, from: string, leg: Leg)
    requires DistinctLegs(legs) && Sound(legs, from, leg.node) && ApartLegs(dom, legs)
    ensures ApartLegs(dom, Swapped(legs, from, leg)) <==> NoClash(dom, legs, from, leg.node)
  {
    SwapFacts(legs, from, leg);
    var k := IndexOn(legs, from);
    var after := Swapped(legs, from, leg);
    assert forall i :: 0 <= i < |legs| && i != k ==> legs[i].node != from && after[i] == legs[i];
    if ApartLegs(dom, after) && leg.node in dom {
      forall i | 0 <= i < |legs| && legs[i].node != from && legs[i].node in dom
        ensures dom[legs[i].node] != dom[leg.node]
      {
        assert after[i] == legs[i] && after[k] == leg;
        assert i < k || k < i;
      }
    }
  }

  /** A replacement that completes puts the new leg apart from those that stay. */
  predicate CompletesApart(dom: map<string, string>, m: Machine, s: Step) {
    Completes(m, s) ==> NoClash(dom, m.v.legs, m.works[s.task].rep.from, m.works[s.task].rep.leg.node)
  }

  lemma {:induction false} StepApart(dom: map<string, string>, m: Machine, s: Step)
    requires Inv(m) && ApartLegs(dom, m.v.legs)
    ensures ApartLegs(dom, Do(m, s).v.legs) <==> CompletesApart(dom, m, s)
  {
    if Completes(m, s) {
      CompletesAs(m, s);
      var rep := m.works[s.task].rep;
      SwapSpreads(dom, m.v.legs, rep.from, rep.leg.(message := None));
    } else {
      NodesStay(m, s);
    }
  }

  lemma {:induction false} ApartUpTo(dom: map<string, string>, m: Machine, run: seq<Step>, k: nat)
    requires Inv(m) && ApartLegs(dom, m.v.legs) && k <= |run|
    requires forall i :: 0 <= i < |run| ==> CompletesApart(dom, After(m, run[..i]), run[i])
    ensures ApartLegs(dom, After(m, run[..k]).v.legs)
  {
    if k > 0 {
      ApartUpTo(dom, m, run, k - 1);
      RunKeepsInv(m, run[..k - 1]);
      StepApart(dom, After(m, run[..k - 1]), run[k - 1]);
      AfterOne(m, run, k - 1);
    }
  }

  /** The legs are in distinct domains at every point of a run exactly when each completed replacement was apart. */
  lemma {:induction false} DomainsStayApartExactly(dom: map<string, string>, m: Machine, run: seq<Step>)
    requires Inv(m) && ApartLegs(dom, m.v.legs)
    ensures (forall i :: 0 <= i <= |run| ==> ApartLegs(dom, After(m, run[..i]).v.legs))
            <==> (forall i :: 0 <= i < |run| ==> CompletesApart(dom, After(m, run[..i]), run[i]))
  {
    if forall i :: 0 <= i <= |run| ==> ApartLegs(dom, After(m, run[..i]).v.legs) {
      forall i | 0 <= i < |run| ensures CompletesApart(dom, After(m, run[..i]), run[i]) {
        assert ApartLegs(dom, After(m, run[..i]).v.legs) && ApartLegs(dom, After(m, run[..i + 1]).v.legs);
        RunKeepsInv(m, run[..i]);
        AfterOne(m, run, i);
        StepApart(dom, After(m, run[..i]), run[i]);
      }
    }
    if forall i :: 0 <= i < |run| ==> CompletesApart(dom, After(m, run[..i]), run[i]) {
      forall i | 0 <= i <= |run| ensures ApartLegs(dom, After(m, run[..i]).v.legs) { ApartUpTo(dom, m, run, i); }
    }
  }

  /** The legs are in distinct domains, and will be once the one being built is in place. */
  predicate Spread(dom: map<string, string>, m: Machine) {
    && ApartLegs(dom, m.v.legs)
    && (m.v.replacing.Some? ==> NoClash(dom, m.v.legs, m.v.replacing.value.from, m.v.replacing.value.leg.node))
    && (m.claimed && |m.works| == 1 && m.works[0].Building? ==> NoClash(dom, m.v.legs, m.works[0].from, m.works[0].target))
  }

  /** The check that the beginning of a replacement lacks for a target it is given. */
  predicate StartsApart(dom: map<string, string>, m: Machine, s: Step) {
    Begins(m, s) ==> NoClash(dom, m.v.legs, s.from, s.target)
  }

  predicate StartsApartThrough(dom: map<string, string>, m: Machine, run: seq<Step>) {
    forall i :: 0 <= i < |run| ==> StartsApart(dom, After(m, run[..i]), run[i])
  }

  lemma {:induction false} RecordStaysSpread(dom: map<string, string>, m: Machine, v: Volume)
    requires Spread(dom, m) && SameNodes(m.v.legs, v.legs) && v.replacing == m.v.replacing
    ensures Spread(dom, m.(v := v))
  {
    if v.replacing.Some? { SameNodesClash(dom, m.v.legs, v.legs, v.replacing.value.from, v.replacing.value.leg.node); }
  }

  lemma {:induction false} TaskSpread(dom: map<string, string>, m: Machine, s: Step)
    requires Inv(m) && Spread(dom, m) && StartsApart(dom, m, s) && !Completes(m, s)
    requires s.Build? || s.Record? || s.Resume? || s.GiveUp? || s.Abandon? || s.Restart? || s.Finish?
    ensures Spread(dom, Do(m, s))
  {
  }

  lemma {:induction false} RecordOnly(m: Machine, s: Step)
    requires s.Poll? || s.ReadHead? || s.PromoteTo? || s.Reassemble? || s.Assemble? || LeavesLegs(s)
    ensures var n := Do(m, s); n == m.(v := n.v) && n.v.replacing == m.v.replacing
  {
    if s.ReadHead? { ReadingStays(m.v, s.reading); }
  }

  lemma {:induction false} StepSpread(dom: map<string, string>, m: Machine, s: Step)
    requires Inv(m) && Spread(dom, m) && StartsApart(dom, m, s)
    ensures Spread(dom, Do(m, s))
  {
    if Completes(m, s) {
      CompletesAs(m, s);
      StepApart(dom, m, s);
    } else if s.Poll? || s.ReadHead? || s.PromoteTo? || s.Reassemble? || s.Assemble? || LeavesLegs(s) {
      NodesStay(m, s);
      RecordOnly(m, s);
      RecordStaysSpread(dom, m, Do(m, s).v);
    } else {
      TaskSpread(dom, m, s);
    }
  }

  lemma {:induction false} FrontStartsApart(dom: map<string, string>, m: Machine, run: seq<Step>)
    requires run != [] && StartsApartThrough(dom, m, run)
    ensures StartsApartThrough(dom, m, run[..|run| - 1]) && StartsApart(dom, After(m, run[..|run| - 1]), run[|run| - 1])
  {
    var last := |run| - 1;
    forall i | 0 <= i < last ensures StartsApart(dom, After(m, run[..last][..i]), run[..last][i]) {
      assert run[..last][i] == run[i] && run[..last][..i] == run[..i];
    }
  }

  lemma {:induction false} CheckedStartsStaySpread(dom: map<string, string>, m: Machine, run: seq<Step>)
    requires Inv(m) && Spread(dom, m) && StartsApartThrough(dom, m, run)
    ensures Inv(After(m, run)) && Spread(dom, After(m, run))
  {
    RunKeepsInv(m, run);
    if run != [] {
      FrontStartsApart(dom, m, run);
      CheckedStartsStaySpread(dom, m, run[..|run| - 1]);
      StepSpread(dom, After(m, run[..|run| - 1]), run[|run| - 1]);
    }
  }

  /** However it goes on, with that check made from here on, the legs are in distinct domains. */
  ghost predicate StaysApart(dom: map<string, string>, m: Machine) {
    forall run :: StartsApartThrough(dom, m, run) ==> ApartLegs(dom, After(m, run).v.legs)
  }

  lemma {:induction false} RestStartsApart(dom: map<string, string>, m: Machine, target: string)
    ensures StartsApartThrough(dom, m, Rest(target))
  {
  }

  /** A replacement may join two legs in one domain, exactly when its target is not apart as it begins. */
  lemma {:induction false} AStartKeepsDomainsApartExactly(dom: map<string, string>, m: Machine, s: Step)
    requires Inv(m) && Spread(dom, m) && Begins(m, s)
    ensures StaysApart(dom, Do(m, s)) <==> NoClash(dom, m.v.legs, s.from, s.target)
  {
    StepKeepsInv(m, s);
    if NoClash(dom, m.v.legs, s.from, s.target) {
      StepSpread(dom, m, s);
      forall run | StartsApartThrough(dom, Do(m, s), run) ensures ApartLegs(dom, After(Do(m, s), run).v.legs) {
        CheckedStartsStaySpread(dom, Do(m, s), run);
      }
    } else {
      var run := Rest(s.target);
      RestStartsApart(dom, Do(m, s), s.target);
      RestIs(Do(m, s), s.target);
      RestOfABuild(m, s);
      StepKeepsInv(Do(m, s), run[0]);
      StepApart(dom, Do(Do(m, s), run[0]), run[1]);
      assert !ApartLegs(dom, After(Do(m, s), run).v.legs);
    }
  }

  // ------------------------------------------------------ runs that surprise

  const TRIO := {"h", "a", "b", "c", "d"}

  /** 'c' and 'd' are in one domain. */
  function TrioDomains(): map<string, string> {
    map["h" := "w", "a" := "x", "b" := "y", "c" := "z", "d" := "z"]
  }

  function CreatedTrio(): Machine {
    Machine(Volume("v", [NewLeg("h", Created), NewLeg("a", Created), NewLeg("b", Created)], Pending, None, None, None,
                   None, None, 1, false, None), false, [])
  }

  function AssembledTrio(): Machine {
    CreatedTrio().(v := CreatedTrio().v.(head := Some("h"), arrayId := Some("r"), assembly := Assembled))
  }

  lemma {:induction false} TrioNames()
    ensures "h" != "a" && "h" != "b" && "h" != "c" && "h" != "d" && "a" != "b" && "a" != "c" && "a" != "d" && "b" != "c"
            && "b" != "d" && "c" != "d" && "w" != "x" && "w" != "y" && "w" != "z" && "x" != "y" && "x" != "z" && "y" != "z"
  {
    assert "h"[0] == 'h' && "a"[0] == 'a' && "b"[0] == 'b' && "c"[0] == 'c' && "d"[0] == 'd';
    assert "w"[0] == 'w' && "x"[0] == 'x' && "y"[0] == 'y' && "z"[0] == 'z';
  }

  lemma {:induction false} TrioStarts()
    ensures Start(CreatedTrio()) && Inv(AssembledTrio()) && Do(CreatedTrio(), Step.Assemble("r")) == AssembledTrio()
    ensures ApartLegs(TrioDomains(), CreatedTrio().v.legs)
  {
    TrioIsApart();
    assert MayAssemble(CreatedTrio().v);
  }

  lemma {:induction false} TrioIsApart()
    ensures DistinctLegs(CreatedTrio().v.legs) && ApartLegs(TrioDomains(), CreatedTrio().v.legs)
  {
    TrioNames();
  }

  lemma {:induction false} TrioPicks()
    ensures var legs := CreatedTrio().v.legs;
            && "d" in MoveTargets(TrioDomains(), TRIO, legs, "a") && "c" in MoveTargets(TrioDomains(), TRIO, legs, "b")
  {
    TrioNames();
  }

  /** The leg on 'b' moves to 'c'. */
  lemma {:induction false} TrioMoves() returns (n: Machine)
    ensures n == After(Do(AssembledTrio(), Build("b", "c", TRIO)), Rest("c"))
    ensures Inv(n) && Mirrored(n.v) && !n.claimed && n.v.head == Some("h") && n.v.arrayId == Some("r") && n.v.replacing.None?
    ensures n.v.legs == [NewLeg("h", Created), NewLeg("a", Created), NewLeg("c", Created)]
  {
    TrioNames();
    TrioStarts();
    var m := AssembledTrio();
    assert m.v.legs[2].node == "b";
    assert HasLeg(m.v.legs, "b") && !HasLeg(m.v.legs, "c");
    ReplaceDone(m, Build("b", "c", TRIO));
    n := After(Do(m, Build("b", "c", TRIO)), Rest("c"));
  }

  /** Then the one on 'a' to 'd', though 'c' is in the domain of 'd'. */
  lemma {:induction false} TrioJoins(m: Machine)
    requires Inv(m) && Mirrored(m.v) && !m.claimed && m.v.head == Some("h") && m.v.arrayId == Some("r") && m.v.replacing.None?
    requires m.v.legs == [NewLeg("h", Created), NewLeg("a", Created), NewLeg("c", Created)]
    ensures !ApartLegs(TrioDomains(), After(Do(m, Build("a", "d", TRIO)), Rest("d")).v.legs)
  {
    TrioNames();
    assert m.v.legs[1].node == "a";
    assert HasLeg(m.v.legs, "a") && !HasLeg(m.v.legs, "d");
    ReplaceDone(m, Build("a", "d", TRIO));
    var legs := After(Do(m, Build("a", "d", TRIO)), Rest("d")).v.legs;
    assert legs[1].node == "d" && legs[2].node == "c";
  }

  /** The volume is assembled, one leg moves and then the other. */
  function TwoMoves(): seq<Step> {
    [Step.Assemble("r")] + ([Build("b", "c", TRIO)] + Rest("c")) + ([Build("a", "d", TRIO)] + Rest("d"))
  }

  /**
   * Both targets are ones that placement picks for the volume as it was assembled. The leg on 'b' moves to 'c' first; the
   * move of the one on 'a' begins with the target picked before that, and two legs share a domain.
   */
  lemma {:induction false} AStalePickJoinsDomains()
    ensures Start(CreatedTrio()) && ApartLegs(TrioDomains(), CreatedTrio().v.legs)
    ensures var legs := After(CreatedTrio(), TwoMoves()[..1]).v.legs;
            && "d" in MoveTargets(TrioDomains(), TRIO, legs, "a") && "c" in MoveTargets(TrioDomains(), TRIO, legs, "b")
    ensures !ApartLegs(TrioDomains(), After(CreatedTrio(), TwoMoves()).v.legs)
  {
    TrioStarts();
    TrioPicks();
    AfterOne(CreatedTrio(), TwoMoves(), 0);
    assert TwoMoves()[..0] == [];
    var n := TrioMoves();
    TrioJoins(n);
    TwoMovesAre(n);
  }

  lemma {:induction false} TwoMovesAre(n: Machine)
    requires n == After(Do(AssembledTrio(), Build("b", "c", TRIO)), Rest("c"))
    ensures After(CreatedTrio(), TwoMoves()) == After(Do(n, Build("a", "d", TRIO)), Rest("d"))
  {
    TrioStarts();
    var b, a := [Build("b", "c", TRIO)] + Rest("c"), [Build("a", "d", TRIO)] + Rest("d");
    assert TwoMoves() == [Step.Assemble("r")] + (b + a);
    AfterCons(CreatedTrio(), Step.Assemble("r"), b + a);
    AfterConcat(AssembledTrio(), b, a);
    AfterCons(AssembledTrio(), Build("b", "c", TRIO), Rest("c"));
    AfterCons(n, Build("a", "d", TRIO), Rest("d"));
  }

  /** Failed over to 'b', the leg on 'a' lost. */
  function AwayFromA(): Machine {
    Machine(Volume("v", [NewLeg("a", Lost).(message := Some("unreachable")), NewLeg("b", Created)], Degraded,
                   Some("b"), Some("r"), None, None, None, 2, false, None), false, [])
  }

  /** The leg moves to 'c' and back to 'a', which answers again and is promoted when 'b' goes away. */
  function ThereAndBack(): seq<Step> {
    ([Build("a", "c", {"b", "c"})] + Rest("c")) + ([Build("c", "a", {"a", "b", "c"})] + Rest("a"))
    + [FenceAt(2), PromoteTo("a", 3, {"a"}, true)]
  }

  lemma {:induction false} ThereIsC()
    ensures Inv(AwayFromA()) && Inv(AfterFailover())
    ensures After(Do(AwayFromA(), Build("a", "c", {"b", "c"})), Rest("c")) == AfterFailover()
  {
    Names();
    var m := AwayFromA();
    assert m.v.legs[0].node == "a" && m.v.legs[0].state == Lost;
    assert HasLeg(m.v.legs, "a") && !HasLeg(m.v.legs, "c");
    ReplaceDone(m, Build("a", "c", {"b", "c"}));
  }

  /** The failed-over volume with its leg back on 'a'. */
  function OnAAgain(): Machine {
    AfterFailover().(v := AfterFailover().v.(legs := [NewLeg("a", Created), NewLeg("b", Created)]))
  }

  lemma {:induction false} BackOnA()
    ensures After(Do(AfterFailover(), Build("c", "a", {"a", "b", "c"})), Rest("a")) == OnAAgain()
  {
    Names();
    ThereIsC();
    var m := AfterFailover();
    assert m.v.legs[0].node == "c";
    assert HasLeg(m.v.legs, "c") && !HasLeg(m.v.legs, "a");
    ReplaceDone(m, Build("c", "a", {"a", "b", "c"}));
  }

  lemma {:induction false} PromotedBack()
    ensures var n := Do(Do(OnAAgain(), FenceAt(2)), PromoteTo("a", 3, {"a"}, true));
            && n.v.head == Some("a") && n.v.arrayId == Some("r") && n.v.replacing.None? && Mirrored(n.v)
            && !n.claimed && n.works == []
            && n.v.legs == [NewLeg("a", Created), NewLeg("b", Lost).(message := Some("unreachable"))]
  {
    Names();
    var legs := OnAAgain().v.legs;
    assert IndexOn(legs, "a") == 0;
    assert LegsLost(legs, {"a"}) == [NewLeg("a", Created), NewLeg("b", Lost).(message := Some("unreachable"))];
  }

  lemma {:induction false} ThereAndBackIs()
    ensures After(AwayFromA(), ThereAndBack()) == Do(Do(OnAAgain(), FenceAt(2)), PromoteTo("a", 3, {"a"}, true))
  {
    var m := AwayFromA();
    var away, back := [Build("a", "c", {"b", "c"})] + Rest("c"), [Build("c", "a", {"a", "b", "c"})] + Rest("a");
    var end := [FenceAt(2), PromoteTo("a", 3, {"a"}, true)];
    ThereIsC();
    BackOnA();
    AfterConcat(m, away + back, end);
    AfterConcat(m, away, back);
    AfterCons(m, away[0], Rest("c"));
    AfterCons(AfterFailover(), back[0], Rest("a"));
    AfterOne(OnAAgain(), end, 0);
    AfterOne(OnAAgain(), end, 1);
    assert end[..2] == end && end[..0] == [];
  }

  /**
   * A poll decides to replace the lost leg on 'a'. A leg is put there again meanwhile, and by the time the replacement
   * begins 'a' carries the head: it takes the head's own leg, which is not lost.
   */
  lemma {:induction false} AStalePlanTakesTheHeadsLeg()
    ensures var m, n, s := AwayFromA(), After(AwayFromA(), ThereAndBack()), Build("a", "c", {"a", "c"});
            && Inv(m) && MarkLost(m.v, {"b", "c"}) == m.v
            && Decide(m.v, {"b", "c"}, true, m.claimed, 0) == StartFrom("a")
            && n.v.head == Some("a") && !LostOn(n.v.legs, "a") && Begins(n, s)
  {
    Names();
    PlanOnA();
    ThereAndBackIs();
    PromotedBack();
    var n := After(AwayFromA(), ThereAndBack());
    assert n.v.legs[0].node == "a";
    assert HasLeg(n.v.legs, "a") && !HasLeg(n.v.legs, "c");
  }

  lemma {:induction false} PlanOnA()
    ensures var m := AwayFromA();
            && Inv(m) && MarkLost(m.v, {"b", "c"}) == m.v && Decide(m.v, {"b", "c"}, true, m.claimed, 0) == StartFrom("a")
  {
    Names();
    ThereIsC();
    var m := AwayFromA();
    assert m.v.legs[0].state == Lost;
    assert LegsLost(m.v.legs, {"b", "c"}) == m.v.legs;
    assert !LostOn(m.v.legs, "b");
  }
}
