/** What holds in every run of a mirrored volume, and the runs in which something one would expect does not. */
module LifecycleTheory {
  import opened Wrappers
  import opened Volumes
  import opened Superblocks
  import opened VolumeOps
  import opened Lifecycle

  // ------------------------------------------------- legs and replacements

  /**
   * From its creation on, and through restarts: a mirrored volume is degraded exactly when a leg of it is lost, it
   * keeps its number of legs, and its legs and the one being built sit on distinct nodes.
   */
  lemma {:induction false} MirrorsStaySound(m: Machine, run: seq<Step>)
    requires Start(m)
    ensures var v := After(m, run).v;
            && (Mirrored(v) ==> (v.assembly == Degraded <==> AnyLost(v.legs)))
            && |v.legs| == |m.v.legs| && DistinctLegs(v.legs)
            && (v.replacing.Some? ==> !HasLeg(v.legs, v.replacing.value.leg.node))
  {
    RunKeepsInv(m, run);
  }

  /**
   * No two tasks replace legs of a volume at once, a restart in between included: a leg is recorded only when no
   * other replacement is, and a task that ends its wait ends the replacement on record.
   */
  lemma {:induction false} OneReplacementAtATime(m: Machine, run: seq<Step>, task: nat, leg: Leg)
    requires Start(m)
    ensures var n := After(m, run);
            && |n.works| <= 1
            && (Records(n, task, leg) ==> n.v.replacing.None? && !HasLeg(n.v.legs, leg.node))
            && (Ends(n, task) ==> n.v.replacing == Some(n.works[task].rep))
  {
    RunKeepsInv(m, run);
  }

  // ------------------------------------------------------------------ epoch

  predicate Fences(m: Machine, s: Step) {
    s.FenceAt? && MayFence(m.v, s.expected)
  }

  /** How many fences succeed in the run. */
  function FenceCount(m: Machine, run: seq<Step>): nat {
    if run == [] then 0
    else
      var front := run[..|run| - 1];
      FenceCount(m, front) + if Fences(After(m, front), run[|run| - 1]) then 1 else 0
  }

  lemma {:induction false} StepEpoch(m: Machine, s: Step)
    ensures Do(m, s).v.epoch == m.v.epoch + if Fences(m, s) then 1 else 0
    ensures Do(m, s).v.fenced ==> m.v.fenced || Fences(m, s)
  {
  }

  /** The epoch is the number of fences: it never falls, and rises by one with each that succeeds. */
  lemma {:induction false} EpochCountsFences(m: Machine, run: seq<Step>)
    ensures After(m, run).v.epoch == m.v.epoch + FenceCount(m, run)
    ensures After(m, run).v.fenced ==> m.v.fenced || FenceCount(m, run) > 0
  {
    if run != [] {
      var front := run[..|run| - 1];
      EpochCountsFences(m, front);
      StepEpoch(After(m, front), run[|run| - 1]);
    }
  }

  lemma {:induction false} EpochBetween(m: Machine, run: seq<Step>, i: nat, j: nat)
    requires i < j <= |run|
    ensures After(m, run[..i + 1]) == Do(After(m, run[..i]), run[i])
    ensures After(m, run[..i + 1]).v.epoch <= After(m, run[..j]).v.epoch
    ensures After(m, run[..j]).v.fenced && !After(m, run[..i + 1]).v.fenced
            ==> After(m, run[..i + 1]).v.epoch < After(m, run[..j]).v.epoch
  {
    AfterOne(m, run, i);
    AfterBetween(m, run, i + 1, j);
    EpochCountsFences(After(m, run[..i + 1]), run[i + 1..j]);
  }

  /** Of the fences that expect one epoch, at most one succeeds. */
  lemma {:induction false} OneFencePerExpectedEpoch(m: Machine, run: seq<Step>, i: nat, j: nat)
    requires i < j < |run| && Fences(After(m, run[..i]), run[i]) && Fences(After(m, run[..j]), run[j])
    ensures run[i].expected < run[j].expected
  {
    EpochBetween(m, run, i, j);
  }

  /** A promote needs the fence of its own epoch and no open window, and spends that fence. */
  lemma {:induction false} PromoteSpendsItsFence(m: Machine, s: Step)
    requires Promotes(m, s)
    ensures m.v.fenced && m.v.epoch == s.fencedEpoch && m.v.window.None?
    ensures !Do(m, s).v.fenced && Do(m, s).v.epoch == s.fencedEpoch && Do(m, s).v.head == Some(s.target)
  {
  }

  /** At most one promote succeeds at a fenced epoch. */
  lemma {:induction false} OnePromotePerFencedEpoch(m: Machine, run: seq<Step>, i: nat, j: nat)
    requires i < j < |run| && Promotes(After(m, run[..i]), run[i]) && Promotes(After(m, run[..j]), run[j])
    ensures run[i].fencedEpoch < run[j].fencedEpoch
  {
    PromoteSpendsItsFence(After(m, run[..i]), run[i]);
    PromoteSpendsItsFence(After(m, run[..j]), run[j]);
    EpochBetween(m, run, i, j);
  }

  // ------------------------------------------------------------------- head

  /** An assembly that was asked for while the volume was pending, and runs when it no longer is. */
  predicate StaleAssembly(m: Machine, s: Step) {
    Assembles(m, s) && Mirrored(m.v)
  }

  predicate GivesHead(m: Machine, s: Step, head: Option<string>) {
    (Promotes(m, s) && head == Some(s.target))
    || (StaleAssembly(m, s) && |m.v.legs| > 0 && head == Some(m.v.legs[0].node))
  }

  lemma {:induction false} StepHead(m: Machine, s: Step)
    requires Mirrored(m.v)
    ensures Do(m, s).v.head == m.v.head || GivesHead(m, s, Do(m, s).v.head)
  {
  }

  /**
   * Once assembled, the head a volume has is the one it had before the run or one that a promote gave it, or an
   * assembly that no longer applied. Windows that are aborted or expire, polls, rejoins and re-legs leave it.
   */
  lemma {:induction false} WhatMovesTheHead(m: Machine, run: seq<Step>)
    requires Inv(m) && Mirrored(m.v)
    ensures After(m, run).v.head == m.v.head
            || exists i :: 0 <= i < |run| && GivesHead(After(m, run[..i]), run[i], After(m, run).v.head)
  {
    if run != [] {
      var last := |run| - 1;
      var front := run[..last];
      WhatMovesTheHead(m, front);
      RunKeepsInv(m, front);
      StepHead(After(m, front), run[last]);
      if After(m, run).v.head == After(m, front).v.head && After(m, run).v.head != m.v.head {
        var i :| 0 <= i < |front| && GivesHead(After(m, front[..i]), front[i], After(m, front).v.head);
        assert front[..i] == run[..i];
        assert GivesHead(After(m, run[..i]), run[i], After(m, run).v.head);
      }
    }
  }

  /** Where every assembly looks again whether the volume is pending, only a promote moves an assembled volume's head. */
  lemma {:induction false} OnlyPromotesMoveTheHead(m: Machine, run: seq<Step>)
    requires Inv(m) && Mirrored(m.v)
    requires forall i :: 0 <= i < |run| ==> !StaleAssembly(After(m, run[..i]), run[i])
    ensures After(m, run).v.head == m.v.head
            || exists i :: 0 <= i < |run| && Promotes(After(m, run[..i]), run[i])
                           && After(m, run).v.head == Some(run[i].target)
  {
    WhatMovesTheHead(m, run);
    if After(m, run).v.head != m.v.head {
      var i :| 0 <= i < |run| && GivesHead(After(m, run[..i]), run[i], After(m, run).v.head);
      assert Promotes(After(m, run[..i]), run[i]);
    }
  }

  /** The step moves the head though it is no promote. */
  predicate MovesHeadAlone(m: Machine, s: Step) {
    Do(m, s).v.head != m.v.head && !Promotes(m, s)
  }

  /** An assembly that no longer applies, of a volume whose head is not on its first leg's node. */
  predicate StrayAssembly(m: Machine, s: Step) {
    StaleAssembly(m, s) && |m.v.legs| > 0 && m.v.head != Some(m.v.legs[0].node)
  }

  lemma {:induction false} StepMovesHeadAlone(m: Machine, s: Step)
    requires Mirrored(m.v)
    ensures MovesHeadAlone(m, s) <==> StrayAssembly(m, s)
  {
    StepHead(m, s);
  }

  /** In a run of an assembled volume only promotes move the head, exactly when no assembly in it strays. */
  lemma {:induction false} OnlyPromotesMoveTheHeadExactly(m: Machine, run: seq<Step>)
    requires Inv(m) && Mirrored(m.v)
    ensures (forall i :: 0 <= i < |run| ==> !MovesHeadAlone(After(m, run[..i]), run[i]))
            <==> (forall i :: 0 <= i < |run| ==> !StrayAssembly(After(m, run[..i]), run[i]))
  {
    forall i | 0 <= i < |run|
      ensures MovesHeadAlone(After(m, run[..i]), run[i]) <==> StrayAssembly(After(m, run[..i]), run[i])
    {
      RunKeepsInv(m, run[..i]);
      StepMovesHeadAlone(After(m, run[..i]), run[i]);
    }
  }

  // ----------------------------------------------------------------- commit

  /** No window is opened, or opened again, in the run. */
  predicate NoneOpens(m: Machine, run: seq<Step>) {
    forall i :: 0 <= i < |run| ==> !(run[i].Open? && MayOpen(After(m, run[..i]).v, run[i].target))
  }

  lemma {:induction false} StepWindow(m: Machine, s: Step)
    requires !(s.Open? && MayOpen(m.v, s.target))
    ensures Do(m, s).v.window == m.v.window || Do(m, s).v.window.None?
  {
  }

  lemma {:induction false} WindowOnlyCloses(m: Machine, run: seq<Step>)
    requires NoneOpens(m, run)
    ensures After(m, run).v.window == m.v.window || After(m, run).v.window.None?
  {
    if run != [] {
      var front := run[..|run| - 1];
      assert forall i :: 0 <= i < |front| ==> front[i] == run[i] && front[..i] == run[..i];
      WindowOnlyCloses(m, front);
      assert run[..|front|] == front;
      StepWindow(After(m, front), run[|front|]);
    }
  }

  /**
   * A commit closes the window, fences at the window's epoch and promotes its target at the fenced epoch; anything may
   * happen between these. Where all three succeed, no other fence did since the window was last opened.
   */
  lemma {:induction false} CommitsFollowNoOtherFence(
    m: Machine, open: Step, run0: seq<Step>, presented: nat, run1: seq<Step>, run2: seq<Step>, promote: Step)
    requires open.Open? && MayOpen(m.v, open.target)
    requires var opened0 := Do(m, open);
             && NoneOpens(opened0, run0) && Closes(After(opened0, run0), presented)
             && var closed := Do(After(opened0, run0), Close(presented));
             && Fences(After(closed, run1), FenceAt(presented))
             && var fenced := Do(After(closed, run1), FenceAt(presented));
             && promote.PromoteTo? && promote.fencedEpoch == presented + 1 && Promotes(After(fenced, run2), promote)
    ensures var opened0 := Do(m, open);
            var closed := Do(After(opened0, run0), Close(presented));
            var fenced := Do(After(closed, run1), FenceAt(presented));
            FenceCount(opened0, run0) == 0 && FenceCount(closed, run1) == 0 && FenceCount(fenced, run2) == 0
  {
    var opened0 := Do(m, open);
    var closed := Do(After(opened0, run0), Close(presented));
    var fenced := Do(After(closed, run1), FenceAt(presented));
    OpenedAt(m, open, run0, presented);
    FencedAt(closed, run1, presented);
    PromotedAt(fenced, run2, promote);
  }

  /** A window that may be closed is the one last opened, at the epoch of then. */
  lemma {:induction false} OpenedAt(m: Machine, open: Step, run: seq<Step>, presented: nat)
    requires open.Open? && MayOpen(m.v, open.target) && NoneOpens(Do(m, open), run)
    requires Closes(After(Do(m, open), run), presented)
    ensures m.v.epoch == presented == Do(m, open).v.epoch
    ensures Do(After(Do(m, open), run), Close(presented)).v.epoch == presented + FenceCount(Do(m, open), run)
  {
    OpensAt(m, open);
    WindowOnlyCloses(Do(m, open), run);
    EpochCountsFences(Do(m, open), run);
    CloseKeepsEpoch(After(Do(m, open), run), presented);
  }

  lemma {:induction false} OpensAt(m: Machine, open: Step)
    requires open.Open? && MayOpen(m.v, open.target)
    ensures var v := Do(m, open).v; v.window.Some? && v.window.value.epoch == m.v.epoch == v.epoch
  {
  }

  lemma {:induction false} CloseKeepsEpoch(m: Machine, presented: nat)
    ensures Do(m, Close(presented)).v.epoch == m.v.epoch
  {
  }

  lemma {:induction false} FencedAt(closed: Machine, run: seq<Step>, presented: nat)
    requires Fences(After(closed, run), FenceAt(presented))
    ensures closed.v.epoch + FenceCount(closed, run) == presented
    ensures Do(After(closed, run), FenceAt(presented)).v.epoch == presented + 1
  {
    EpochCountsFences(closed, run);
  }

  lemma {:induction false} PromotedAt(fenced: Machine, run: seq<Step>, promote: Step)
    requires Promotes(After(fenced, run), promote)
    ensures fenced.v.epoch + FenceCount(fenced, run) == promote.fencedEpoch
  {
    EpochCountsFences(fenced, run);
  }

  // ----------------------------------------------------- a run that surprises

  function NewLeg(node: string, state: LegState): Leg {
    Leg(node, Some(node), state, None, None, None, None)
  }

  /** A volume of two legs on nodes 'a' and 'b', as it is created. */
  function CreatedPair(): Machine {
    Machine(Volume("v", [NewLeg("a", Created), NewLeg("b", Created)], Pending, None, None, None, None, None, 1, false, None),
            false, [])
  }

  lemma {:induction false} AfterCons(m: Machine, s: Step, rest: seq<Step>)
    ensures After(m, [s] + rest) == After(Do(m, s), rest)
  {
    AfterConcat(m, [s], rest);
    assert [s][..0] == [];
    assert After(m, [s]) == Do(m, s);
  }

  /** Assembled, failed over to 'b', the lost leg on 'a' replaced by one on 'c'. */
  function Failover(): seq<Step> {
    [Step.Assemble("r"), FenceAt(1), PromoteTo("b", 2, {"b"}, true),
     Build("a", "c", {"b", "c"}), Record(0, NewLeg("c", Created)), Finish(0, true, 0)]
  }

  function AfterFailover(): Machine {
    Machine(Volume("v", [NewLeg("c", Created), NewLeg("b", Created)], Assembled, Some("b"), Some("r"), None, None, None,
                   2, false, None), false, [])
  }

  lemma {:induction false} Names()
    ensures "a" != "b" && "a" != "c" && "b" != "c"
  {
    assert "a"[0] == 'a' && "b"[0] == 'b' && "c"[0] == 'c';
  }

  lemma {:induction false} FailoverLegs()
    ensures var legs := CreatedPair().v.legs;
            && IndexOn(legs, "b") == 1
            && LegsLost(legs, {"b"}) == [NewLeg("a", Lost).(message := Some("unreachable")), NewLeg("b", Created)]
  {
    Names();
  }

  lemma {:induction false} FailoverPromotes(m: Machine)
    requires m == Do(Do(CreatedPair(), Step.Assemble("r")), FenceAt(1))
    ensures Do(m, PromoteTo("b", 2, {"b"}, true))
            == Machine(Volume("v", [NewLeg("a", Lost).(message := Some("unreachable")), NewLeg("b", Created)], Degraded,
                              Some("b"), Some("r"), None, None, None, 2, false, None), false, [])
  {
    Names();
    FailoverLegs();
    assert MayAssemble(CreatedPair().v);
    var v := CreatedPair().v;
    assert m.v == v.(head := Some("a"), arrayId := Some("r"), assembly := Assembled, epoch := 2, fenced := true);
    assert LegsLost(m.v.legs, {"b"})[0].state == Lost;
  }

  lemma {:induction false} FailoverReplaces(m: Machine)
    requires m == Machine(Volume("v", [NewLeg("a", Lost).(message := Some("unreachable")), NewLeg("b", Created)], Degraded,
                                 Some("b"), Some("r"), None, None, None, 2, false, None), false, [])
    ensures Do(Do(Do(m, Build("a", "c", {"b", "c"})), Record(0, NewLeg("c", Created))), Finish(0, true, 0)) == AfterFailover()
  {
    Names();
    assert m.v.legs[0].node == "a";
    assert HasLeg(m.v.legs, "a") && !HasLeg(m.v.legs, "c");
    var built := Do(m, Build("a", "c", {"b", "c"}));
    assert built == m.(claimed := true, works := [Building("a", "c")]);
    var recorded := Do(built, Record(0, NewLeg("c", Created)));
    assert recorded.works == [Waiting(Replacement("a", NewLeg("c", Created)))];
    assert IndexOn(m.v.legs, "a") == 0;
    assert Swapped(m.v.legs, "a", NewLeg("c", Created)) == AfterFailover().v.legs;
  }

  lemma {:induction false} FailoverLeaves()
    ensures Start(CreatedPair()) && After(CreatedPair(), Failover()) == AfterFailover()
  {
    Names();
    var r := Failover();
    var m := CreatedPair();
    forall i | 0 <= i < 6 ensures r[i..] == [r[i]] + r[i + 1..] {}
    AfterCons(m, r[0], r[1..]);
    var m1 := Do(m, r[0]);
    AfterCons(m1, r[1], r[2..]);
    var m2 := Do(m1, r[1]);
    FailoverPromotes(m2);
    AfterCons(m2, r[2], r[3..]);
    var m3 := Do(m2, r[2]);
    FailoverReplaces(m3);
    AfterCons(m3, r[3], r[4..]);
    AfterCons(Do(m3, r[3]), r[4], r[5..]);
    AfterCons(Do(Do(m3, r[3]), r[4]), r[5], r[6..]);
    assert r[0..] == r && r[6..] == [];
  }

  /**
   * An assembly asked for while the volume was pending may take the claim late, and it does not look again. Here it
   * runs after a failover and a re-leg and makes 'c' the head, though no promote named it.
   */
  lemma {:induction false} AStaleAssemblyMovesTheHead()
    ensures Start(CreatedPair())
    ensures After(CreatedPair(), Failover()).v.head == Some("b")
    ensures After(CreatedPair(), Failover() + [Step.Assemble("r")]).v.head == Some("c")
    ensures forall s :: s in Failover() && s.PromoteTo? ==> s.target == "b" != "c"
  {
    Names();
    FailoverLeaves();
    LateAssembly();
    AfterLast(CreatedPair(), Failover(), Step.Assemble("r"));
  }

  lemma {:induction false} LateAssembly()
    ensures Do(AfterFailover(), Step.Assemble("r")).v.head == Some("c")
  {
    assert MayAssemble(AfterFailover().v);
  }

  lemma {:induction false} AfterLast(m: Machine, run: seq<Step>, s: Step)
    ensures After(m, run + [s]) == Do(After(m, run), s)
  {
    assert (run + [s])[..|run|] == run;
  }
}
