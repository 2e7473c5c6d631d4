/**
  A mirrored volume over whole runs of what src/orchestrate.rs and src/head.rs do to it: polls that lose legs, leg
  replacements and restarts in the middle of them, head rejoins, reassembly, fences, promotes and dual-attach windows.
  A step that the source refuses leaves everything as it was, so every sequence of steps is a run.
*/
module Lifecycle {
  import opened Wrappers
  import opened Volumes
  import opened Superblocks
  import opened VolumeOps

  /** A task at work on the volume: building a new leg, or waiting for a recorded one to rebuild. */
  datatype Work = Building(from: string, target: string) | Waiting(rep: Replacement)

  /** The volume's record, whether its claim is taken, and the tasks of this process. */
  datatype Machine = Machine(v: Volume, claimed: bool, works: seq<Work>)

  datatype Step =
    | Poll(healthy: set<string>)
    | Build(from: string, target: string, healthy: set<string>)
    | Record(task: nat, leg: Leg)
    | GiveUp(task: nat, again: Option<int>)
    | Resume
    | Finish(task: nat, rebuilt: bool, retry: int)
    | Abandon(task: nat)
    | Restart
    | ReadHead(reading: Option<Reading>)
    | Hold(until: int)
    | FenceAt(expected: nat)
    | PromoteTo(target: string, fencedEpoch: nat, healthy: set<string>, assembles: bool)
    | Reassemble(healthy: set<string>)
    | Assemble(arrayId: string)
    | Open(target: string, ttl: nat, now: int)
    | Close(presented: nat)
    | Expire(now: int)

  function Without(works: seq<Work>, k: nat): seq<Work>
    requires k < |works|
  {
    works[..k] + works[k + 1..]
  }

  /** A task ends, and lets the claim go. */
  function Ended(m: Machine, task: nat, v: Volume): Machine
    requires task < |m.works|
  {
    Machine(v, false, Without(m.works, task))
  }

  predicate Answering(v: Volume, healthy: set<string>) {
    exists i :: 0 <= i < |v.legs| && v.legs[i].node in healthy
                && (v.legs[i].state == Created || (v.legs[i].state == Lost && Some(v.legs[i].node) == v.head))
  }

  /** A replacement begins; nothing asks again why this leg, or why that target. */
  predicate Begins(m: Machine, s: Step) {
    s.Build? && !m.claimed && MayReplace(m.v, s.from, s.healthy) && s.target in s.healthy && !HasLeg(m.v.legs, s.target)
  }

  predicate Records(m: Machine, task: nat, leg: Leg) {
    task < |m.works| && m.works[task].Building? && leg.node == m.works[task].target && leg.state == Created
  }

  predicate Ends(m: Machine, task: nat) {
    task < |m.works| && m.works[task].Waiting?
  }

  /** A new leg takes the place of the old one. */
  predicate Completes(m: Machine, s: Step) {
    s.Finish? && s.rebuilt && Ends(m, s.task)
  }

  predicate Promotes(m: Machine, s: Step) {
    s.PromoteTo? && !m.claimed && AfterPromote(m.v, s.target, s.fencedEpoch, s.healthy, s.assembles).Ok?
  }

  predicate Assembles(m: Machine, s: Step) {
    s.Assemble? && !m.claimed && MayAssemble(m.v)
  }

  predicate Closes(m: Machine, presented: nat) {
    m.v.window.Some? && m.v.window.value.epoch == presented
  }

  function Do(m: Machine, s: Step): Machine {
    match s
    case Poll(healthy) => m.(v := MarkLost(m.v, healthy))
    case Build(from, target, healthy) =>
      if Begins(m, s) then m.(claimed := true, works := m.works + [Building(from, target)]) else m
    case Record(k, leg) =>
      if Records(m, k, leg) then
        m.(v := Recorded(m.v, m.works[k].from, leg), works := m.works[k := Waiting(Replacement(m.works[k].from, leg))])
      else m
    case GiveUp(k, again) =>
      if k < |m.works| && m.works[k].Building?
      then Ended(m, k, if again.Some? then m.v.(nextReleg := again) else m.v) else m
    case Resume =>
      if !m.claimed && m.v.replacing.Some?
      then m.(claimed := true, works := m.works + [Waiting(m.v.replacing.value)]) else m
    case Finish(k, rebuilt, retry) =>
      if Ends(m, k) then Ended(m, k, if rebuilt then Replaced(m.v, m.works[k].rep) else Undone(m.v, retry)) else m
    case Abandon(k) => if Ends(m, k) then Ended(m, k, m.v) else m
    case Restart => Machine(m.v, false, [])
    case ReadHead(reading) => m.(v := AfterHeadReading(m.v, reading).0)
    case Hold(until) => m.(v := m.v.(nextAssemble := Some(until)))
    case FenceAt(expected) => if MayFence(m.v, expected) then m.(v := Fenced(m.v)) else m
    case PromoteTo(target, e, healthy, assembles) =>
      if Promotes(m, s) then m.(v := AfterPromote(m.v, target, e, healthy, assembles).value) else m
    case Reassemble(healthy) =>
      if !m.claimed && MayReassemble(m.v, healthy) && Answering(m.v, healthy)
      then m.(v := Reassembled(m.v, healthy)) else m
    case Assemble(arrayId) => if Assembles(m, s) then m.(v := AssembledOn(m.v, arrayId)) else m
    case Open(target, ttl, now) => if MayOpen(m.v, target) then m.(v := OpenedFor(m.v, target, ttl, now)) else m
    case Close(presented) => if Closes(m, presented) then m.(v := m.v.(window := None)) else m
    case Expire(now) => if Expired(m.v, now) then m.(v := m.v.(window := None)) else m
  }

  function After(m: Machine, run: seq<Step>): Machine {
    if run == [] then m else Do(After(m, run[..|run| - 1]), run[|run| - 1])
  }

  lemma {:induction false} AfterOne(m: Machine, run: seq<Step>, i: nat)
    requires i < |run|
    ensures After(m, run[..i + 1]) == Do(After(m, run[..i]), run[i])
  {
    assert run[..i + 1][..i] == run[..i];
  }

  lemma {:induction false} AfterConcat(m: Machine, a: seq<Step>, b: seq<Step>)
    ensures After(m, a + b) == After(After(m, a), b)
  {
    if b == [] {
      assert a + b == a;
    } else {
      var c := b[..|b| - 1];
      assert (a + b)[..|a + b| - 1] == a + c;
      AfterConcat(m, a, c);
    }
  }

  lemma {:induction false} AfterBetween(m: Machine, run: seq<Step>, i: nat, j: nat)
    requires i <= j <= |run|
    ensures After(m, run[..j]) == After(After(m, run[..i]), run[i..j])
  {
    assert run[..j] == run[..i] + run[i..j];
    AfterConcat(m, run[..i], run[i..j]);
  }

  // ------------------------------------------------------------- invariant

  predicate DistinctLegs(legs: seq<Leg>) {
    forall i, j :: 0 <= i < j < |legs| ==> legs[i].node != legs[j].node
  }

  predicate SameNodes(a: seq<Leg>, b: seq<Leg>) {
    |a| == |b| && forall i :: 0 <= i < |a| ==> a[i].node == b[i].node
  }

  /** Only a mirror has a head, and its state says what its legs say. */
  predicate LegsTell(v: Volume) {
    && (v.head.Some? ==> Mirrored(v))
    && (Mirrored(v) ==>
      && (forall i :: 0 <= i < |v.legs| ==> v.legs[i].state != Failed)
      && (v.assembly == Degraded <==> AnyLost(v.legs)))
  }

  /** A new leg, in the record or on its way there, is on a node of its own and replaces a leg of the volume. */
  predicate Sound(legs: seq<Leg>, from: string, target: string) {
    HasLeg(legs, from) && !HasLeg(legs, target)
  }

  predicate ReplacingSound(v: Volume) {
    v.replacing.Some? ==> Mirrored(v) && Sound(v.legs, v.replacing.value.from, v.replacing.value.leg.node)
                          && v.replacing.value.leg.state == Created
  }

  /** One task at most, it has the claim, and what it builds or waits for is the volume's one replacement. */
  predicate OneTask(m: Machine) {
    && |m.works| == (if m.claimed then 1 else 0)
    && (m.claimed ==>
          match m.works[0]
          case Building(from, target) => Mirrored(m.v) && m.v.replacing.None? && Sound(m.v.legs, from, target)
          case Waiting(rep) => m.v.replacing == Some(rep))
  }

  predicate Inv(m: Machine) {
    LegsTell(m.v) && DistinctLegs(m.v.legs) && ReplacingSound(m.v) && OneTask(m)
  }

  /** A volume as it is created: on distinct nodes, not assembled yet. */
  predicate Start(m: Machine) {
    && !m.claimed && m.works == [] && DistinctLegs(m.v.legs) && m.v.replacing.None? && !Mirrored(m.v)
    && m.v.head.None? && m.v.window.None? && !m.v.fenced
  }

  lemma {:induction false} NodesKept(a: seq<Leg>, b: seq<Leg>)
    requires SameNodes(a, b)
    ensures DistinctLegs(a) ==> DistinctLegs(b)
    ensures forall n :: HasLeg(a, n) <==> HasLeg(b, n)
  {
    forall n ensures HasLeg(a, n) <==> HasLeg(b, n) {
      if i :| 0 <= i < |a| && a[i].node == n { assert b[i].node == n; }
      if i :| 0 <= i < |b| && b[i].node == n { assert a[i].node == n; }
    }
  }

  /** A change of the record that keeps its nodes and the replacement keeps the tasks right. */
  lemma {:induction false} KeptByRecord(m: Machine, v: Volume)
    requires Inv(m) && SameNodes(m.v.legs, v.legs) && v.replacing == m.v.replacing && LegsTell(v)
    requires Mirrored(m.v) ==> Mirrored(v)
    ensures Inv(m.(v := v))
  {
    NodesKept(m.v.legs, v.legs);
  }

  lemma {:induction false} LossKeeps(m: Machine, healthy: set<string>)
    requires Inv(m)
    ensures Inv(m.(v := MarkLost(m.v, healthy)))
  {
    var v := MarkLost(m.v, healthy);
    if Mirrored(m.v) && AnyLost(m.v.legs) {
      var i :| 0 <= i < |m.v.legs| && m.v.legs[i].state == Lost;
      assert v.legs[i].state == Lost;
    }
    KeptByRecord(m, v);
  }

  lemma {:induction false} MirrorStateTells(legs: seq<Leg>)
    requires forall i :: 0 <= i < |legs| ==> legs[i].state != Failed
    ensures MirrorState(legs) == Degraded <==> AnyLost(legs)
    ensures MirrorState(legs) == Assembled <==> !AnyLost(legs)
  {
  }

  lemma {:induction false} PromoteKeeps(m: Machine, s: Step)
    requires Inv(m) && Promotes(m, s)
    ensures Inv(Do(m, s))
  {
    var v := Do(m, s).v;
    if v.head != m.v.head {
      MirrorStateTells(v.legs);
    }
    KeptByRecord(m, v);
  }

  lemma {:induction false} ReassembleKeeps(m: Machine, healthy: set<string>)
    requires Inv(m) && MayReassemble(m.v, healthy)
    ensures Inv(m.(v := Reassembled(m.v, healthy)))
  {
    var v := Reassembled(m.v, healthy);
    MirrorStateTells(v.legs);
    KeptByRecord(m, v);
  }

  lemma {:induction false} HeadReadingKeeps(m: Machine, reading: Option<Reading>)
    requires Inv(m)
    ensures Inv(m.(v := AfterHeadReading(m.v, reading).0))
  {
    var v := AfterHeadReading(m.v, reading).0;
    if v != m.v {
      var i := LostIndexOn(m.v.legs, m.v.head.value);
      assert SameNodes(m.v.legs, v.legs);
      assert m.v.legs[i].state == Lost;
      if v.legs[i].state == Created {
        assert LegsTell(v);
      } else {
        assert v.legs[i].state == Lost;
      }
    }
    KeptByRecord(m, v);
  }

  lemma {:induction false} SwapFacts(legs: seq<Leg>, from: string, leg: Leg)
    requires DistinctLegs(legs) && Sound(legs, from, leg.node)
    ensures var i := IndexOn(legs, from); i < |legs| && Swapped(legs, from, leg) == legs[i := leg]
    ensures DistinctLegs(Swapped(legs, from, leg))
  {
    var i := IndexOn(legs, from);
    var k :| 0 <= k < |legs| && legs[k].node == from;
    assert i <= k;
    assert forall j :: 0 <= j < |legs| ==> legs[j].node != leg.node;
  }

  lemma {:induction false} FinishKeeps(m: Machine, k: nat, rebuilt: bool, retry: int)
    requires Inv(m) && Ends(m, k)
    ensures Inv(Do(m, Finish(k, rebuilt, retry)))
    ensures |Do(m, Finish(k, rebuilt, retry)).v.legs| == |m.v.legs|
  {
    if rebuilt {
      var rep := m.works[k].rep;
      SwapFacts(m.v.legs, rep.from, rep.leg.(message := None));
    }
  }

  lemma {:induction false} TaskBeginsKeeps(m: Machine, s: Step)
    requires Inv(m) && (s.Build? || s.Record? || s.Resume?)
    ensures Inv(Do(m, s)) && Do(m, s).v.legs == m.v.legs
    ensures Mirrored(m.v) ==> Mirrored(Do(m, s).v)
  {
  }

  lemma {:induction false} TaskEndsKeeps(m: Machine, s: Step)
    requires Inv(m) && (s.GiveUp? || s.Abandon? || s.Restart?)
    ensures Inv(Do(m, s)) && Do(m, s).v.legs == m.v.legs
    ensures Mirrored(m.v) ==> Mirrored(Do(m, s).v)
  {
  }

  /** A fence, a window or a hold changes no leg, no replacement and no assembly. */
  predicate LeavesLegs(s: Step) {
    s.Hold? || s.FenceAt? || s.Open? || s.Close? || s.Expire?
  }

  lemma {:induction false} EpochStepKeeps(m: Machine, s: Step)
    requires Inv(m) && LeavesLegs(s)
    ensures Inv(Do(m, s)) && Do(m, s).v.legs == m.v.legs
    ensures Mirrored(m.v) ==> Mirrored(Do(m, s).v)
  {
    KeptByRecord(m, Do(m, s).v);
  }

  /** Every step keeps the invariant and the number of legs. */
  lemma {:induction false} StepKeepsInv(m: Machine, s: Step)
    requires Inv(m)
    ensures Inv(Do(m, s))
    ensures |Do(m, s).v.legs| == |m.v.legs|
    ensures Mirrored(m.v) ==> Mirrored(Do(m, s).v)
  {
    if s.Build? || s.Record? || s.Resume? {
      TaskBeginsKeeps(m, s);
    } else if s.GiveUp? || s.Abandon? || s.Restart? {
      TaskEndsKeeps(m, s);
    } else if LeavesLegs(s) {
      EpochStepKeeps(m, s);
    } else {
      LegStepKeeps(m, s);
    }
  }

  lemma {:induction false} LegStepKeeps(m: Machine, s: Step)
    requires Inv(m) && (s.Poll? || s.Finish? || s.ReadHead? || s.PromoteTo? || s.Reassemble? || s.Assemble?)
    ensures Inv(Do(m, s))
    ensures |Do(m, s).v.legs| == |m.v.legs|
    ensures Mirrored(m.v) ==> Mirrored(Do(m, s).v)
  {
    match s
    case Poll(healthy) => LossKeeps(m, healthy);
    case Finish(k, rebuilt, retry) => if Ends(m, k) { FinishKeeps(m, k, rebuilt, retry); }
    case ReadHead(reading) => HeadReadingKeeps(m, reading);
    case PromoteTo(_, _, _, _) => if Promotes(m, s) { PromoteKeeps(m, s); }
    case Reassemble(healthy) => if MayReassemble(m.v, healthy) { ReassembleKeeps(m, healthy); }
    case Assemble(_) => if Assembles(m, s) { KeptByRecord(m, Do(m, s).v); }
  }

  lemma {:induction false} RunKeepsInv(m: Machine, run: seq<Step>)
    requires Inv(m)
    ensures Inv(After(m, run))
    ensures |After(m, run).v.legs| == |m.v.legs|
    ensures Mirrored(m.v) ==> Mirrored(After(m, run).v)
  {
    if run != [] {
      var front := run[..|run| - 1];
      RunKeepsInv(m, front);
      StepKeepsInv(After(m, front), run[|run| - 1]);
    }
  }
}
