/**
  What the operations on a volume's record answer and leave, by the fields of the record before and after
  (src/orchestrate.rs, src/head.rs).
*/
module VolumeAnswers {
  import opened Wrappers
  import opened Volumes
  import opened Superblocks
  import opened VolumeOps
  import opened Lifecycle

  /** All but the legs and the assembly is as it was. */
  predicate OnlyLegsChange(v: Volume, w: Volume) {
    w == v.(legs := w.legs, assembly := w.assembly) && |w.legs| == |v.legs|
  }

  predicate IsMirror(v: Volume) {
    v.assembly == Assembled || v.assembly == Degraded
  }

  // -------------------------------------------------------------- recovery

  /** A created leg of a mirror is lost exactly when its node does not answer; no other leg changes. */
  lemma {:induction false} LegsAreLostExactly(v: Volume, healthy: set<string>, i: nat)
    requires i < |v.legs|
    ensures var w := MarkLost(v, healthy);
            && OnlyLegsChange(v, w)
            && (IsMirror(v) && v.legs[i].state == Created && v.legs[i].node !in healthy ==>
                  w.legs[i] == v.legs[i].(state := Lost, message := Some("unreachable")))
            && (!(IsMirror(v) && v.legs[i].state == Created && v.legs[i].node !in healthy) ==> w.legs[i] == v.legs[i])
  {
  }

  /** It is degraded from then on exactly when a leg is lost or it was before. */
  lemma {:induction false} LossDegradesExactly(v: Volume, healthy: set<string>)
    ensures var w := MarkLost(v, healthy);
            && (!IsMirror(v) ==> w == v)
            && (IsMirror(v) ==>
                  (w.assembly == Degraded <==> v.assembly == Degraded || exists i :: 0 <= i < |w.legs| && w.legs[i].state == Lost)
                  && IsMirror(w))
  {
  }

  /** Recovery is on, the volume is in nobody's hands, and what it waits for has passed. */
  predicate MayAct(enabled: bool, busy: bool, notBefore: Option<int>, now: int) {
    enabled && !busy && (notBefore.None? || notBefore.value <= now)
  }

  /** A pending volume is assembled exactly when all its legs, two at least, are created on nodes that answer. */
  lemma {:induction false} AssemblesExactly(v: Volume, healthy: set<string>, enabled: bool, busy: bool, now: int)
    ensures Decide(v, healthy, enabled, busy, now) == AssembleIt <==>
              && v.assembly == Pending && MayAct(enabled, busy, v.nextAssemble, now) && |v.legs| >= 2
              && forall i :: 0 <= i < |v.legs| ==>
                   v.legs[i].state == Created && v.legs[i].volumeId.Some? && v.legs[i].node in healthy
  {
  }

  /** A replacement on record is taken up again exactly when nothing has the volume in hand, whatever is to be waited for. */
  lemma {:induction false} ResumesExactly(v: Volume, healthy: set<string>, enabled: bool, busy: bool, now: int)
    ensures Decide(v, healthy, enabled, busy, now) == Decision.Resume <==> IsMirror(v) && v.replacing.Some? && enabled && !busy
  {
  }

  predicate LegLostOn(v: Volume, node: string) {
    exists i :: 0 <= i < |v.legs| && v.legs[i].node == node && v.legs[i].state == Lost
  }

  /** The first lost leg is replaced exactly when the head answers and has not lost its own. */
  lemma {:induction false} RelegsExactly(v: Volume, healthy: set<string>, enabled: bool, busy: bool, now: int, from: string)
    ensures Decide(v, healthy, enabled, busy, now) == StartFrom(from) <==>
              && IsMirror(v) && v.replacing.None? && MayAct(enabled, busy, v.nextReleg, now)
              && v.head.Some? && v.head.value in healthy && !LegLostOn(v, v.head.value)
              && exists i :: 0 <= i < |v.legs| && v.legs[i].state == Lost && v.legs[i].node == from
                             && forall j :: 0 <= j < i ==> v.legs[j].state != Lost
  {
    FirstLostIs(v.legs);
    if v.head.Some? { assert LegLostOn(v, v.head.value) <==> LostOn(v.legs, v.head.value); }
  }

  lemma {:induction false} FirstLostIs(legs: seq<Leg>)
    ensures FirstLost(legs).None? <==> forall i :: 0 <= i < |legs| ==> legs[i].state != Lost
    ensures FirstLost(legs).Some? ==>
              exists i :: 0 <= i < |legs| && legs[i].state == Lost && legs[i].node == FirstLost(legs).value
                          && forall j :: 0 <= j < i ==> legs[j].state != Lost
  {
    if legs != [] && legs[0].state != Lost {
      FirstLostIs(legs[1..]);
      assert forall i :: 1 <= i < |legs| ==> legs[i] == legs[1..][i - 1];
      if FirstLost(legs).Some? {
        var i :| 0 <= i < |legs[1..]| && legs[1..][i].state == Lost && legs[1..][i].node == FirstLost(legs).value
                 && forall j :: 0 <= j < i ==> legs[1..][j].state != Lost;
        assert legs[i + 1].state == Lost;
      }
    }
  }

  // ---------------------------------------------------------- replacements

  /** When a replacement of the leg on `from` by one on `target` begins. */
  lemma {:induction false} BeginsExactly(m: Machine, from: string, target: string, healthy: set<string>)
    ensures Begins(m, Build(from, target, healthy)) <==>
              && !m.claimed && IsMirror(m.v) && m.v.replacing.None? && m.v.head.Some? && m.v.head.value in healthy
              && m.v.arrayId.Some? && target in healthy
              && (exists i :: 0 <= i < |m.v.legs| && m.v.legs[i].node == from)
              && (forall i :: 0 <= i < |m.v.legs| ==> m.v.legs[i].node != target)
  {
  }

  /** A replacement that has rebuilt: its leg stands where the first leg on its node was, or at the end; what waited may go on. */
  lemma {:induction false} ReplacedRecord(v: Volume, rep: Replacement, i: nat)
    requires i <= |v.legs| && (forall j :: 0 <= j < i ==> v.legs[j].node != rep.from)
    requires i < |v.legs| ==> v.legs[i].node == rep.from
    ensures var w := Replaced(v, rep);
            && w.legs == (if i < |v.legs| then v.legs[i := rep.leg.(message := None)] else v.legs + [rep.leg.(message := None)])
            && w.replacing.None? && w.nextReleg.None?
            && (w.assembly == Degraded <==> exists k :: 0 <= k < |w.legs| && w.legs[k].state == Lost)
            && (w.assembly == Assembled <==> forall k :: 0 <= k < |w.legs| ==> w.legs[k].state != Lost)
            && w == v.(legs := w.legs, replacing := None, nextReleg := None, assembly := w.assembly)
  {
    FirstOn(v.legs, rep.from, i);
  }

  lemma {:induction false} FirstOn(legs: seq<Leg>, node: string, i: nat)
    requires i <= |legs| && (forall j :: 0 <= j < i ==> legs[j].node != node) && (i < |legs| ==> legs[i].node == node)
    ensures IndexOn(legs, node) == i
  {
    var k := IndexOn(legs, node);
    assert !(k < i) && !(i < k);
  }

  /** One that has not is taken off the record, and not tried before its time; the legs are as they were. */
  lemma {:induction false} UndoneRecord(v: Volume, retry: int)
    ensures var w := Undone(v, retry);
            w.replacing.None? && w.nextReleg == Some(retry) && w.legs == v.legs && w.assembly == v.assembly && w.head == v.head
            && w.arrayId == v.arrayId && w.nextAssemble == v.nextAssemble && w.epoch == v.epoch && w.fenced == v.fenced
            && w.window == v.window && w.name == v.name
  {
  }

  // ---------------------------------------------------------------- rejoin

  /** The head's first lost leg, in a volume that has a head and an array. */
  predicate HeadsLostLeg(v: Volume, i: nat) {
    && v.head.Some? && v.arrayId.Some? && i < |v.legs| && v.legs[i].node == v.head.value && v.legs[i].state == Lost
    && forall j :: 0 <= j < i ==> !(v.legs[j].node == v.head.value && v.legs[j].state == Lost)
  }

  predicate OfThisArray(v: Volume, r: Reading) {
    Some(r.head) == v.head && Some(r.arrayId) == v.arrayId
  }

  /** A member is the leg's by its uuid, in either case, or by its path. */
  predicate IsMemberOf(leg: Leg, m: Member) {
    (leg.member.Some? && SameUuid(leg.member.value, m.uuid)) || leg.uri == Some(m.path)
  }

  /** The first of them that is the leg's is in this state. */
  predicate MemberIs(leg: Leg, ms: seq<Member>, state: string) {
    exists k :: 0 <= k < |ms| && IsMemberOf(leg, ms[k]) && ms[k].state == state && forall j :: 0 <= j < k ==> !IsMemberOf(leg, ms[j])
  }

  lemma {:induction false} FirstMemberIs(leg: Leg, ms: seq<Member>)
    ensures MemberOf(leg, ms).None? <==> forall k :: 0 <= k < |ms| ==> !IsMemberOf(leg, ms[k])
    ensures forall state :: MemberOf(leg, ms).Some? && MemberOf(leg, ms).value.state == state <==> MemberIs(leg, ms, state)
  {
    if ms != [] && !IsMemberOf(leg, ms[0]) {
      FirstMemberIs(leg, ms[1..]);
      assert forall k :: 1 <= k < |ms| ==> ms[k] == ms[1..][k - 1];
      forall state ensures MemberIs(leg, ms, state) <==> MemberIs(leg, ms[1..], state) {
        if k :| 0 <= k < |ms[1..]| && IsMemberOf(leg, ms[1..][k]) && ms[1..][k].state == state
                && forall j :: 0 <= j < k ==> !IsMemberOf(leg, ms[1..][j])
        {
          assert IsMemberOf(leg, ms[k + 1]);
        }
      }
    } else if ms != [] {
      assert MemberOf(leg, ms) == Some(ms[0]);
    }
  }

  lemma {:induction false} LostIndexIs(v: Volume, i: nat)
    requires HeadsLostLeg(v, i)
    ensures LostIndexOn(v.legs, v.head.value) == i
  {
    var k := LostIndexOn(v.legs, v.head.value);
    assert !(k < i) && !(i < k);
  }

  /** Where the head has lost its leg: taken back, found otherwise, or the array found gone, exactly by what was read. */
  lemma {:induction false} RejoinsExactly(v: Volume, reading: Option<Reading>, i: nat)
    requires HeadsLostLeg(v, i)
    ensures var (w, found) := AfterHeadReading(v, reading);
            && ((found.Some? && found.value.Restored?) <==>
                  reading.Some? && OfThisArray(v, reading.value) && MemberIs(v.legs[i], reading.value.members, "active"))
            && (found == Some(ArrayGone) <==> reading.None?)
            && (found.None? <==> reading.Some? && !OfThisArray(v, reading.value))
            && (w.legs[i].state == Created <==> found.Some? && found.value.Restored?)
  {
    LostIndexIs(v, i);
    if reading.Some? { FirstMemberIs(v.legs[i], reading.value.members); }
  }

  /** Else the answer names the member's state, or that it is missing. */
  lemma {:induction false} RejoinSaysWhy(v: Volume, reading: Option<Reading>, i: nat, state: string)
    requires HeadsLostLeg(v, i) && AfterHeadReading(v, reading).1 == Some(NotActive(state))
    ensures reading.Some? && OfThisArray(v, reading.value)
    ensures (MemberIs(v.legs[i], reading.value.members, state) && state != "active")
            || (state == "missing" && forall k :: 0 <= k < |reading.value.members| ==> !IsMemberOf(v.legs[i], reading.value.members[k]))
  {
    LostIndexIs(v, i);
    FirstMemberIs(v.legs[i], reading.value.members);
  }

  /** No other leg changes; the volume is assembled where the leg is back and none is lost any more. */
  lemma {:induction false} RejoinLeaves(v: Volume, reading: Option<Reading>)
    ensures var (w, found) := AfterHeadReading(v, reading);
            && OnlyLegsChange(v, w)
            && ((forall i: nat :: !HeadsLostLeg(v, i)) ==> w == v && found.None?)
            && (forall i :: 0 <= i < |v.legs| && !HeadsLostLeg(v, i) ==> w.legs[i] == v.legs[i])
            && (forall i: nat :: HeadsLostLeg(v, i) ==> w.legs[i] == v.legs[i].(state := w.legs[i].state, message := w.legs[i].message))
            && (found.Some? && found.value.Restored? ==>
                  && (found.value.assembled <==> forall k :: 0 <= k < |w.legs| ==> w.legs[k].state != Lost)
                  && w.assembly == (if found.value.assembled then Assembled else v.assembly))
            && (!(found.Some? && found.value.Restored?) ==> w.assembly == v.assembly)
  {
    if v.head.Some? && v.arrayId.Some? {
      var k := LostIndexOn(v.legs, v.head.value);
      if k < |v.legs| {
        assert HeadsLostLeg(v, k);
        forall i: nat | HeadsLostLeg(v, i) ensures i == k { LostIndexIs(v, i); }
      }
    }
  }

  // --------------------------------------------------------------- promote

  /** The first leg on the target is created and has a volume. */
  predicate HoldsCopy(v: Volume, target: string) {
    exists i :: 0 <= i < |v.legs| && v.legs[i].node == target && v.legs[i].state == Created && v.legs[i].volumeId.Some?
                && forall j :: 0 <= j < i ==> v.legs[j].node != target
  }

  /** The record is at rest, the target answers and holds a copy. */
  predicate Ready(v: Volume, target: string, healthy: set<string>) {
    && v.window.None? && IsMirror(v) && v.replacing.None? && target in healthy && HoldsCopy(v, target) && v.arrayId.Some?
  }

  /** The array is on another node that answers: it would have to let go. */
  predicate HeadStillRuns(v: Volume, target: string, healthy: set<string>) {
    v.head.Some? && v.head.value != target && v.head.value in healthy
  }

  lemma {:induction false} CopyIsFirst(v: Volume, target: string)
    ensures var i := IndexOn(v.legs, target);
            HoldsCopy(v, target) <==> i < |v.legs| && v.legs[i].state == Created && v.legs[i].volumeId.Some?
  {
    if i :| 0 <= i < |v.legs| && v.legs[i].node == target && v.legs[i].state == Created && v.legs[i].volumeId.Some?
            && forall j :: 0 <= j < i ==> v.legs[j].node != target
    {
      FirstOn(v.legs, target, i);
    }
  }

  /** Which answer a promote gets: the epoch first, then the record and the old head, then the array. */
  lemma {:induction false} PromoteAnswers(v: Volume, target: string, e: nat, healthy: set<string>, assembles: bool)
    ensures var r := AfterPromote(v, target, e, healthy, assembles);
            && (r == Err(StaleEpoch(v.epoch)) <==> !(v.fenced && v.epoch == e))
            && (r == Err(Conflict) <==>
                  v.fenced && v.epoch == e && (!Ready(v, target, healthy) || HeadStillRuns(v, target, healthy)))
            && (r == Err(Upstream) <==>
                  && v.fenced && v.epoch == e && Ready(v, target, healthy) && !HeadStillRuns(v, target, healthy)
                  && v.head != Some(target) && !assembles)
            && (r.Ok? <==>
                  && v.fenced && v.epoch == e && Ready(v, target, healthy) && !HeadStillRuns(v, target, healthy)
                  && (v.head == Some(target) || assembles))
  {
    CopyIsFirst(v, target);
  }

  /** The record after a promote: the head it names, the fence spent, and legs that do not answer lost where the head moved. */
  lemma {:induction false} PromotedRecord(v: Volume, target: string, e: nat, healthy: set<string>, assembles: bool)
    requires AfterPromote(v, target, e, healthy, assembles).Ok?
    ensures var w := AfterPromote(v, target, e, healthy, assembles).value;
            && w == v.(legs := w.legs, assembly := w.assembly, head := Some(target), fenced := false) && |w.legs| == |v.legs|
            && (v.head == Some(target) ==> w.legs == v.legs && w.assembly == v.assembly)
            && (v.head != Some(target) ==>
                  && (forall i :: 0 <= i < |v.legs| ==>
                        w.legs[i] == if v.legs[i].state == Created && v.legs[i].node !in healthy
                                     then v.legs[i].(state := Lost, message := Some("unreachable")) else v.legs[i])
                  && (w.assembly == Assembled <==> forall i :: 0 <= i < |w.legs| ==> w.legs[i].state == Created)
                  && IsMirror(w))
  {
  }

  /**
   * A promote moves the head exactly when the volume is fenced at the epoch it names, at rest and in nobody's hands, the
   * target holds a copy and answers, the array comes up there, and the old head is none or does not answer.
   */
  lemma {:induction false} PromoteMovesTheHeadExactly(m: Machine, s: Step)
    requires s.PromoteTo?
    ensures (Promotes(m, s) && Do(m, s).v.head != m.v.head) <==>
              && !m.claimed && m.v.fenced && m.v.epoch == s.fencedEpoch && Ready(m.v, s.target, s.healthy) && s.assembles
              && m.v.head != Some(s.target) && (m.v.head.None? || m.v.head.value !in s.healthy)
    ensures Do(m, s).v.head == m.v.head || Do(m, s).v.head == Some(s.target)
  {
    PromoteAnswers(m.v, s.target, s.fencedEpoch, s.healthy, s.assembles);
    if Promotes(m, s) { PromotedRecord(m.v, s.target, s.fencedEpoch, s.healthy, s.assembles); }
  }

  // ---------------------------------------------------- fences and windows

  /** A fence changes the epoch and the mark, of a mirror at the epoch it expects. */
  lemma {:induction false} FencesExactly(v: Volume, expected: nat)
    ensures MayFence(v, expected) <==> v.epoch == expected && IsMirror(v)
    ensures var w := Fenced(v); w == v.(epoch := w.epoch, fenced := w.fenced) && w.epoch == v.epoch + 1 && w.fenced
  {
  }

  /** A window opens for a node that holds a created leg and is not the head, unless one is open for another. */
  lemma {:induction false} OpensExactly(v: Volume, target: string)
    ensures MayOpen(v, target) <==>
              && IsMirror(v) && v.head != Some(target)
              && (v.window.None? || v.window.value.target == target)
              && exists i :: 0 <= i < |v.legs| && v.legs[i].node == target && v.legs[i].state == Created
  {
  }

  /** It is at the volume's epoch, lasts `ttl` from now, and remembers when it was first opened. */
  lemma {:induction false} OpenedRecord(v: Volume, target: string, ttl: nat, now: int)
    ensures var w := OpenedFor(v, target, ttl, now);
            && w == v.(window := w.window) && w.window.Some? && w.window.value.target == target
            && w.window.value.epoch == v.epoch && w.window.value.expiresAt == now + ttl
            && (v.window.None? ==> w.window.value.openedAt == now)
            && (v.window.Some? ==> w.window.value.openedAt == v.window.value.openedAt)
  {
  }

  /** A close takes the window exactly at the window's own epoch, a sweep exactly once its time has come. */
  lemma {:induction false} ClosesExactly(m: Machine, presented: nat, now: int)
    ensures (Do(m, Close(presented)).v.window.None? <==>
               m.v.window.None? || m.v.window.value.epoch == presented)
    ensures (Do(m, Expire(now)).v.window.None? <==> m.v.window.None? || m.v.window.value.expiresAt <= now)
    ensures Do(m, Close(presented)) == m.(v := m.v.(window := Do(m, Close(presented)).v.window))
    ensures Do(m, Expire(now)) == m.(v := m.v.(window := Do(m, Expire(now)).v.window))
  {
  }

  // --------------------------------------------------------------- arrays

  /** An array is put back on its head exactly when the volume is at rest, the head answers and a leg can be used. */
  lemma {:induction false} ReassemblesExactly(v: Volume, healthy: set<string>)
    ensures MayReassemble(v, healthy) <==>
              && IsMirror(v) && !v.fenced && v.replacing.None? && v.window.None? && v.arrayId.Some?
              && v.head.Some? && v.head.value in healthy
  {
  }

  /** The legs that answer are in it, the head's own where it was lost too; other lost legs stay lost. */
  lemma {:induction false} ReassembledRecord(v: Volume, healthy: set<string>)
    requires v.head.Some?
    ensures var w := Reassembled(v, healthy);
            && w == v.(legs := w.legs, assembly := w.assembly, nextAssemble := None) && |w.legs| == |v.legs|
            && (forall i :: 0 <= i < |v.legs| ==>
                  var used := v.legs[i].node in healthy
                              && (v.legs[i].state == Created || (v.legs[i].state == Lost && v.legs[i].node == v.head.value));
                  w.legs[i] == if used then v.legs[i].(state := Created, message := None) else v.legs[i])
            && IsMirror(w) && (w.assembly == Assembled <==> forall i :: 0 <= i < |w.legs| ==> w.legs[i].state == Created)
  {
  }

  /** A first assembly needs two legs at least, all created and with a volume; the first one's node is the head. */
  lemma {:induction false} AssembledRecord(v: Volume, arrayId: string)
    ensures MayAssemble(v) <==>
              |v.legs| >= 2 && forall i :: 0 <= i < |v.legs| ==> v.legs[i].state == Created && v.legs[i].volumeId.Some?
    ensures MayAssemble(v) ==>
              var w := AssembledOn(v, arrayId);
              && w == v.(head := w.head, arrayId := w.arrayId, assembly := w.assembly, nextAssemble := w.nextAssemble)
              && w.head == Some(v.legs[0].node) && w.arrayId == Some(arrayId) && w.assembly == Assembled && w.nextAssemble.None?
  {
  }
}
