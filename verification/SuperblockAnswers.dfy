/**
  What a copy is read as, from any reading of its head's array, what the superblocks in the legs say instead, and which
  heads count as lost (src/head.rs and src/orchestrate.rs, by the fields).
*/
module SuperblockAnswers {
  import opened Wrappers
  import opened Volumes
  import opened Superblocks

  // ------------------------------------------------------------------- uuids

  /** The same letter, or the two cases of one. */
  predicate SameLetter(c: char, d: char) {
    c == d || ('A' <= c <= 'Z' && d as int == c as int + 32) || ('A' <= d <= 'Z' && c as int == d as int + 32)
  }

  lemma {:induction false} SameUuidIs(a: string, b: string)
    ensures SameUuid(a, b) <==> |a| == |b| && forall i :: 0 <= i < |a| ==> SameLetter(a[i], b[i])
  {
    forall i | 0 <= i < |a| && i < |b| ensures LowerChar(a[i]) == LowerChar(b[i]) <==> SameLetter(a[i], b[i]) {
    }
  }

  // ---------------------------------------------------------------- readings

  /** The member is the leg's: its member uuid, or its drive URI. */
  predicate IsOf(leg: Leg, m: Member) {
    (leg.member.Some? && SameUuid(leg.member.value, m.uuid)) || (leg.uri.Some? && leg.uri.value == m.path)
  }

  /** The leg's member in the array: the first that is its. */
  predicate FirstOf(leg: Leg, ms: seq<Member>, i: nat) {
    i < |ms| && IsOf(leg, ms[i]) && forall j :: 0 <= j < i ==> !IsOf(leg, ms[j])
  }

  lemma {:induction false} MemberOfIs(leg: Leg, ms: seq<Member>)
    ensures MemberOf(leg, ms).None? ==> forall m :: m in ms ==> !IsOf(leg, m)
    ensures forall i: nat :: FirstOf(leg, ms, i) ==> MemberOf(leg, ms) == Some(ms[i])
    ensures MemberOf(leg, ms).Some? ==> exists i: nat :: FirstOf(leg, ms, i)
  {
    if ms != [] && !IsOf(leg, ms[0]) {
      MemberOfIs(leg, ms[1..]);
      forall i: nat | FirstOf(leg, ms, i) ensures MemberOf(leg, ms) == Some(ms[i]) {
        assert FirstOf(leg, ms[1..], i - 1);
      }
      if MemberOf(leg, ms).Some? {
        var i: nat :| FirstOf(leg, ms[1..], i);
        assert FirstOf(leg, ms, i + 1);
      }
      assert forall m :: m in ms ==> m == ms[0] || m in ms[1..];
    } else if ms != [] {
      assert FirstOf(leg, ms, 0);
    }
  }

  /** A leg that is there, of a mirror whose own head and array were read, is that array's i-th member. */
  predicate ReadAs(v: Volume, leg: Leg, reading: Option<Reading>, i: nat) {
    && leg.state == Created && (v.assembly == Assembled || v.assembly == Degraded)
    && reading.Some? && v.head == Some(reading.value.head) && v.arrayId == Some(reading.value.arrayId)
    && FirstOf(leg, reading.value.members, i)
  }

  ghost predicate ReadIn(v: Volume, leg: Leg, reading: Option<Reading>, state: string) {
    exists i: nat :: ReadAs(v, leg, reading, i) && reading.value.members[i].state == state
  }

  /** A copy is in sync exactly as the one leg of its volume, or as a member its own array's reading has active. */
  lemma {:induction false} InSyncExactly(v: Volume, leg: Leg, reading: Option<Reading>)
    ensures LegSync(v, leg, reading) == InSync
            <==> (leg.state == Created && v.assembly == SingleLeg) || ReadIn(v, leg, reading, "active")
    ensures LegSync(v, leg, reading).Resyncing? <==> ReadIn(v, leg, reading, "rebuilding")
  {
    if reading.Some? { MemberOfIs(leg, reading.value.members); }
    assert "active"[0] != "rebuilding"[0];
  }

  /** How far one that is rebuilding got: what its member has rebuilt, of what the array holds. */
  lemma {:induction false} ResyncingIs(v: Volume, leg: Leg, reading: Option<Reading>, i: nat)
    requires ReadAs(v, leg, reading, i) && reading.value.members[i].state == "rebuilding"
    ensures var s, m, all := LegSync(v, leg, reading), reading.value.members[i], reading.value.dataBytes;
            && s.Resyncing? && s.of == all && s.done <= all
            && (m.rebuilt.None? ==> s.done == 0)
            && (m.rebuilt.Some? ==> s.done == all || s.done == m.rebuilt.value)
            && (m.rebuilt.Some? && s.done == all ==> all <= m.rebuilt.value)
  {
    MemberOfIs(leg, reading.value.members);
    assert "active"[0] != "rebuilding"[0];
  }

  /** The copies of a volume are its legs and then the new leg of a replacement; the head's is the master, or the first. */
  lemma {:induction false} CopiesAre(v: Volume, reading: Option<Reading>)
    ensures var rs := Replicas(v, reading);
            && |rs| == |v.legs| + (if v.replacing == None then 0 else 1)
            && (forall i :: 0 <= i < |v.legs| ==> rs[i].node == v.legs[i].node && rs[i].sync == LegSync(v, v.legs[i], reading))
            && (v.replacing.Some? ==>
                  var r, leg := rs[|v.legs|], v.replacing.value.leg; r.node == leg.node && r.sync == LegSync(v, leg, reading))
            && (forall r :: r in rs ==>
                  (r.master <==> if v.assembly == Assembled || v.assembly == Degraded then v.head == Some(r.node)
                                 else v.legs != [] && v.legs[0].node == r.node))
  {
  }

  // --------------------------------------------------------- superblocks

  /** The superblock is of the volume's array. */
  predicate OfArray(v: Volume, sb: Superblock) {
    v.arrayId.Some? && SameUuid(sb.arrayId, v.arrayId.value)
  }

  lemma {:induction false} OursIs(sbs: seq<Superblock>, arrayId: string)
    ensures forall x :: x in Ours(sbs, arrayId) <==> x in sbs && SameUuid(x.arrayId, arrayId)
  {
    if sbs != [] {
      OursIs(sbs[..|sbs| - 1], arrayId);
      assert forall x :: x in sbs <==> x in sbs[..|sbs| - 1] || x == sbs[|sbs| - 1];
    }
  }

  /** The last reading counts when it was read live from this head and is of this array. */
  lemma {:induction false} LiveIs(v: Volume, last: Option<Reading>)
    ensures LiveOf(v, last).Some? <==> exists r :: last == Some(r) && r.origin == Live
                                                   && v.head == Some(r.head) && v.arrayId == Some(r.arrayId)
    ensures LiveOf(v, last).Some? ==> LiveOf(v, last) == last
  {
    if last.Some? { assert last == Some(last.value); }
  }

  lemma {:induction false} MaxDataIs(newest: seq<Superblock>)
    ensures forall x :: x in newest ==> x.dataSize <= MaxData(newest)
    ensures newest != [] ==> exists x :: x in newest && x.dataSize == MaxData(newest)
  {
    if newest != [] {
      var init, last := newest[..|newest| - 1], newest[|newest| - 1];
      MaxDataIs(init);
      assert forall x :: x in newest <==> x in init || x == last;
      assert last in newest;
    }
  }

  /** There is a reading from superblocks exactly when one is of the array; it has their newest count and its data. */
  lemma {:induction false} ReadFromLegs(v: Volume, last: Option<Reading>, sbs: seq<Superblock>)
    ensures FromSuperblocks(v, last, sbs).Some? <==> v.head.Some? && exists x :: x in sbs && OfArray(v, x)
    ensures FromSuperblocks(v, last, sbs).Some? ==>
              var r, live := FromSuperblocks(v, last, sbs).value, LiveOf(v, last);
              && v.head == Some(r.head) && v.arrayId == Some(r.arrayId) && r.origin == FromLegs && r.events.Some?
              && (forall x :: x in sbs && OfArray(v, x) ==> x.events <= r.events.value)
              && (exists x :: x in sbs && OfArray(v, x) && x.events == r.events.value)
              && (if live.Some? && live.value.dataBytes > 0 then r.dataBytes == live.value.dataBytes
                  else && (forall x :: x in sbs && OfArray(v, x) && x.events == r.events.value ==> x.dataSize <= r.dataBytes)
                       && exists x :: x in sbs && OfArray(v, x) && x.events == r.events.value && x.dataSize == r.dataBytes)
  {
    if v.head.Some? && v.arrayId.Some? {
      var ours := Ours(sbs, v.arrayId.value);
      OursIs(sbs, v.arrayId.value);
      if ours != [] {
        assert ours[0] in sbs;
        MaxEventsIs(ours);
        AtEventsIs(ours, MaxEvents(ours));
        MaxDataIs(AtEvents(ours, MaxEvents(ours)));
      }
    }
  }

  /** What a slot says of its member, the first of that member counting. */
  predicate SaysAt(slots: seq<Slot>, member: string, i: nat) {
    i < |slots| && slots[i].member == member && forall j :: 0 <= j < i ==> slots[j].member != member
  }

  lemma {:induction false} SlotIs(slots: seq<Slot>, member: string)
    ensures FindSlot(slots, member).None? <==> forall s :: s in slots ==> s.member != member
    ensures forall i: nat :: SaysAt(slots, member, i) ==> FindSlot(slots, member) == Some(slots[i])
  {
    if slots != [] && slots[0].member != member {
      SlotIs(slots[1..], member);
      forall i: nat | SaysAt(slots, member, i) ensures FindSlot(slots, member) == Some(slots[i]) {
        assert SaysAt(slots[1..], member, i - 1);
      }
      assert forall s :: s in slots ==> s == slots[0] || s in slots[1..];
    } else if slots != [] {
      assert slots[0] in slots;
    }
  }

  /** The first of the worst records. */
  ghost predicate FirstWorst(recs: seq<Slot>, i: nat) {
    && i < |recs| && (forall r :: r in recs ==> Rank(recs[i].state) <= Rank(r.state))
    && forall j :: 0 <= j < i ==> Rank(recs[i].state) < Rank(recs[j].state)
  }

  /** What was agreed of these records: the state of the first of the worst, and the least progress at that state. */
  ghost predicate AgreedOn(recs: seq<Slot>, agreed: (string, nat)) {
    && (exists i: nat :: FirstWorst(recs, i) && recs[i].state == agreed.0)
    && (exists r :: r in recs && r.state == agreed.0 && r.rebuiltTo == agreed.1)
    && forall r :: r in recs && r.state == agreed.0 ==> agreed.1 <= r.rebuiltTo
  }

  lemma {:induction false} AgreedMore(recs: seq<Slot>, agreed: (string, nat), rec: Slot)
    requires AgreedOn(recs, agreed)
    ensures AgreedOn(recs + [rec], Worse(agreed, rec))
  {
    var more, n := recs + [rec], Worse(agreed, rec);
    var i: nat :| FirstWorst(recs, i) && recs[i].state == agreed.0;
    assert forall r :: r in more <==> r in recs || r == rec;
    if Rank(rec.state) < Rank(agreed.0) {
      forall j | 0 <= j < |recs| ensures Rank(rec.state) < Rank(more[j].state) { assert more[j] == recs[j] && recs[j] in recs; }
      assert FirstWorst(more, |recs|);
      assert forall r :: r in recs ==> r.state != rec.state;
      assert rec in more;
    } else {
      assert more[i] == recs[i];
      assert FirstWorst(more, i);
      assert rec in more;
    }
  }

  /** The slots the superblocks have of a member all of them list. */
  function Said(member: string, newest: seq<Superblock>): (recs: seq<Slot>)
    requires forall x :: x in newest ==> SlotOf(x, member).Some?
    ensures |recs| == |newest|
  {
    seq(|newest|, i requires 0 <= i < |newest| => assert newest[i] in newest; SlotOf(newest[i], member).value)
  }

  ghost predicate AllList(member: string, newest: seq<Superblock>) {
    forall x :: x in newest ==> SlotOf(x, member).Some?
  }

  lemma {:induction false} AllListInit(member: string, newest: seq<Superblock>)
    requires newest != [] && AllList(member, newest)
    ensures var init, last := newest[..|newest| - 1], newest[|newest| - 1];
            && AllList(member, init) && SlotOf(last, member).Some?
            && Said(member, newest) == Said(member, init) + [SlotOf(last, member).value]
            && forall i :: 0 <= i < |newest| ==> SlotOf(newest[i], member).Some?
  {
    forall i | 0 <= i < |newest| ensures SlotOf(newest[i], member).Some? { assert newest[i] in newest; }
    forall x | x in newest[..|newest| - 1] ensures x in newest {}
  }

  lemma {:induction false} OneAgrees(rec: Slot)
    ensures AgreedOn([rec], (rec.state, rec.rebuiltTo))
  {
    assert FirstWorst([rec], 0);
    assert [rec][0] in [rec];
  }

  /** What superblocks that all list a member agree on. */
  lemma {:induction false} ListedAgree(member: string, newest: seq<Superblock>)
    requires newest != [] && AllList(member, newest)
    ensures AgreedOn(Said(member, newest), AgreedState(member, newest))
  {
    var init, last := newest[..|newest| - 1], newest[|newest| - 1];
    AllListInit(member, newest);
    var rec := SlotOf(last, member).value;
    if |newest| == 1 {
      assert Said(member, newest) == [rec];
      OneAgrees(rec);
    } else {
      ListedAgree(member, init);
      AgreedOfMore(member, newest);
      AgreedMore(Said(member, init), AgreedState(member, init), rec);
    }
  }

  /** A member is removed when one of the superblocks does not list it; else it is what they agree on. */
  lemma {:induction false} AgreedIs(member: string, newest: seq<Superblock>)
    ensures newest == [] || !AllList(member, newest) ==> AgreedState(member, newest) == ("removed", 0)
    ensures newest != [] && AllList(member, newest) ==> AgreedOn(Said(member, newest), AgreedState(member, newest))
  {
    if !AllList(member, newest) {
      var x :| x in newest && SlotOf(x, member).None?;
      var i :| 0 <= i < |newest| && newest[i] == x;
      RemovedByOne(member, newest, i);
    } else if newest != [] {
      ListedAgree(member, newest);
    }
  }

  /** No superblock of the array is newer, and it is not older than the last live reading. */
  ghost predicate Newest(sb: Superblock, ours: seq<Superblock>, live: Option<Reading>) {
    && (forall x :: x in ours ==> x.events <= sb.events)
    && (live.Some? && live.value.events.Some? ==> live.value.events.value <= sb.events)
  }

  /** It was written after the last live reading. */
  predicate After(sb: Superblock, live: Option<Reading>) {
    live.Some? && live.value.events.Some? && live.value.events.value < sb.events
  }

  /** The last live reading's record of the member, the first of that uuid. */
  predicate HadAt(live: Reading, uuid: string, i: nat) {
    i < |live.members| && SameUuid(live.members[i].uuid, uuid) && forall j :: 0 <= j < i ==> !SameUuid(live.members[j].uuid, uuid)
  }

  lemma {:induction false} HadIs(ms: seq<Member>, uuid: string)
    ensures FindMember(ms, uuid).None? <==> forall m :: m in ms ==> !SameUuid(m.uuid, uuid)
    ensures forall i: nat :: i < |ms| && SameUuid(ms[i].uuid, uuid) && (forall j :: 0 <= j < i ==> !SameUuid(ms[j].uuid, uuid))
                             ==> FindMember(ms, uuid) == Some(ms[i])
  {
    if ms != [] && !SameUuid(ms[0].uuid, uuid) {
      HadIs(ms[1..], uuid);
      assert forall m :: m in ms ==> m == ms[0] || m in ms[1..];
      forall i: nat | i < |ms| && SameUuid(ms[i].uuid, uuid) && (forall j :: 0 <= j < i ==> !SameUuid(ms[j].uuid, uuid))
        ensures FindMember(ms, uuid) == Some(ms[i])
      {
        assert ms[1..][i - 1] == ms[i];
        assert forall j :: 0 <= j < i - 1 ==> ms[1..][j] == ms[j + 1];
      }
    } else if ms != [] {
      assert ms[0] in ms;
    }
  }

  /** What its own record says: stale unless it is of the newest count, else what those at that count agree on. */
  lemma {:induction false} OwnStateIs(sb: Superblock, ours: seq<Superblock>, live: Option<Reading>, newest: seq<Superblock>)
    requires sb in ours
    requires newest == AtEvents(ours, sb.events)
    ensures !Newest(sb, ours, live) ==> OwnState(sb, ours, live) == ("stale", 0)
    ensures Newest(sb, ours, live) ==> OwnState(sb, ours, live) == AgreedState(sb.member, newest)
  {
    MaxEventsIs(ours);
  }

  /** What the last live reading had of a member limits what its superblock is read as, unless that was written after it. */
  lemma {:induction false} StateIs(sb: Superblock, ours: seq<Superblock>, live: Option<Reading>, i: nat)
    ensures var own, n := OwnState(sb, ours, live), StateOf(sb, ours, live);
            && (live.None? || After(sb, live) ==> n == own)
            && (live.Some? && !After(sb, live) ==>
                  && ((forall m :: m in live.value.members ==> !SameUuid(m.uuid, sb.member)) ==> n == ("removed", own.1))
                  && (HadAt(live.value, sb.member, i) ==>
                        var had := live.value.members[i];
                        if (own.0 == "active" && had.state != "active")
                           || (own.0 == "rebuilding" && had.state != "active" && had.state != "rebuilding")
                        then n.0 == had.state && had.rebuilt == (if had.rebuilt.Some? then Some(n.1) else None)
                             && (had.rebuilt.None? ==> n.1 == 0)
                        else n == own))
  {
    if live.Some? { HadIs(live.value.members, sb.member); }
  }

  // ----------------------------------------------------------------- re-head

  /** A mirror nothing else has in hand, whose registered head failed its polls for as long as `after`. */
  predicate HeadGone(v: Volume, x: Pass, head: string) {
    && (v.assembly == Assembled || v.assembly == Degraded) && v.head == Some(head)
    && !v.fenced && v.replacing == None && v.window == None && v.name !in x.busy
    && (v.nextAssemble.Some? ==> v.nextAssemble.value <= x.now)
    && head in x.nodes && !x.nodes[head].healthy && x.after <= x.nodes[head].failures * x.interval
  }

  /** A copy that may take over: its node answers and is not the head, and its leg is there and reads in sync. */
  ghost predicate MayTakeOver(v: Volume, x: Pass, head: string, i: nat) {
    && i < |v.legs| && v.legs[i].node != head && v.legs[i].node in x.nodes && x.nodes[v.legs[i].node].healthy
    && ReadIn(v, v.legs[i], ReadingFor(x.readings, v.name), "active")
  }

  lemma {:induction false} SafeLegIs(v: Volume, x: Pass, head: string, i: nat)
    requires HeadGone(v, x, head) && i < |v.legs|
    ensures SafeLeg(v, v.legs[i], x.nodes, ReadingFor(x.readings, v.name)) <==> MayTakeOver(v, x, head, i)
  {
    InSyncExactly(v, v.legs[i], ReadingFor(x.readings, v.name));
  }

  lemma {:induction false} LongLostIs(v: Volume, x: Pass)
    ensures LongLost(v, x) <==> v.head.Some? && HeadGone(v, x, v.head.value)
  {
    if v.head.Some? && v.head.value in x.nodes {
      var n := x.nodes[v.head.value].failures;
      assert x.interval * n == n * x.interval;
    }
  }

  /** A re-head is started exactly where the head is gone and a copy may take over: to the first, at the volume's epoch. */
  lemma {:induction false} ReheadsExactly(
    vols: seq<Volume>, x: Pass, start: seq<Rehead>, held: seq<string>, a: nat, s: Rehead)
    requires ReheadsAre(vols, x, start, held)
    requires forall i, j :: 0 <= i < j < |vols| ==> vols[i].name != vols[j].name
    requires a < |vols| && vols[a].name == s.volume
    ensures s in start <==>
              var v := vols[a];
              && v.head.Some? && HeadGone(v, x, v.head.value) && s.epoch == v.epoch
              && exists i: nat :: TakesOver(v, x, v.head.value, s.target, i)
    ensures s.volume in held <==>
              var v := vols[a];
              v.head.Some? && HeadGone(v, x, v.head.value) && forall i: nat :: !MayTakeOver(v, x, v.head.value, i)
  {
    var v := vols[a];
    LongLostIs(v, x);
    assert v in vols && Seen(v, x, start, held);
    assert forall w :: w in vols && w.name == s.volume ==> w == v;
    if LongLost(v, x) {
      forall i: nat | i < |v.legs|
        ensures SafeLeg(v, v.legs[i], x.nodes, ReadingFor(x.readings, v.name)) <==> MayTakeOver(v, x, v.head.value, i)
      {
        SafeLegIs(v, x, v.head.value, i);
      }
      TargetIs(v, x, s.target);
      NoneIs(v, x);
      if StartsFor(v, x, start) {
        var t :| t in start && MayRehead(v, x, t);
        TargetIs(v, x, t.target);
        if exists i: nat :: TakesOver(v, x, v.head.value, s.target, i) { OneTarget(v, x, t.target, s.target); }
      }
    }
  }

  ghost predicate TakesOver(v: Volume, x: Pass, head: string, target: string, i: nat) {
    MayTakeOver(v, x, head, i) && v.legs[i].node == target && forall j: nat :: j < i ==> !MayTakeOver(v, x, head, j)
  }

  lemma {:induction false} TargetIs(v: Volume, x: Pass, target: string)
    requires v.head.Some? && HeadGone(v, x, v.head.value)
    ensures SafeTarget(v, target, x.nodes, ReadingFor(x.readings, v.name))
            <==> exists i: nat :: TakesOver(v, x, v.head.value, target, i)
  {
    var reading := ReadingFor(x.readings, v.name);
    forall i: nat | i < |v.legs| ensures SafeLeg(v, v.legs[i], x.nodes, reading) <==> MayTakeOver(v, x, v.head.value, i) {
      SafeLegIs(v, x, v.head.value, i);
    }
    if SafeTarget(v, target, x.nodes, reading) {
      var i :| 0 <= i < |v.legs| && v.legs[i].node == target && SafeLeg(v, v.legs[i], x.nodes, reading)
               && forall j :: 0 <= j < i ==> !SafeLeg(v, v.legs[j], x.nodes, reading);
      assert TakesOver(v, x, v.head.value, target, i);
    }
    if i: nat :| TakesOver(v, x, v.head.value, target, i) {
      assert SafeLeg(v, v.legs[i], x.nodes, reading);
      assert forall j :: 0 <= j < i ==> !SafeLeg(v, v.legs[j], x.nodes, reading);
    }
  }

  lemma {:induction false} NoneIs(v: Volume, x: Pass)
    requires v.head.Some? && HeadGone(v, x, v.head.value)
    ensures NoSafeTarget(v, x.nodes, ReadingFor(x.readings, v.name)) <==> forall i: nat :: !MayTakeOver(v, x, v.head.value, i)
  {
    var reading := ReadingFor(x.readings, v.name);
    forall i: nat | i < |v.legs| ensures SafeLeg(v, v.legs[i], x.nodes, reading) <==> MayTakeOver(v, x, v.head.value, i) {
      SafeLegIs(v, x, v.head.value, i);
      assert v.legs[i] in v.legs;
    }
    if i: nat :| MayTakeOver(v, x, v.head.value, i) {
      assert v.legs[i] in v.legs && SafeLeg(v, v.legs[i], x.nodes, reading);
    }
  }

  lemma {:induction false} OneTarget(v: Volume, x: Pass, a: string, b: string)
    requires v.head.Some? && HeadGone(v, x, v.head.value)
    requires exists i: nat :: TakesOver(v, x, v.head.value, a, i)
    requires exists i: nat :: TakesOver(v, x, v.head.value, b, i)
    ensures a == b
  {
    var i: nat :| TakesOver(v, x, v.head.value, a, i);
    var j: nat :| TakesOver(v, x, v.head.value, b, j);
    assert !(i < j) && !(j < i);
  }
}
