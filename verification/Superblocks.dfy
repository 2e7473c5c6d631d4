/**
  When a copy may be called in sync (src/head.rs, `agreed_state`, `from_superblocks`, `member_of`, `replicas`)
  and which copy an automatic re-head promotes (src/orchestrate.rs, `rehead_plan`).
*/
module Superblocks {
  import opened Wrappers
  import opened Volumes

  datatype Origin = Live | FromLegs

  datatype Member = Member(uuid: string, path: string, state: string, rebuilt: Option<nat>)

  /** The head's array as last read, live or from the superblocks in the legs. */
  datatype Reading = Reading(
    head: string, arrayId: string, dataBytes: nat, members: seq<Member>, events: Option<nat>, origin: Origin)

  datatype Slot = Slot(member: string, state: string, rebuiltTo: nat)

  datatype Superblock = Superblock(arrayId: string, member: string, events: nat, dataSize: nat, slots: seq<Slot>)

  function LowerChar(c: char): char {
    if 'A' <= c <= 'Z' then (c as int + 32) as char else c
  }

  /** Equal but for the case of the letters. */
  predicate SameUuid(a: string, b: string) {
    |a| == |b| && forall i :: 0 <= i < |a| ==> LowerChar(a[i]) == LowerChar(b[i])
  }

  function Rank(state: string): nat {
    if state == "active" then 2 else if state == "rebuilding" then 1 else 0
  }

  // ---------------------------------------------------------- agreed state

  function SlotOf(sb: Superblock, member: string): Option<Slot> {
    FindSlot(sb.slots, member)
  }

  function FindSlot(slots: seq<Slot>, member: string): Option<Slot> {
    if slots == [] then None
    else if slots[0].member == member then Some(slots[0])
    else FindSlot(slots[1..], member)
  }

  function Min(a: nat, b: nat): nat {
    if a <= b then a else b
  }

  /** The worse of what was agreed and one more record; of equal states the lesser progress. */
  function Worse(agreed: (string, nat), rec: Slot): (string, nat) {
    if Rank(rec.state) < Rank(agreed.0) then (rec.state, rec.rebuiltTo)
    else if rec.state == agreed.0 then (agreed.0, Min(agreed.1, rec.rebuiltTo))
    else agreed
  }

  /** What a set of superblocks says of a member: "removed" when one of them does not list it. */
  function AgreedState(member: string, newest: seq<Superblock>): (string, nat) {
    if newest == [] then ("removed", 0)
    else
      var last := SlotOf(newest[|newest| - 1], member);
      var before := AgreedState(member, newest[..|newest| - 1]);
      if last.None? then ("removed", 0)
      else if |newest| == 1 then (last.value.state, last.value.rebuiltTo)
      else if exists i :: 0 <= i < |newest| && SlotOf(newest[i], member).None? then ("removed", 0)
      else Worse(before, last.value)
  }

  method ComputeAgreed(member: string, newest: seq<Superblock>) returns (agreed: (string, nat))
    ensures agreed == AgreedState(member, newest)
  {
    var out: Option<(string, nat)> := None;
    var i := 0;
    while i < |newest|
      invariant 0 <= i <= |newest|
      invariant forall j :: 0 <= j < i ==> SlotOf(newest[j], member).Some?
      invariant out == if i == 0 then None else Some(AgreedState(member, newest[..i]))
    {
      var rec := SlotOf(newest[i], member);
      assert newest[..i + 1][..i] == newest[..i];
      if rec.None? {
        RemovedByOne(member, newest, i);
        return ("removed", 0);
      }
      out := Some(if out.None? then (rec.value.state, rec.value.rebuiltTo) else Worse(out.value, rec.value));
      i := i + 1;
    }
    assert newest[..|newest|] == newest;
    agreed := if out.Some? then out.value else ("removed", 0);
  }

  lemma {:induction false} RemovedByOne(member: string, newest: seq<Superblock>, i: nat)
    requires i < |newest| && SlotOf(newest[i], member).None?
    ensures AgreedState(member, newest) == ("removed", 0)
  {
  }

  /** Every newest superblock lists the member, at this rank or above. */
  ghost predicate AllListAt(member: string, newest: seq<Superblock>, rank: nat) {
    forall i :: 0 <= i < |newest| ==> SlotOf(newest[i], member).Some? && Rank(SlotOf(newest[i], member).value.state) >= rank
  }

  lemma {:induction false} WorseRank(agreed: (string, nat), rec: Slot, rank: nat)
    ensures Rank(Worse(agreed, rec).0) >= rank <==> Rank(agreed.0) >= rank && Rank(rec.state) >= rank
  {
  }

  lemma {:induction false} AgreedOfMore(member: string, newest: seq<Superblock>)
    requires |newest| > 1 && forall i :: 0 <= i < |newest| ==> SlotOf(newest[i], member).Some?
    ensures AgreedState(member, newest)
            == Worse(AgreedState(member, newest[..|newest| - 1]), SlotOf(newest[|newest| - 1], member).value)
  {
  }

  lemma {:induction false} AllListMore(member: string, newest: seq<Superblock>, rank: nat)
    requires newest != []
    ensures var init, last := newest[..|newest| - 1], SlotOf(newest[|newest| - 1], member);
            AllListAt(member, newest, rank) <==> AllListAt(member, init, rank) && last.Some? && Rank(last.value.state) >= rank
  {
    var init := newest[..|newest| - 1];
    assert newest == init + [newest[|newest| - 1]];
  }

  /** Worst wins: a rank is reached exactly when all the superblocks give it. */
  lemma {:induction false} WorstWins(member: string, newest: seq<Superblock>, rank: nat)
    requires newest != [] && 1 <= rank
    ensures Rank(AgreedState(member, newest).0) >= rank <==> AllListAt(member, newest, rank)
  {
    if i :| 0 <= i < |newest| && SlotOf(newest[i], member).None? {
      RemovedByOne(member, newest, i);
      RemovedIsLast();
    } else if |newest| > 1 {
      WorstWins(member, newest[..|newest| - 1], rank);
      AllListMore(member, newest, rank);
      AgreedOfMore(member, newest);
      WorseRank(AgreedState(member, newest[..|newest| - 1]), SlotOf(newest[|newest| - 1], member).value, rank);
    }
  }

  lemma {:induction false} RemovedIsLast()
    ensures Rank("removed") == 0
  {
    assert "removed"[0] == 'r' && "removed"[2] == 'm';
    assert "active"[0] == 'a' && "rebuilding"[2] == 'b';
  }

  // ------------------------------------------------------- from superblocks

  function Ours(sbs: seq<Superblock>, arrayId: string): seq<Superblock> {
    if sbs == [] then []
    else
      var init := Ours(sbs[..|sbs| - 1], arrayId);
      if SameUuid(sbs[|sbs| - 1].arrayId, arrayId) then init + [sbs[|sbs| - 1]] else init
  }

  function MaxEvents(ours: seq<Superblock>): nat {
    if ours == [] then 0
    else
      var m := MaxEvents(ours[..|ours| - 1]);
      if ours[|ours| - 1].events > m then ours[|ours| - 1].events else m
  }

  function AtEvents(ours: seq<Superblock>, events: nat): seq<Superblock> {
    if ours == [] then []
    else
      var init := AtEvents(ours[..|ours| - 1], events);
      if ours[|ours| - 1].events == events then init + [ours[|ours| - 1]] else init
  }

  /** The last live reading, if it is of this head and array. */
  function LiveOf(v: Volume, last: Option<Reading>): Option<Reading> {
    if last.Some? && last.value.origin == Live && Some(last.value.head) == v.head && Some(last.value.arrayId) == v.arrayId
    then last else None
  }

  function FindMember(ms: seq<Member>, uuid: string): Option<Member> {
    if ms == [] then None else if SameUuid(ms[0].uuid, uuid) then Some(ms[0]) else FindMember(ms[1..], uuid)
  }

  function Floor(live: Option<Reading>): Option<nat> {
    if live.Some? then live.value.events else None
  }

  /** With no newer evidence than the last live reading, that must agree. */
  function Checked(state: string, rebuilt: nat, live: Reading, uuid: string): (string, nat) {
    match FindMember(live.members, uuid)
    case None => ("removed", rebuilt)
    case Some(m) =>
      if m.state != "active" && (state == "active" || (state == "rebuilding" && m.state != "rebuilding"))
      then (m.state, if m.rebuilt.Some? then m.rebuilt.value else 0)
      else (state, rebuilt)
  }

  /** What one leg's superblock is read as, beside the others of the array. */
  function StateOf(sb: Superblock, ours: seq<Superblock>, live: Option<Reading>): (string, nat) {
    var max, floor := MaxEvents(ours), Floor(live);
    var own := if sb.events < max || (floor.Some? && sb.events < floor.value) then ("stale", 0)
               else AgreedState(sb.member, AtEvents(ours, max));
    var newer := floor.Some? && sb.events > floor.value;
    if live.Some? && !newer then Checked(own.0, own.1, live.value, sb.member) else own
  }

  function MembersFrom(part: seq<Superblock>, ours: seq<Superblock>, live: Option<Reading>): (ms: seq<Member>)
    ensures |ms| == |part|
  {
    seq(|part|, i requires 0 <= i < |part| =>
      var (state, rebuilt) := StateOf(part[i], ours, live);
      Member(part[i].member, "", state, Some(rebuilt)))
  }

  function MaxData(newest: seq<Superblock>): nat {
    if newest == [] then 0
    else
      var m := MaxData(newest[..|newest| - 1]);
      if newest[|newest| - 1].dataSize > m then newest[|newest| - 1].dataSize else m
  }

  function FromSuperblocks(v: Volume, last: Option<Reading>, sbs: seq<Superblock>): Option<Reading> {
    if v.head.None? || v.arrayId.None? then None
    else
      var ours, live := Ours(sbs, v.arrayId.value), LiveOf(v, last);
      if ours == [] then None
      else
        var data := if live.Some? && live.value.dataBytes > 0 then live.value.dataBytes
                    else MaxData(AtEvents(ours, MaxEvents(ours)));
        Some(Reading(v.head.value, v.arrayId.value, data, MembersFrom(ours, ours, live), Some(MaxEvents(ours)), FromLegs))
  }

  // --------------------------------------------------------------- replicas

  datatype Sync = InSync | Resyncing(done: nat, of: nat) | Detached

  datatype Replica = Replica(node: string, master: bool, sync: Sync)

  function MemberSync(m: Member, dataBytes: nat): Sync {
    if m.state == "active" then InSync
    else if m.state == "rebuilding" then
      Resyncing(Min(if m.rebuilt.Some? then m.rebuilt.value else 0, dataBytes), dataBytes)
    else Detached
  }

  /** The first member with the leg's member uuid, or at its drive URI. */
  function MemberOf(leg: Leg, ms: seq<Member>): Option<Member> {
    if ms == [] then None
    else if (leg.member.Some? && SameUuid(leg.member.value, ms[0].uuid)) || leg.uri == Some(ms[0].path) then Some(ms[0])
    else MemberOf(leg, ms[1..])
  }

  predicate ReadingOf(v: Volume, r: Reading) {
    Some(r.head) == v.head && Some(r.arrayId) == v.arrayId
  }

  function LegSync(v: Volume, leg: Leg, reading: Option<Reading>): Sync {
    if leg.state != Created then Detached
    else match v.assembly
         case SingleLeg => InSync
         case Pending => Detached
         case Clone => Detached
         case _ =>
           if reading.Some? && ReadingOf(v, reading.value) then
             var m := MemberOf(leg, reading.value.members);
             if m.Some? then MemberSync(m.value, reading.value.dataBytes) else Detached
           else Detached
  }

  function Copies(v: Volume): seq<Leg> {
    v.legs + if v.replacing.Some? then [v.replacing.value.leg] else []
  }

  function MasterNode(v: Volume): Option<string> {
    if Mirrored(v) then v.head else if v.legs == [] then None else Some(v.legs[0].node)
  }

  function Replicas(v: Volume, reading: Option<Reading>): (rs: seq<Replica>)
    ensures |rs| == |Copies(v)|
  {
    var legs := Copies(v);
    seq(|legs|, i requires 0 <= i < |legs| =>
      Replica(legs[i].node, Some(legs[i].node) == MasterNode(v), LegSync(v, legs[i], reading)))
  }

  // --------------------------------------------------------------- evidence

  /** The first superblock of the array that is the leg's own. */
  ghost predicate OwnSuperblock(leg: Leg, ours: seq<Superblock>, i: int) {
    && 0 <= i < |ours| && leg.member.Some?
    && SameUuid(leg.member.value, ours[i].member)
    && (forall j :: 0 <= j < i ==> !SameUuid(leg.member.value, ours[j].member))
  }

  /**
    The evidence rule: the superblock carries the newest count among the legs read, every superblock at that
    count records the member active, the count is not below the last live reading's, and unless it is above
    that one the live reading had the member active too.
  */
  ghost predicate Evidence(sb: Superblock, ours: seq<Superblock>, live: Option<Reading>) {
    && (forall x :: x in ours ==> x.events <= sb.events)
    && (forall x :: x in ours && x.events == sb.events ==>
          SlotOf(x, sb.member).Some? && SlotOf(x, sb.member).value.state == "active")
    && (live.Some? ==>
          && (live.value.events.Some? ==> live.value.events.value <= sb.events)
          && (!(live.value.events.Some? && live.value.events.value < sb.events) ==>
                var m := FindMember(live.value.members, sb.member);
                m.Some? && m.value.state == "active"))
  }

  lemma {:induction false} MaxEventsIs(ours: seq<Superblock>)
    requires ours != []
    ensures forall x :: x in ours ==> x.events <= MaxEvents(ours)
    ensures exists x :: x in ours && x.events == MaxEvents(ours)
  {
    var init, last := ours[..|ours| - 1], ours[|ours| - 1];
    assert forall x :: x in ours <==> x in init || x == last;
    if init != [] { MaxEventsIs(init); }
    if last.events >= MaxEvents(init) { assert last in ours; }
  }

  lemma {:induction false} AtEventsIs(ours: seq<Superblock>, events: nat)
    ensures forall x :: x in AtEvents(ours, events) <==> x in ours && x.events == events
  {
    if ours != [] {
      AtEventsIs(ours[..|ours| - 1], events);
      assert forall x :: x in ours <==> x in ours[..|ours| - 1] || x == ours[|ours| - 1];
    }
  }

  /** A superblock is read as active exactly on the evidence. */
  lemma {:induction false} ActiveOnEvidence(sb: Superblock, ours: seq<Superblock>, live: Option<Reading>)
    requires sb in ours
    ensures StateOf(sb, ours, live).0 == "active" <==> Evidence(sb, ours, live)
  {
    var max := MaxEvents(ours);
    var newest := AtEvents(ours, max);
    MaxEventsIs(ours);
    AtEventsIs(ours, max);
    if sb.events == max {
      assert sb in newest;
      WorstWins(sb.member, newest, 2);
      assert AllListAt(sb.member, newest, 2) <==>
             forall x :: x in newest ==> SlotOf(x, sb.member).Some? && Rank(SlotOf(x, sb.member).value.state) >= 2;
    }
  }

  lemma {:induction false} OwnIsOne(leg: Leg, ours: seq<Superblock>, i: int, j: int)
    requires OwnSuperblock(leg, ours, i) && OwnSuperblock(leg, ours, j)
    ensures i == j
  {
  }

  /** The member a leg finds in a reading from superblocks is its own superblock's. */
  lemma {:induction false} OwnMember(
    leg: Leg, part: seq<Superblock>, ours: seq<Superblock>, live: Option<Reading>) returns (i: int)
    requires leg.uri != Some("")
    ensures var m := MemberOf(leg, MembersFrom(part, ours, live));
            && (m.None? ==> forall j :: !OwnSuperblock(leg, part, j))
            && (m.Some? ==> OwnSuperblock(leg, part, i) && m.value.state == StateOf(part[i], ours, live).0)
  {
    i := 0;
    if part != [] {
      var ms := MembersFrom(part, ours, live);
      assert ms[1..] == MembersFrom(part[1..], ours, live);
      if leg.member.Some? && SameUuid(leg.member.value, part[0].member) {
        assert OwnSuperblock(leg, part, 0);
      } else {
        i := OwnMember(leg, part[1..], ours, live);
        i := i + 1;
        forall j | OwnSuperblock(leg, part, j) ensures OwnSuperblock(leg, part[1..], j - 1) {
          assert j != 0;
          forall k | 0 <= k < j - 1 ensures !SameUuid(leg.member.value, part[1..][k].member) {
            assert part[1..][k] == part[k + 1];
          }
        }
      }
    }
  }

  /**
    A mirrored leg reads in sync from superblocks exactly when it is there and its own superblock, of this
    array, passes the evidence rule. (No leg's drive URI is the empty string.)
  */
  lemma {:induction false} InSyncExactlyOnEvidence(v: Volume, last: Option<Reading>, sbs: seq<Superblock>, leg: Leg)
    requires Mirrored(v) && leg.uri != Some("")
    ensures LegSync(v, leg, FromSuperblocks(v, last, sbs)) == InSync <==>
            && leg.state == Created && v.head.Some? && v.arrayId.Some?
            && var ours := Ours(sbs, v.arrayId.value);
               exists i :: OwnSuperblock(leg, ours, i) && Evidence(ours[i], ours, LiveOf(v, last))
  {
    if v.head.Some? && v.arrayId.Some? {
      var ours, live := Ours(sbs, v.arrayId.value), LiveOf(v, last);
      var k := OwnMember(leg, ours, ours, live);
      if i :| OwnSuperblock(leg, ours, i) {
        OwnIsOne(leg, ours, i, k);
        ActiveOnEvidence(ours[k], ours, live);
        forall j | OwnSuperblock(leg, ours, j) ensures j == k { OwnIsOne(leg, ours, j, k); }
      }
    }
  }

  // ------------------------------------------------------------ monotonicity

  /** The rank a member reads at: active over rebuilding over the rest. */
  function RankRead(v: Volume, leg: Leg, last: Option<Reading>, sbs: seq<Superblock>): nat {
    match FromSuperblocks(v, last, sbs)
    case None => 0
    case Some(r) => var m := MemberOf(leg, r.members); if m.Some? then Rank(m.value.state) else 0
  }

  lemma {:induction false} OursConcat(a: seq<Superblock>, b: seq<Superblock>, arrayId: string)
    ensures Ours(a + b, arrayId) == Ours(a, arrayId) + Ours(b, arrayId)
  {
    if b == [] {
      assert a + b == a;
    } else {
      OursConcat(a, b[..|b| - 1], arrayId);
      assert (a + b)[..|a + b| - 1] == a + b[..|b| - 1];
    }
  }

  /** The check against the live reading keeps the order of ranks. */
  lemma {:induction false} CheckedMonotone(s: string, t: string, a: nat, b: nat, live: Reading, uuid: string)
    requires Rank(s) <= Rank(t)
    ensures Rank(Checked(s, a, live, uuid).0) <= Rank(Checked(t, b, live, uuid).0)
  {
  }

  lemma {:induction false} AgreedMonotone(member: string, a: seq<Superblock>, b: seq<Superblock>)
    requires a != [] && (forall x :: x in a ==> x in b)
    ensures Rank(AgreedState(member, b).0) <= Rank(AgreedState(member, a).0)
  {
    assert a[0] in b;
    WorstWins(member, a, 1);
    WorstWins(member, b, 1);
    WorstWins(member, a, 2);
    WorstWins(member, b, 2);
    forall i | 0 <= i < |a| ensures a[i] in b {}
    assert AllListAt(member, b, 1) ==> AllListAt(member, a, 1);
    assert AllListAt(member, b, 2) ==> AllListAt(member, a, 2);
  }

  /** What a superblock is read as before the live reading is asked. */
  function OwnState(sb: Superblock, ours: seq<Superblock>, live: Option<Reading>): (string, nat) {
    if sb.events < MaxEvents(ours) || (Floor(live).Some? && sb.events < Floor(live).value) then ("stale", 0)
    else AgreedState(sb.member, AtEvents(ours, MaxEvents(ours)))
  }

  lemma {:induction false} OwnStateMonotone(
    sb: Superblock, ours: seq<Superblock>, more: seq<Superblock>, live: Option<Reading>)
    requires sb in ours && (forall x :: x in ours ==> x in more)
    ensures Rank(OwnState(sb, more, live).0) <= Rank(OwnState(sb, ours, live).0)
  {
    var max, higher := MaxEvents(ours), MaxEvents(more);
    MaxEventsIs(ours);
    MaxEventsIs(more);
    if sb.events == higher {
      AtEventsIs(ours, max);
      AtEventsIs(more, higher);
      assert sb in AtEvents(ours, max);
      AgreedMonotone(sb.member, AtEvents(ours, max), AtEvents(more, higher));
    }
  }

  /** More superblocks of the array never raise what one of them is read as. */
  lemma {:induction false} MoreNeverRaises(
    sb: Superblock, ours: seq<Superblock>, more: seq<Superblock>, live: Option<Reading>)
    requires sb in ours && (forall x :: x in ours ==> x in more)
    ensures Rank(StateOf(sb, more, live).0) <= Rank(StateOf(sb, ours, live).0)
  {
    OwnStateMonotone(sb, ours, more, live);
    if live.Some? {
      var s, t := OwnState(sb, more, live), OwnState(sb, ours, live);
      CheckedMonotone(s.0, t.0, s.1, t.1, live.value, sb.member);
    }
  }

  /** A leg's own superblock is still its own with another one among them that is not. */
  lemma {:induction false} OwnAmongMore(
    leg: Leg, a: seq<Superblock>, x: seq<Superblock>, b: seq<Superblock>, i: int) returns (k: int)
    requires |x| <= 1 && (x != [] ==> !(leg.member.Some? && SameUuid(leg.member.value, x[0].member)))
    requires OwnSuperblock(leg, a + x + b, i)
    ensures OwnSuperblock(leg, a + b, k) && (a + b)[k] == (a + x + b)[i]
  {
    var more, ours := a + x + b, a + b;
    k := if i < |a| then i else i - |x|;
    forall j | 0 <= j < k ensures !SameUuid(leg.member.value, ours[j].member) {
      assert ours[j] == more[if j < |a| then j else j + |x|];
    }
  }

  lemma {:induction false} RankReadIs(v: Volume, leg: Leg, last: Option<Reading>, sbs: seq<Superblock>)
    requires v.head.Some? && v.arrayId.Some?
    ensures var ours, live := Ours(sbs, v.arrayId.value), LiveOf(v, last);
            var m := MemberOf(leg, MembersFrom(ours, ours, live));
            RankRead(v, leg, last, sbs) == if m.Some? then Rank(m.value.state) else 0
  {
  }

  lemma {:induction false} OursWithOne(a: seq<Superblock>, x: Superblock, b: seq<Superblock>, arrayId: string)
    ensures Ours(a + [x] + b, arrayId) == Ours(a, arrayId) + Ours([x], arrayId) + Ours(b, arrayId)
    ensures |Ours([x], arrayId)| <= 1 && forall y :: y in Ours([x], arrayId) ==> y == x
  {
    OursConcat(a, [x], arrayId);
    OursConcat(a + [x], b, arrayId);
    assert [x][..0] == [] && Ours([x], arrayId) == if SameUuid(x.arrayId, arrayId) then [x] else [];
  }

  /** Reading another leg's superblock, wherever it comes among them, never raises any leg's rank. */
  lemma {:induction false} AnotherSuperblockNeverRaises(
    v: Volume, leg: Leg, last: Option<Reading>, a: seq<Superblock>, x: Superblock, b: seq<Superblock>)
    requires leg.uri != Some("") && !(leg.member.Some? && SameUuid(leg.member.value, x.member))
    ensures RankRead(v, leg, last, a + [x] + b) <= RankRead(v, leg, last, a + b)
  {
    if v.head.Some? && v.arrayId.Some? {
      var arrayId := v.arrayId.value;
      RankReadIs(v, leg, last, a + [x] + b);
      RankReadIs(v, leg, last, a + b);
      OursConcat(a, b, arrayId);
      OursWithOne(a, x, b, arrayId);
      RankAmongMore(leg, Ours(a, arrayId), Ours([x], arrayId), Ours(b, arrayId), LiveOf(v, last));
    }
  }

  lemma {:induction false} RankAmongMore(
    leg: Leg, a: seq<Superblock>, x: seq<Superblock>, b: seq<Superblock>, live: Option<Reading>)
    requires leg.uri != Some("") && |x| <= 1 && (x != [] ==> !(leg.member.Some? && SameUuid(leg.member.value, x[0].member)))
    ensures var m := MemberOf(leg, MembersFrom(a + x + b, a + x + b, live));
            var n := MemberOf(leg, MembersFrom(a + b, a + b, live));
            m.Some? ==> n.Some? && Rank(m.value.state) <= Rank(n.value.state)
  {
    var ours, more := a + b, a + x + b;
    var i := OwnMember(leg, more, more, live);
    var j := OwnMember(leg, ours, ours, live);
    if MemberOf(leg, MembersFrom(more, more, live)).Some? {
      var k := OwnAmongMore(leg, a, x, b, i);
      OwnIsOne(leg, ours, j, k);
      forall y | y in ours ensures y in more {
        if y in a { assert y in a + x; }
      }
      MoreNeverRaises(ours[k], ours, more, live);
    }
  }

  // ---------------------------------------------------------------- re-head

  datatype NodeHealth = NodeHealth(healthy: bool, failures: nat)

  predicate Healthy(nodes: map<string, NodeHealth>, n: string) {
    n in nodes && nodes[n].healthy
  }

  /** Its head has been lost long enough, and nothing else has the volume in hand. */
  predicate HeadLongLost(
    v: Volume, nodes: map<string, NodeHealth>, interval: nat, after: nat, busy: set<string>, now: int) {
    && Mirrored(v) && !v.fenced && v.replacing.None? && v.window.None? && v.name !in busy && Due(v.nextAssemble, now)
    && v.head.Some? && v.head.value in nodes && !nodes[v.head.value].healthy
    && interval * nodes[v.head.value].failures >= after
  }

  /** A copy an automatic re-head may promote. */
  predicate Promotable(v: Volume, r: Replica, nodes: map<string, NodeHealth>) {
    Some(r.node) != v.head && Healthy(nodes, r.node) && r.sync == InSync
  }

  ghost predicate FirstAt(v: Volume, rs: seq<Replica>, nodes: map<string, NodeHealth>, i: int) {
    0 <= i < |rs| && Promotable(v, rs[i], nodes) && forall j :: 0 <= j < i ==> !Promotable(v, rs[j], nodes)
  }

  function FirstPromotable(v: Volume, rs: seq<Replica>, nodes: map<string, NodeHealth>): (r: Option<string>)
    ensures r.Some? ==> exists i :: FirstAt(v, rs, nodes, i) && rs[i].node == r.value
    ensures r.None? ==> forall i :: 0 <= i < |rs| ==> !Promotable(v, rs[i], nodes)
  {
    if rs == [] then None
    else if Promotable(v, rs[0], nodes) then assert FirstAt(v, rs, nodes, 0); Some(rs[0].node)
    else
      var r := FirstPromotable(v, rs[1..], nodes);
      assert forall i :: 1 <= i < |rs| ==> rs[i] == rs[1..][i - 1];
      assert forall i :: FirstAt(v, rs[1..], nodes, i) ==> FirstAt(v, rs, nodes, i + 1);
      r
  }

  function ReadingFor(readings: map<string, Reading>, name: string): Option<Reading> {
    if name in readings then Some(readings[name]) else None
  }

  datatype Rehead = Rehead(volume: string, target: string, epoch: nat)

  /** A copy a re-head may promote: on a healthy node, not the head, with its leg there and read in sync. */
  predicate SafeLeg(v: Volume, leg: Leg, nodes: map<string, NodeHealth>, reading: Option<Reading>) {
    && Some(leg.node) != v.head && Healthy(nodes, leg.node)
    && leg.state == Created && LegSync(v, leg, reading) == InSync
  }

  /** The target of a re-head: the node of the first such leg. */
  ghost predicate SafeTarget(v: Volume, target: string, nodes: map<string, NodeHealth>, reading: Option<Reading>) {
    exists i :: 0 <= i < |v.legs| && v.legs[i].node == target && SafeLeg(v, v.legs[i], nodes, reading)
                && forall j :: 0 <= j < i ==> !SafeLeg(v, v.legs[j], nodes, reading)
  }

  ghost predicate NoSafeTarget(v: Volume, nodes: map<string, NodeHealth>, reading: Option<Reading>) {
    forall l :: l in v.legs ==> !SafeLeg(v, l, nodes, reading)
  }

  /** The first copy that may be promoted, or there is no safe target. */
  method PickRehead(v: Volume, nodes: map<string, NodeHealth>, reading: Option<Reading>) returns (target: Option<string>)
    requires Mirrored(v) && v.replacing.None?
    ensures target.Some? ==> SafeTarget(v, target.value, nodes, reading)
    ensures target.None? ==> NoSafeTarget(v, nodes, reading)
  {
    var rs := Replicas(v, reading);
    assert Copies(v) == v.legs;
    target := FirstPromotable(v, rs, nodes);
    forall k | 0 <= k < |v.legs| ensures Promotable(v, rs[k], nodes) <==> SafeLeg(v, v.legs[k], nodes, reading) {
    }
    if target.Some? {
      ghost var i :| FirstAt(v, rs, nodes, i) && rs[i].node == target.value;
      assert SafeLeg(v, v.legs[i], nodes, reading);
    }
  }

  /** What a pass reads: the nodes' health, the heads' last readings, the time a head may be lost, claims and the clock. */
  datatype Pass = Pass(
    nodes: map<string, NodeHealth>, readings: map<string, Reading>, interval: nat, after: nat, busy: set<string>, now: int)

  predicate LongLost(v: Volume, x: Pass) {
    HeadLongLost(v, x.nodes, x.interval, x.after, x.busy, x.now)
  }

  ghost predicate MayRehead(v: Volume, x: Pass, s: Rehead) {
    s.volume == v.name && s.epoch == v.epoch && LongLost(v, x) && SafeTarget(v, s.target, x.nodes, ReadingFor(x.readings, v.name))
  }

  ghost predicate MustHold(v: Volume, x: Pass) {
    LongLost(v, x) && NoSafeTarget(v, x.nodes, ReadingFor(x.readings, v.name))
  }

  ghost predicate StartsFor(v: Volume, x: Pass, start: seq<Rehead>) {
    exists s :: s in start && MayRehead(v, x, s)
  }

  /** What is started is a re-head of one of the volumes. */
  ghost predicate StartsRight(vols: seq<Volume>, x: Pass, start: seq<Rehead>) {
    forall s :: s in start ==> exists v :: v in vols && MayRehead(v, x, s)
  }

  /** What is held is one of them that has no safe target. */
  ghost predicate HeldRight(vols: seq<Volume>, x: Pass, held: seq<string>) {
    forall n :: n in held ==> exists v :: v in vols && v.name == n && MustHold(v, x)
  }

  /** A volume whose head is long lost is one or the other. */
  ghost predicate Seen(v: Volume, x: Pass, start: seq<Rehead>, held: seq<string>) {
    LongLost(v, x) ==> StartsFor(v, x, start) || (v.name in held && MustHold(v, x))
  }

  /** `start` and `held` are exactly what the volumes call for. */
  ghost predicate ReheadsAre(vols: seq<Volume>, x: Pass, start: seq<Rehead>, held: seq<string>) {
    StartsRight(vols, x, start) && HeldRight(vols, x, held) && forall v :: v in vols ==> Seen(v, x, start, held)
  }

  lemma {:induction false} StartsMore(vols: seq<Volume>, v: Volume, x: Pass, start: seq<Rehead>, more: seq<Rehead>)
    requires StartsRight(vols, x, start) && forall s :: s in more ==> s in start || MayRehead(v, x, s)
    ensures StartsRight(vols + [v], x, more)
  {
    var all := vols + [v];
    assert all[|vols|] == v;
    forall s | s in more ensures exists w :: w in all && MayRehead(w, x, s) {
      if s in start {
        var w :| w in vols && MayRehead(w, x, s);
        assert w in all;
      } else {
        assert v in all && MayRehead(v, x, s);
      }
    }
  }

  lemma {:induction false} HeldMore(vols: seq<Volume>, v: Volume, x: Pass, held: seq<string>, more: seq<string>)
    requires HeldRight(vols, x, held) && forall n :: n in more ==> n in held || (n == v.name && MustHold(v, x))
    ensures HeldRight(vols + [v], x, more)
  {
    var all := vols + [v];
    assert all[|vols|] == v;
    forall n | n in more ensures exists w :: w in all && w.name == n && MustHold(w, x) {
      if n in held {
        var w :| w in vols && w.name == n && MustHold(w, x);
        assert w in all;
      } else {
        assert v in all && MustHold(v, x);
      }
    }
  }

  lemma {:induction false} SeenStill(
    v: Volume, x: Pass, start: seq<Rehead>, held: seq<string>, starts: seq<Rehead>, names: seq<string>)
    requires Seen(v, x, start, held) && (forall s :: s in start ==> s in starts) && forall n :: n in held ==> n in names
    ensures Seen(v, x, starts, names)
  {
    if LongLost(v, x) && StartsFor(v, x, start) {
      var s :| s in start && MayRehead(v, x, s);
      assert s in starts;
    }
  }

  lemma {:induction false} OneMoreSeen(
    vols: seq<Volume>, v: Volume, x: Pass, start: seq<Rehead>, held: seq<string>, starts: seq<Rehead>, names: seq<string>)
    requires ReheadsAre(vols, x, start, held) && Seen(v, x, starts, names)
    requires (forall s :: s in start ==> s in starts) && (forall n :: n in held ==> n in names)
    requires forall s :: s in starts ==> s in start || MayRehead(v, x, s)
    requires forall n :: n in names ==> n in held || (n == v.name && MustHold(v, x))
    ensures ReheadsAre(vols + [v], x, starts, names)
  {
    StartsMore(vols, v, x, start, starts);
    HeldMore(vols, v, x, held, names);
    forall w | w in vols + [v] ensures Seen(w, x, starts, names) {
      if w in vols { SeenStill(w, x, start, held, starts, names); }
    }
  }

  /**
   * A re-head is started exactly for volumes whose head is long lost and that have a safe target, to such a one and at
   * the volume's epoch; a name is held exactly when a volume of that name has none.
   */
  method PlanRehead(vols: seq<Volume>, x: Pass) returns (start: seq<Rehead>, held: seq<string>)
    ensures ReheadsAre(vols, x, start, held)
  {
    start, held := [], [];
    var i := 0;
    while i < |vols|
      invariant 0 <= i <= |vols|
      invariant ReheadsAre(vols[..i], x, start, held)
    {
      var v := vols[i];
      assert vols[..i + 1] == vols[..i] + [v];
      i := i + 1;
      ghost var before, kept := start, held;
      if LongLost(v, x) {
        var target := PickRehead(v, x.nodes, ReadingFor(x.readings, v.name));
        match target {
          case Some(t) =>
            start := start + [Rehead(v.name, t, v.epoch)];
            assert start[|before|] == Rehead(v.name, t, v.epoch) && MayRehead(v, x, start[|before|]);
          case None =>
            held := held + [v.name];
            assert held[|kept|] == v.name && MustHold(v, x);
        }
      }
      OneMoreSeen(vols[..i - 1], v, x, before, kept, start, held);
    }
    assert vols[..|vols|] == vols;
  }

  /** What a re-head promotes while the head cannot be read has the evidence: it holds every write. */
  lemma {:induction false} ReheadHasEvidence(
    v: Volume, target: string, nodes: map<string, NodeHealth>, last: Option<Reading>, sbs: seq<Superblock>)
    requires Mirrored(v) && (forall l :: l in v.legs ==> l.uri != Some(""))
    requires SafeTarget(v, target, nodes, FromSuperblocks(v, last, sbs))
    ensures v.arrayId.Some? && var ours := Ours(sbs, v.arrayId.value);
            exists k, i :: 0 <= k < |v.legs| && v.legs[k].node == target && OwnSuperblock(v.legs[k], ours, i)
                           && Evidence(ours[i], ours, LiveOf(v, last))
  {
    var k :| 0 <= k < |v.legs| && v.legs[k].node == target && SafeLeg(v, v.legs[k], nodes, FromSuperblocks(v, last, sbs));
    assert v.legs[k] in v.legs;
    InSyncExactlyOnEvidence(v, last, sbs, v.legs[k]);
  }
}
