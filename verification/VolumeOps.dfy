/**
  What the operations of src/orchestrate.rs and src/head.rs do to a volume's record: as functions, and as
  methods of the record the source updates in place. An engine's answers are arguments.
*/
module VolumeOps {
  import opened Wrappers
  import opened Volumes
  import opened Superblocks

  datatype Refusal = StaleEpoch(current: nat) | Conflict | Upstream

  predicate AnyLost(legs: seq<Leg>) {
    exists i :: 0 <= i < |legs| && legs[i].state == Lost
  }

  predicate AllCreated(legs: seq<Leg>) {
    forall i :: 0 <= i < |legs| ==> legs[i].state == Created
  }

  predicate HasLeg(legs: seq<Leg>, node: string) {
    exists i :: 0 <= i < |legs| && legs[i].node == node
  }

  // -------------------------------------------------- loss (plan_recovery)

  function LegLost(l: Leg): Leg {
    l.(state := Lost, message := Some("unreachable"))
  }

  function LegsLost(legs: seq<Leg>, healthy: set<string>): (r: seq<Leg>)
    ensures |r| == |legs|
  {
    seq(|legs|, i requires 0 <= i < |legs| =>
      if legs[i].state == Created && legs[i].node !in healthy then LegLost(legs[i]) else legs[i])
  }

  /** Legs on nodes that do not answer are lost, and a mirror with a lost leg is degraded. */
  function MarkLost(v: Volume, healthy: set<string>): Volume {
    if !Mirrored(v) then v
    else
      var legs := LegsLost(v.legs, healthy);
      v.(legs := legs, assembly := if AnyLost(legs) then Degraded else v.assembly)
  }

  datatype Decision = Nothing | AssembleIt | Resume | StartFrom(from: string)

  function FirstLost(legs: seq<Leg>): (r: Option<string>)
    ensures r.Some? <==> AnyLost(legs)
    ensures r.Some? ==> exists i :: 0 <= i < |legs| && legs[i].state == Lost && legs[i].node == r.value
  {
    if legs == [] then None
    else if legs[0].state == Lost then Some(legs[0].node)
    else
      var r := FirstLost(legs[1..]);
      assert forall i :: 1 <= i < |legs| ==> legs[i] == legs[1..][i - 1];
      r
  }

  predicate LostOn(legs: seq<Leg>, node: string) {
    exists i :: 0 <= i < |legs| && legs[i].state == Lost && legs[i].node == node
  }

  /** What a reconcile pass does next with the volume, once its lost legs are marked. */
  function Decide(v: Volume, healthy: set<string>, enabled: bool, busy: bool, now: int): Decision {
    if v.assembly == Pending then
      if enabled && !busy && |v.legs| >= 2 && AllCreated(v.legs) && Due(v.nextAssemble, now)
         && (forall i :: 0 <= i < |v.legs| ==> v.legs[i].volumeId.Some? && v.legs[i].node in healthy)
      then AssembleIt else Nothing
    else if !Mirrored(v) then Nothing
    else if v.replacing.Some? then if enabled && !busy then Resume else Nothing
    else if !enabled || busy || !AnyLost(v.legs) then Nothing
    else if v.head.None? || LostOn(v.legs, v.head.value) || v.head.value !in healthy then Nothing
    else if !Due(v.nextReleg, now) then Nothing
    else StartFrom(FirstLost(v.legs).value)
  }

  // ------------------------------------------------------ replacing a leg

  /** A leg may be replaced: the volume is assembled, no other leg is, and the head answers. */
  predicate MayReplace(v: Volume, from: string, healthy: set<string>) {
    Mirrored(v) && v.replacing.None? && HasLeg(v.legs, from) && v.head.Some? && v.head.value in healthy
    && v.arrayId.Some?
  }

  /** Registered nodes' domains at the volume's rung; a leg on a node that is not registered is not looked at. */
  predicate Apart(dom: map<string, string>, legs: seq<Leg>, from: string, target: string) {
    target in dom && forall i :: 0 <= i < |legs| && legs[i].node != from && legs[i].node in dom
                                 ==> dom[legs[i].node] != dom[target]
  }

  /** Where a moved leg may go. */
  function MoveTargets(dom: map<string, string>, healthy: set<string>, legs: seq<Leg>, from: string): set<string> {
    set n | n in healthy && n in dom && !HasLeg(legs, n) && Apart(dom, legs, from, n)
  }

  function Recorded(v: Volume, from: string, leg: Leg): Volume {
    v.(replacing := Some(Replacement(from, leg)))
  }

  function IndexOn(legs: seq<Leg>, node: string): (i: nat)
    ensures i <= |legs|
    ensures i < |legs| ==> legs[i].node == node
    ensures forall j :: 0 <= j < i ==> legs[j].node != node
  {
    if legs == [] || legs[0].node == node then 0 else 1 + IndexOn(legs[1..], node)
  }

  /** The new leg in the old one's place, or at the end when there is none. */
  function Swapped(legs: seq<Leg>, from: string, leg: Leg): seq<Leg> {
    var i := IndexOn(legs, from);
    if i < |legs| then legs[i := leg] else legs + [leg]
  }

  /** The new leg has rebuilt: it takes the old one's place. */
  function Replaced(v: Volume, rep: Replacement): Volume {
    var legs := Swapped(v.legs, rep.from, rep.leg.(message := None));
    v.(legs := legs, replacing := None, nextReleg := None, assembly := if AnyLost(legs) then Degraded else Assembled)
  }

  /** It did not: undone, and not tried again before `retry`. */
  function Undone(v: Volume, retry: int): Volume {
    v.(replacing := None, nextReleg := Some(retry))
  }

  // ---------------------------------------------------------- head rejoins

  datatype HeadReturn = Restored(assembled: bool) | NotActive(state: string) | ArrayGone

  function LostIndexOn(legs: seq<Leg>, node: string): (i: nat)
    ensures i <= |legs|
    ensures i < |legs| ==> legs[i].node == node && legs[i].state == Lost
    ensures forall j :: 0 <= j < i ==> !(legs[j].node == node && legs[j].state == Lost)
  {
    if legs == [] || (legs[0].node == node && legs[0].state == Lost) then 0 else 1 + LostIndexOn(legs[1..], node)
  }

  /** The head's lost leg is taken back when the head still holds the array with the leg's member active. */
  function AfterHeadReading(v: Volume, reading: Option<Reading>): (Volume, Option<HeadReturn>) {
    if v.head.None? || v.arrayId.None? then (v, None)
    else
      var i := LostIndexOn(v.legs, v.head.value);
      if i == |v.legs| then (v, None)
      else if reading.None? then (v.(legs := v.legs[i := v.legs[i].(message := Some("array gone"))]), Some(ArrayGone))
      else if !ReadingOf(v, reading.value) then (v, None)
      else
        var m := MemberOf(v.legs[i], reading.value.members);
        if m.Some? && m.value.state == "active" then
          var legs := v.legs[i := v.legs[i].(state := Created, message := None)];
          var whole := !AnyLost(legs);
          (v.(legs := legs, assembly := if whole then Assembled else v.assembly), Some(Restored(whole)))
        else
          var state := if m.Some? then m.value.state else "missing";
          (v.(legs := v.legs[i := v.legs[i].(message := Some(state))]), Some(NotActive(state)))
  }

  // --------------------------------------------------------- fence, promote

  predicate MayFence(v: Volume, expected: nat) {
    v.epoch == expected && Mirrored(v)
  }

  function Fenced(v: Volume): Volume {
    v.(epoch := v.epoch + 1, fenced := true)
  }

  /** The checks a promote makes on the record. */
  predicate MayPromote(v: Volume, target: string, fencedEpoch: nat, healthy: set<string>) {
    && v.fenced && v.epoch == fencedEpoch && v.window.None? && Mirrored(v) && v.replacing.None? && target in healthy
    && var i := IndexOn(v.legs, target);
       i < |v.legs| && v.legs[i].state == Created && v.legs[i].volumeId.Some?
  }

  function MirrorState(legs: seq<Leg>): Assembly {
    if AllCreated(legs) then Assembled else Degraded
  }

  /** The head moves to `target`: legs that do not answer are lost, the others are its array's. */
  function Promoted(v: Volume, target: string, healthy: set<string>): Volume {
    var legs := LegsLost(v.legs, healthy);
    v.(legs := legs, head := Some(target), fenced := false, assembly := MirrorState(legs))
  }

  /** A promote: of the head it already has, of another one when the old head is away and the array comes back. */
  function AfterPromote(
    v: Volume, target: string, fencedEpoch: nat, healthy: set<string>, assembles: bool): Result<Volume, Refusal> {
    if !v.fenced || v.epoch != fencedEpoch then Err(StaleEpoch(v.epoch))
    else if !MayPromote(v, target, fencedEpoch, healthy) || v.arrayId.None? then Err(Conflict)
    else if v.head == Some(target) then Ok(v.(fenced := false))
    else if v.head.Some? && v.head.value in healthy then Err(Conflict)
    else if !assembles then Err(Upstream)
    else Ok(Promoted(v, target, healthy))
  }

  // ------------------------------------------------------------- reassemble

  function LegsBack(legs: seq<Leg>, head: string, healthy: set<string>): (r: seq<Leg>)
    ensures |r| == |legs|
  {
    seq(|legs|, i requires 0 <= i < |legs| =>
      if legs[i].node in healthy && (legs[i].state == Created || (legs[i].state == Lost && legs[i].node == head))
      then legs[i].(state := Created, message := None) else legs[i])
  }

  predicate MayReassemble(v: Volume, healthy: set<string>) {
    Mirrored(v) && !v.fenced && v.replacing.None? && v.window.None? && v.head.Some? && v.head.value in healthy
    && v.arrayId.Some?
  }

  /** The array is back on its own head, from the legs that answer. */
  function Reassembled(v: Volume, healthy: set<string>): Volume
    requires v.head.Some?
  {
    var legs := LegsBack(v.legs, v.head.value, healthy);
    v.(legs := legs, assembly := MirrorState(legs), nextAssemble := None)
  }

  // --------------------------------------------------------- first assembly

  predicate MayAssemble(v: Volume) {
    |v.legs| >= 2 && AllCreated(v.legs) && forall i :: 0 <= i < |v.legs| ==> v.legs[i].volumeId.Some?
  }

  /** The array is built on the first leg's node; the volume's state is not asked again. */
  function AssembledOn(v: Volume, arrayId: string): Volume
    requires |v.legs| >= 2
  {
    v.(head := Some(v.legs[0].node), arrayId := Some(arrayId), assembly := Assembled, nextAssemble := None)
  }

  // ----------------------------------------------------- dual-attach window

  predicate MayOpen(v: Volume, target: string) {
    && Mirrored(v) && (v.window.Some? ==> v.window.value.target == target) && v.head != Some(target)
    && exists i :: 0 <= i < |v.legs| && v.legs[i].node == target && v.legs[i].state == Created
  }

  function OpenedFor(v: Volume, target: string, ttl: nat, now: int): Volume {
    v.(window := Some(Window(target, v.epoch, if v.window.Some? then v.window.value.openedAt else now, now + ttl)))
  }

  predicate Expired(v: Volume, now: int) {
    v.window.Some? && v.window.value.expiresAt <= now
  }

  // --------------------------------------------------- the head's arrays

  datatype ArrayMatch = NoArray | Exact(index: nat) | Clash(index: nat, uri: string)

  /**
   * What the head holds over a volume's drives; `members` are its arrays' device paths, in the order it lists them.
   * An array is adopted only over exactly these drives, and one is built only when none holds any of them.
   */
  method MatchArray(members: seq<set<string>>, uris: set<string>) returns (r: ArrayMatch)
    ensures r.NoArray? <==> forall j :: 0 <= j < |members| ==> members[j] * uris == {} && members[j] != uris
    ensures r.Exact? ==> r.index < |members| && members[r.index] == uris
    ensures r.Clash? ==> r.index < |members| && r.uri in members[r.index] && r.uri in uris && members[r.index] != uris
    ensures !r.NoArray? ==> forall j :: 0 <= j < r.index ==> members[j] * uris == {} && members[j] != uris
  {
    var i := 0;
    while i < |members|
      invariant 0 <= i <= |members|
      invariant forall j :: 0 <= j < i ==> members[j] * uris == {} && members[j] != uris
    {
      if members[i] == uris {
        return Exact(i);
      }
      if members[i] * uris != {} {
        var uri :| uri in members[i] * uris;
        return Clash(i, uri);
      }
      i := i + 1;
    }
    r := NoArray;
  }

  // -------------------------------------------------------------- the record

  class VolumeRecord {
    const name: string
    var legs: seq<Leg>
    var assembly: Assembly
    var head: Option<string>
    var arrayId: Option<string>
    var replacing: Option<Replacement>
    var nextReleg: Option<int>
    var nextAssemble: Option<int>
    var epoch: nat
    var fenced: bool
    var window: Option<Window>

    /** A volume as it is created: one leg, or several still to be assembled. */
    constructor (name: string, legs: seq<Leg>)
      ensures View() == Volume(name, legs, if |legs| <= 1 then SingleLeg else Pending, None, None, None, None, None, 1, false, None)
    {
      this.name, this.legs := name, legs;
      assembly := if |legs| <= 1 then SingleLeg else Pending;
      head, arrayId, replacing, nextReleg, nextAssemble := None, None, None, None, None;
      epoch, fenced, window := 1, false, None;
    }

    function View(): Volume
      reads this
    {
      Volume(name, legs, assembly, head, arrayId, replacing, nextReleg, nextAssemble, epoch, fenced, window)
    }

    /** Mark the legs that do not answer. */
    method LoseLegs(healthy: set<string>)
      modifies this`legs
      ensures legs == LegsLost(old(legs), healthy)
    {
      var i := 0;
      while i < |legs|
        invariant 0 <= i <= |legs| == |old(legs)|
        invariant legs[..i] == LegsLost(old(legs), healthy)[..i]
        invariant legs[i..] == old(legs)[i..]
      {
        if legs[i].state == Created && legs[i].node !in healthy {
          legs := legs[i := LegLost(legs[i])];
        }
        i := i + 1;
      }
    }

    /** One volume of a recovery pass: its legs' losses, then what to start. */
    method PlanRecovery(healthy: set<string>, enabled: bool, busy: bool, now: int) returns (decision: Decision)
      modifies this`legs, this`assembly
      ensures View() == MarkLost(old(View()), healthy)
      ensures decision == Decide(View(), healthy, enabled, busy, now)
    {
      if assembly == Assembled || assembly == Degraded {
        LoseLegs(healthy);
        if AnyLost(legs) && assembly == Assembled {
          assembly := Degraded;
        }
      }
      decision := Decide(View(), healthy, enabled, busy, now);
    }

    /** First assembly: `array` is the id it got, None when a step failed. */
    method Assemble(arrayMade: Option<string>, retry: int) returns (ok: bool)
      modifies this`head, this`arrayId, this`assembly, this`nextAssemble
      ensures ok <==> MayAssemble(old(View())) && arrayMade.Some?
      ensures View() == if ok then AssembledOn(old(View()), arrayMade.value)
                        else if MayAssemble(old(View())) then old(View()).(nextAssemble := Some(retry)) else old(View())
    {
      ok := false;
      if |legs| < 2 || !AllCreated(legs) || (exists i :: 0 <= i < |legs| && legs[i].volumeId.None?) {
        return;
      }
      if arrayMade.None? {
        nextAssemble := Some(retry);
        return;
      }
      head, arrayId, assembly, nextAssemble := Some(legs[0].node), arrayMade, Assembled, None;
      ok := true;
    }

    /** A new leg was created, exported to the head and joined to its array. */
    method RecordReplacement(from: string, leg: Leg)
      modifies this`replacing
      ensures View() == Recorded(old(View()), from, leg)
    {
      replacing := Some(Replacement(from, leg));
    }

    /** The wait for `rep` to rebuild is over. */
    method FinishReplacement(rep: Replacement, rebuilt: bool, retry: int)
      modifies this`legs, this`assembly, this`replacing, this`nextReleg
      ensures View() == if rebuilt then Replaced(old(View()), rep) else Undone(old(View()), retry)
    {
      if !rebuilt {
        replacing, nextReleg := None, Some(retry);
        return;
      }
      var leg := rep.leg.(message := None);
      var i := IndexOn(legs, rep.from);
      legs := if i < |legs| then legs[i := leg] else legs + [leg];
      replacing, nextReleg := None, None;
      assembly := if AnyLost(legs) then Degraded else Assembled;
    }

    method ApplyHeadReading(reading: Option<Reading>) returns (found: Option<HeadReturn>)
      modifies this`legs, this`assembly
      ensures (View(), found) == AfterHeadReading(old(View()), reading)
    {
      if head.None? || arrayId.None? {
        return None;
      }
      var i := LostIndexOn(legs, head.value);
      if i == |legs| {
        return None;
      }
      if reading.None? {
        legs := legs[i := legs[i].(message := Some("array gone"))];
        return Some(ArrayGone);
      }
      if Some(reading.value.head) != head || Some(reading.value.arrayId) != arrayId {
        return None;
      }
      var m := MemberOf(legs[i], reading.value.members);
      if m.Some? && m.value.state == "active" {
        legs := legs[i := legs[i].(state := Created, message := None)];
        if !AnyLost(legs) {
          assembly := Assembled;
        }
        return Some(Restored(!AnyLost(legs)));
      }
      var state := if m.Some? then m.value.state else "missing";
      legs := legs[i := legs[i].(message := Some(state))];
      found := Some(NotActive(state));
    }

    method Fence(expected: nat) returns (r: Result<nat, Refusal>)
      modifies this`epoch, this`fenced
      ensures r.Ok? <==> MayFence(old(View()), expected)
      ensures r.Ok? ==> View() == Fenced(old(View())) && r.value == epoch == expected + 1
      ensures r.Err? ==> View() == old(View())
      ensures r == Err(StaleEpoch(epoch)) <==> old(epoch) != expected
    {
      if epoch != expected {
        return Err(StaleEpoch(epoch));
      }
      if assembly != Assembled && assembly != Degraded {
        return Err(Conflict);
      }
      epoch, fenced := epoch + 1, true;
      r := Ok(epoch);
    }

    method Promote(
      target: string, fencedEpoch: nat, healthy: set<string>, assembles: bool) returns (r: Result<(), Refusal>)
      modifies this`legs, this`assembly, this`head, this`fenced
      ensures match AfterPromote(old(View()), target, fencedEpoch, healthy, assembles)
              case Ok(v) => r == Ok(()) && View() == v
              case Err(e) => r == Err(e) && View() == old(View())
    {
      if !fenced || epoch != fencedEpoch {
        return Err(StaleEpoch(epoch));
      }
      var i := IndexOn(legs, target);
      if window.Some? || (assembly != Assembled && assembly != Degraded) || replacing.Some?
         || i == |legs| || legs[i].state != Created || legs[i].volumeId.None? || target !in healthy || arrayId.None? {
        return Err(Conflict);
      }
      if head == Some(target) {
        fenced := false;
        return Ok(());
      }
      if head.Some? && head.value in healthy {
        return Err(Conflict);
      }
      if !assembles {
        return Err(Upstream);
      }
      LoseLegs(healthy);
      head, fenced := Some(target), false;
      assembly := if AllCreated(legs) then Assembled else Degraded;
      r := Ok(());
    }

    /** `gone`: the head was read and no longer holds the array; None when it could not be read. */
    method Reassemble(healthy: set<string>, gone: Option<bool>, assembles: bool) returns (done: bool)
      modifies this`legs, this`assembly, this`nextAssemble
      ensures done <==> MayReassemble(old(View()), healthy) && gone == Some(true) && assembles
                        && exists i :: 0 <= i < |old(legs)| && old(legs)[i].node in healthy
                             && (old(legs)[i].state == Created || (old(legs)[i].state == Lost && Some(old(legs)[i].node) == old(head)))
      ensures View() == if done then Reassembled(old(View()), healthy) else old(View())
    {
      done := false;
      if (assembly != Assembled && assembly != Degraded) || fenced || replacing.Some? || window.Some?
         || head.None? || head.value !in healthy || arrayId.None? || gone != Some(true) {
        return;
      }
      if !(exists i :: 0 <= i < |legs| && legs[i].node in healthy
             && (legs[i].state == Created || (legs[i].state == Lost && Some(legs[i].node) == head))) || !assembles {
        return;
      }
      legs := LegsBack(legs, head.value, healthy);
      assembly := if AllCreated(legs) then Assembled else Degraded;
      nextAssemble := None;
      done := true;
    }

    method OpenWindow(target: string, ttl: nat, now: int) returns (ok: bool)
      modifies this`window
      ensures ok <==> MayOpen(old(View()), target)
      ensures View() == if ok then OpenedFor(old(View()), target, ttl, now) else old(View())
    {
      ok := false;
      if assembly != Assembled && assembly != Degraded {
        return;
      }
      if window.Some? && window.value.target != target {
        return;
      }
      if head == Some(target) {
        return;
      }
      if !(exists i :: 0 <= i < |legs| && legs[i].node == target && legs[i].state == Created) {
        return;
      }
      window := Some(Window(target, epoch, if window.Some? then window.value.openedAt else now, now + ttl));
      ok := true;
    }

    /** Take the window; a commit goes on with a fence at its epoch and a promote of its target. */
    method CloseWindow(presented: nat) returns (target: Result<string, Refusal>)
      modifies this`window
      ensures target.Ok? <==> old(window).Some? && old(window).value.epoch == presented
      ensures target.Ok? ==> target.value == old(window).value.target
      ensures View() == if target.Ok? then old(View()).(window := None) else old(View())
    {
      if window.None? {
        return Err(Conflict);
      }
      if window.value.epoch != presented {
        return Err(StaleEpoch(window.value.epoch));
      }
      target := Ok(window.value.target);
      window := None;
    }

    method ExpireWindow(now: int) returns (closed: Option<string>)
      modifies this`window
      ensures closed == if Expired(old(View()), now) then Some(old(window).value.target) else None
      ensures View() == if Expired(old(View()), now) then old(View()).(window := None) else old(View())
    {
      closed := None;
      if window.Some? && window.value.expiresAt <= now {
        closed := Some(window.value.target);
        window := None;
      }
    }
  }
}
