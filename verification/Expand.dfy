/**
  Expanding a volume bottom up (src/expand.rs): its legs, the head's array over them, the served volume, and only then
  the size on record. Each call is a try; an engine that errs may or may not have done what it was asked.
*/
module Expand {
  import opened Wrappers

  /** An expand in flight: `before` is the array's size first read, `short` that its slab cannot take the room. */
  datatype Expansion = Expansion(to: nat, before: Option<nat>, grown: bool, short: bool)

  /** The record, and what the engines hold: the legs, the array of a mirror, the served volume. */
  datatype World = World(size: nat, expanding: Option<Expansion>, legs: seq<nat>, raid: Option<nat>, served: Option<nat>)

  datatype Grow = Grew(short: bool) | GrowLost(done: bool) | GrowRefused

  /**
   * The answers of one try: `refused` by the checks on the record, `legsDone` of the legs grown and the next one too
   * when `legLost`, whether the array's size could be read at first and after a refusal, the grow, and the served
   * volume's: whether it grew, and whether that and its size were answered.
   */
  datatype Answers = Answers(
    refused: bool, legsDone: nat, legLost: bool, sizeRead: bool, grow: Grow, sizeReadAgain: bool, servedGrew: bool, servedAnswers: bool)

  function Max(a: nat, b: nat): nat {
    if a < b then b else a
  }

  /** The size a leg or a served volume is made at. */
  function LegBytes(w: World): nat {
    if w.expanding.Some? then Max(w.expanding.value.to, w.size) else w.size
  }

  function GrownLegs(legs: seq<nat>, to: nat, done: nat): (r: seq<nat>)
    ensures |r| == |legs|
  {
    seq(|legs|, i requires 0 <= i < |legs| => if i < done then Max(legs[i], to) else legs[i])
  }

  function Least(legs: seq<nat>): nat
    requires legs != []
  {
    if |legs| == 1 then legs[0]
    else
      var l := Least(legs[..|legs| - 1]);
      if legs[|legs| - 1] < l then legs[|legs| - 1] else l
  }

  /** An array takes the room all its legs have. */
  function GrownArray(size: nat, legs: seq<nat>): nat {
    if legs == [] then size else Max(size, Least(legs))
  }

  /** A smaller size than one in flight asks for that one. */
  function Target(w: World, to: nat): nat {
    if w.expanding.Some? then Max(to, w.expanding.value.to) else to
  }

  function Recorded(w: World, to: nat): World {
    w.(expanding := Some(if w.expanding.Some? then w.expanding.value.(to := Target(w, to)) else Expansion(to, None, false, false)))
  }

  /** The array's part of a try, and whether to go on. */
  function ArrayOf(w: World, a: Answers): (World, bool)
    requires w.expanding.Some?
  {
    var x := w.expanding.value;
    if w.raid.None? || x.grown then (w, true)
    else if x.before.None? && !a.sizeRead then (w, false)
    else
      var size := w.raid.value;
      var before := if x.before.Some? then x.before.value else size;
      var y := x.(before := Some(before));
      var grown := GrownArray(size, w.legs);
      match a.grow
      case Grew(short) => (w.(raid := Some(grown), expanding := Some(y.(grown := true, short := short))), !short)
      case GrowLost(done) => (w.(raid := Some(if done then grown else size), expanding := Some(y)), false)
      case GrowRefused =>
        if (if a.sizeReadAgain then size else before) <= before then (w.(expanding := Some(y)), false)
        else (w.(expanding := Some(y.(grown := true, short := false))), true)
  }

  function ServedOf(w: World, to: nat, a: Answers): (World, bool) {
    if w.served.None? then (w, true)
    else
      var size := if a.servedGrew then Max(w.served.value, to) else w.served.value;
      (w.(served := Some(size)), a.servedAnswers && size >= to)
  }

  function LegsOf(w: World, to: nat, a: Answers): (World, bool) {
    if a.legsDone >= |w.legs| then (w.(legs := GrownLegs(w.legs, to, |w.legs|)), true)
    else (w.(legs := GrownLegs(w.legs, to, a.legsDone + if a.legLost then 1 else 0)), false)
  }

  function TryOf(w: World, to0: nat, a: Answers): World {
    var to := Target(w, to0);
    if (to == w.size && w.expanding.None?) || to < w.size || a.refused then w
    else
      var r := Recorded(w, to);
      if r.expanding.value.short then r
      else
        var (l, legsOk) := LegsOf(r, to, a);
        if !legsOk then l
        else
          var (g, arrayOk) := ArrayOf(l, a);
          if !arrayOk then g
          else
            var (s, servedOk) := ServedOf(g, to, a);
            if servedOk then s.(size := to, expanding := None) else s
  }

  /** Between tries a leg is replaced by one of the size legs are made at. */
  function RelegOf(w: World, leg: nat): World {
    if leg < |w.legs| then w.(legs := w.legs[leg := LegBytes(w)]) else w
  }

  class Volume {
    var size: nat
    var expanding: Option<Expansion>
    var legs: seq<nat>
    var raid: Option<nat>
    var served: Option<nat>

    constructor (size: nat, legs: seq<nat>, raid: Option<nat>, served: Option<nat>)
      ensures View() == World(size, None, legs, raid, served)
    {
      this.size, this.legs, this.raid, this.served := size, legs, raid, served;
      expanding := None;
    }

    function View(): World
      reads this
    {
      World(size, expanding, legs, raid, served)
    }

    method ExpandLegs(to: nat, a: Answers) returns (ok: bool)
      modifies this`legs
      ensures (View(), ok) == LegsOf(old(View()), to, a)
    {
      ghost var was := legs;
      var i := 0;
      while i < |legs|
        invariant 0 <= i <= |legs| == |was| && i <= a.legsDone
        invariant legs == GrownLegs(was, to, i)
      {
        if i == a.legsDone {
          if a.legLost {
            legs := legs[i := Max(legs[i], to)];
            assert legs == GrownLegs(was, to, i + 1);
          }
          return false;
        }
        legs := legs[i := Max(legs[i], to)];
        i := i + 1;
      }
      ok := true;
    }

    method ExpandArray(a: Answers) returns (ok: bool)
      requires expanding.Some?
      modifies this`raid, this`expanding
      ensures (View(), ok) == ArrayOf(old(View()), a)
    {
      if raid.None? || expanding.value.grown {
        return true;
      }
      if expanding.value.before.None? {
        if !a.sizeRead {
          return false;
        }
        expanding := Some(expanding.value.(before := raid));
      }
      var before := expanding.value.before.value;
      match a.grow {
        case Grew(short) =>
          raid := Some(GrownArray(raid.value, legs));
          expanding := Some(expanding.value.(grown := true, short := short));
          return !short;
        case GrowLost(done) =>
          if done {
            raid := Some(GrownArray(raid.value, legs));
          }
          return false;
        case GrowRefused =>
          var now := if a.sizeReadAgain then raid.value else before;
          if now <= before {
            return false;
          }
          expanding := Some(expanding.value.(grown := true, short := false));
          return true;
      }
    }

    /** One try; the size is recorded last. */
    method Expand(to0: nat, a: Answers) returns (ok: bool)
      modifies this
      ensures View() == TryOf(old(View()), to0, a)
      ensures ok ==> size == Target(old(View()), to0) && expanding.None?
    {
      ok := false;
      var to := if expanding.Some? then Max(to0, expanding.value.to) else to0;
      if to == size && expanding.None? {
        return true;
      }
      if to < size || a.refused {
        return;
      }
      if expanding.Some? {
        expanding := Some(expanding.value.(to := to));
      } else {
        expanding := Some(Expansion(to, None, false, false));
      }
      if expanding.value.short {
        return;
      }
      ok := ExpandLegs(to, a);
      if !ok {
        return;
      }
      ok := ExpandArray(a);
      if !ok {
        return;
      }
      if served.Some? {
        if a.servedGrew {
          served := Some(Max(served.value, to));
        }
        if !a.servedAnswers || served.value < to {
          return false;
        }
      }
      size, expanding := to, None;
    }
  }

  // ------------------------------------------------------------------- runs

  datatype Step = Try(to: nat, answers: Answers) | Releg(leg: nat)

  function Do(w: World, s: Step): World {
    match s
    case Try(to, a) => TryOf(w, to, a)
    case Releg(leg) => RelegOf(w, leg)
  }

  function After(w: World, run: seq<Step>): World {
    if run == [] then w else Do(After(w, run[..|run| - 1]), run[|run| - 1])
  }

  predicate AllLegs(legs: seq<nat>, size: nat) {
    forall i :: 0 <= i < |legs| ==> legs[i] >= size
  }

  /** Every leg has the volume's size, and an expand in flight asks for no less. */
  predicate LegsHold(w: World) {
    AllLegs(w.legs, w.size) && (w.expanding.Some? ==> w.expanding.value.to >= w.size)
  }

  lemma {:induction false} StepKeepsLegs(w: World, s: Step)
    requires LegsHold(w)
    ensures LegsHold(Do(w, s)) && Do(w, s).size >= w.size
  {
  }

  /** The size on record never exceeds a leg's, whatever fails, however often targets are raised and legs replaced. */
  lemma {:induction false} SizeNeverExceedsALeg(w: World, run: seq<Step>)
    requires LegsHold(w)
    ensures LegsHold(After(w, run)) && After(w, run).size >= w.size
  {
    if run != [] {
      SizeNeverExceedsALeg(w, run[..|run| - 1]);
      StepKeepsLegs(After(w, run[..|run| - 1]), run[|run| - 1]);
    }
  }

  // ---------------------------------------------------- what grew, and when

  /** An array that grew since its size was first read has the target's room. */
  predicate ArrayTells(w: World) {
    w.expanding.Some? && w.raid.Some? ==>
      var x := w.expanding.value;
      && (x.grown ==> w.raid.value >= x.to)
      && (x.before.Some? ==> w.raid.value >= x.before.value)
      && (x.before.Some? && !x.grown ==> w.raid.value == x.before.value || w.raid.value >= x.to)
  }

  /**
   * The target may be raised: before the array's size was read, or while the array is still that size, or when it
   * already has the room.
   */
  predicate MayRaise(w: World, to: nat) {
    w.expanding.Some? && w.raid.Some? && to > w.expanding.value.to ==>
      var x := w.expanding.value;
      || (x.before.None? && !x.grown)
      || (!x.grown && w.raid.value == x.before.value)
      || w.raid.value >= to
  }

  predicate MayRaiseThrough(w: World, run: seq<Step>) {
    forall i :: 0 <= i < |run| && run[i].Try? ==> MayRaise(After(w, run[..i]), run[i].to)
  }

  /** What a size must have under it when it is recorded. */
  predicate AllGrew(w: World) {
    AllLegs(w.legs, w.size) && (w.raid.Some? ==> w.raid.value >= w.size) && (w.served.Some? ==> w.served.value >= w.size)
  }

  lemma {:induction false} LeastHolds(legs: seq<nat>, to: nat)
    requires legs != [] && AllLegs(legs, to)
    ensures Least(legs) >= to
  {
    if |legs| > 1 {
      LeastHolds(legs[..|legs| - 1], to);
    }
  }

  lemma {:induction false} ArrayStep(w: World, a: Answers)
    requires w.expanding.Some? && ArrayTells(w) && AllLegs(w.legs, w.expanding.value.to) && (w.raid.Some? ==> w.legs != [])
    ensures var (g, ok) := ArrayOf(w, a);
            && g.expanding.Some? && g.expanding.value.to == w.expanding.value.to && ArrayTells(g)
            && (ok && g.raid.Some? ==> g.raid.value >= w.expanding.value.to)
  {
    if w.raid.Some? {
      LeastHolds(w.legs, w.expanding.value.to);
    }
  }

  lemma {:induction false} RaiseTells(w: World, to0: nat)
    requires LegsHold(w) && ArrayTells(w) && MayRaise(w, to0)
    ensures ArrayTells(Recorded(w, Target(w, to0)))
  {
  }

  lemma {:induction false} GrowsOn(l: World, to: nat, a: Answers)
    requires l.expanding.Some? && l.expanding.value.to == to && ArrayTells(l) && AllLegs(l.legs, to)
    requires l.raid.Some? ==> l.legs != []
    ensures var (g, arrayOk) := ArrayOf(l, a);
            ArrayTells(g) && (arrayOk ==>
              var (s, servedOk) := ServedOf(g, to, a);
              ArrayTells(s) && (servedOk ==> AllGrew(s.(size := to, expanding := None))))
  {
    ArrayStep(l, a);
  }

  lemma {:induction false} LegsTell(r: World, to: nat, a: Answers)
    requires r.expanding.Some? && r.expanding.value.to == to && ArrayTells(r) && (r.raid.Some? ==> r.legs != [])
    ensures var (l, ok) := LegsOf(r, to, a);
            && l.size == r.size && ArrayTells(l) && l.expanding.Some? && l.expanding.value.to == to
            && (l.raid.Some? ==> l.legs != []) && (ok ==> AllLegs(l.legs, to))
  {
  }

  lemma {:induction false} TryTells(w: World, to0: nat, a: Answers)
    requires LegsHold(w) && ArrayTells(w) && MayRaise(w, to0) && (w.raid.Some? ==> w.legs != [])
    ensures ArrayTells(TryOf(w, to0, a))
    ensures TryOf(w, to0, a).size != w.size ==> AllGrew(TryOf(w, to0, a))
  {
    var to := Target(w, to0);
    if (to == w.size && w.expanding.None?) || to < w.size || a.refused { return; }
    var r := Recorded(w, to);
    RaiseTells(w, to0);
    if r.expanding.value.short { return; }
    LegsTell(r, to, a);
    var (l, legsOk) := LegsOf(r, to, a);
    if legsOk { GrowsOn(l, to, a); }
  }

  predicate Tells(w: World) {
    LegsHold(w) && ArrayTells(w) && (w.raid.Some? ==> w.legs != [])
  }

  lemma {:induction false} StepKind(w: World, s: Step)
    ensures |Do(w, s).legs| == |w.legs| && (Do(w, s).raid.Some? <==> w.raid.Some?)
  {
  }

  lemma {:induction false} StepTells(w: World, s: Step)
    requires Tells(w) && (s.Try? ==> MayRaise(w, s.to))
    ensures Tells(Do(w, s))
  {
    StepKind(w, s);
    StepKeepsLegs(w, s);
    if s.Try? { TryTells(w, s.to, s.answers); }
  }

  lemma {:induction false} RunTells(w: World, run: seq<Step>)
    requires Tells(w) && MayRaiseThrough(w, run)
    ensures Tells(After(w, run))
  {
    if run != [] {
      var front := run[..|run| - 1];
      assert forall i :: 0 <= i < |front| ==> front[i] == run[i] && front[..i] == run[..i];
      RunTells(w, front);
      StepTells(After(w, front), run[|run| - 1]);
    }
  }

  /**
   * In a run that raises no target once the array has grown, the size moves only when every leg, the array and the
   * served volume have it: across failed tries, lost answers, refusals and legs replaced in between.
   */
  lemma {:induction false} SizeMovesLast(w: World, run: seq<Step>, i: nat)
    requires Tells(w) && MayRaiseThrough(w, run)
    requires i < |run| && After(w, run[..i + 1]).size != After(w, run[..i]).size
    ensures AllGrew(After(w, run[..i + 1]))
  {
    var front := run[..i];
    assert forall j :: 0 <= j < |front| ==> front[j] == run[j] && front[..j] == run[..j];
    RunTells(w, front);
    assert run[..i + 1][..i] == front;
    if run[i].Try? { TryTells(After(w, front), run[i].to, run[i].answers); }
  }

  /** A try in which all engines answer, but for a grow that is refused for some other reason. */
  function Smooth(w: World): Answers {
    Answers(false, |w.legs|, false, true, GrowRefused, true, true, true)
  }

  lemma {:induction false} AnEarlyRaiseIsNeeded(w: World, to: nat)
    requires Tells(w) && w.expanding.Some? && !w.expanding.value.short && !MayRaise(w, to)
    ensures var n := TryOf(w, to, Smooth(w)); n.size == to > w.size && !AllGrew(n)
  {
  }

  /**
   * The condition is exact: a target may be raised exactly when no answers of the engines can make the try record a
   * size that something under it does not have. Past that point a grow that is refused, or skipped, is enough.
   */
  lemma {:induction false} ARaiseIsSafeExactly(w: World, to: nat)
    requires Tells(w) && w.expanding.Some? && !w.expanding.value.short
    ensures MayRaise(w, to) <==> forall a :: TryOf(w, to, a).size != w.size ==> AllGrew(TryOf(w, to, a))
  {
    if MayRaise(w, to) {
      forall a ensures TryOf(w, to, a).size != w.size ==> AllGrew(TryOf(w, to, a)) { TryTells(w, to, a); }
    } else {
      AnEarlyRaiseIsNeeded(w, to);
    }
  }
}
