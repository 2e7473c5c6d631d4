/** What one try of an expand does to the record, the legs, the array and the served volume (src/expand.rs, by the fields). */
module ExpandAnswers {
  import opened Wrappers
  import opened Expand

  /** The size is the one asked for, or that of an expand in flight when that is larger. */
  predicate AsksFor(w: World, asked: nat, to: nat) {
    && to >= asked && (to > asked ==> w.expanding.Some? && to == w.expanding.value.to)
    && (w.expanding.Some? ==> to >= w.expanding.value.to)
  }

  lemma {:induction false} TargetIs(w: World, asked: nat)
    ensures forall to :: AsksFor(w, asked, to) <==> to == Target(w, asked)
  {
  }

  /** The try gets to the engines: there is something to do, and the slab had room when it was last asked. */
  predicate Begins(w: World, to: nat, a: Answers) {
    && to >= w.size && (to > w.size || w.expanding.Some?) && !a.refused
    && (w.expanding.Some? ==> !w.expanding.value.short)
  }

  /** All its legs are grown. */
  predicate LegsDone(w: World, to: nat, a: Answers) {
    Begins(w, to, a) && |w.legs| <= a.legsDone
  }

  predicate GrownBefore(w: World) {
    w.expanding.Some? && w.expanding.value.grown
  }

  predicate Known(w: World) {
    w.expanding.Some? && w.expanding.value.before.Some?
  }

  /** The array's size as it was first read, by an earlier try or now. */
  function First(w: World): nat
    requires w.raid.Some?
  {
    if Known(w) then w.expanding.value.before.value else w.raid.value
  }

  /** The array is asked to grow. */
  predicate AsksArray(w: World, to: nat, a: Answers) {
    LegsDone(w, to, a) && !GrownBefore(w) && w.raid.Some? && (Known(w) || a.sizeRead)
  }

  /** There is no array, or it grew: at an earlier try, at this one, or at one whose answer was lost. */
  predicate ArrayDone(w: World, to: nat, a: Answers) {
    && LegsDone(w, to, a)
    && (w.raid.None? || GrownBefore(w)
        || (AsksArray(w, to, a)
            && (a.grow == Grew(false) || (a.grow == GrowRefused && a.sizeReadAgain && w.raid.value > First(w)))))
  }

  /** Every engine under the size has it, and said so. */
  predicate Completes(w: World, to: nat, a: Answers) {
    ArrayDone(w, to, a) && (w.served.None? || (a.servedAnswers && (a.servedGrew || w.served.value >= to)))
  }

  predicate Largest(n: nat, a: nat, b: nat) {
    n >= a && n >= b && (n == a || n == b)
  }

  lemma {:induction false} LeastIs(legs: seq<nat>)
    requires legs != []
    ensures exists i :: LeastLeg(legs, i) && legs[i] == Least(legs)
  {
    if |legs| == 1 {
      assert LeastLeg(legs, 0);
    } else {
      var init := legs[..|legs| - 1];
      LeastIs(init);
      var i :| LeastLeg(init, i) && init[i] == Least(init);
      assert LeastLeg(legs, if legs[|init|] < Least(init) then |init| else i);
      assert forall k :: 0 <= k < |init| ==> init[k] == legs[k];
    }
  }

  /** A try that gets to the engines is the legs' part, the array's and the served volume's, each after the one before. */
  lemma {:induction false} TryIs(w: World, asked: nat, a: Answers, to: nat)
    requires AsksFor(w, asked, to) && Begins(w, to, a)
    ensures var l := LegsOf(Recorded(w, to), to, a).0;
            && l.expanding.Some? && l.raid == w.raid && l.served == w.served
            && LegsGrown(w, to, a, l.legs)
            && var g := ArrayOf(l, a);
               var n := TryOf(w, asked, a);
               && n.legs == l.legs
               && (LegsDone(w, to, a) ==>
                     n.raid == g.0.raid && (n.expanding.Some? ==> n.expanding == g.0.expanding))
               && (!LegsDone(w, to, a) ==> n.raid == w.raid && n.expanding == l.expanding)
  {
    TargetIs(w, asked);
  }

  /** The array gets the room the least leg has, exactly when it was asked and grew, answered or not. */
  lemma {:induction false} ArrayAfter(w: World, asked: nat, a: Answers, to: nat)
    requires AsksFor(w, asked, to)
    ensures var n := TryOf(w, asked, a);
            if w.legs != [] && AsksArray(w, to, a) && (a.grow.Grew? || a.grow == GrowLost(true))
            then n.raid.Some? && exists i :: LeastLeg(n.legs, i) && Largest(n.raid.value, w.raid.value, n.legs[i])
            else n.raid == w.raid
  {
    TargetIs(w, asked);
    if Begins(w, to, a) {
      var l := LegsOf(Recorded(w, to), to, a).0;
      TryIs(w, asked, a, to);
      if w.legs != [] {
        LeastIs(l.legs);
        var i :| LeastLeg(l.legs, i) && l.legs[i] == Least(l.legs);
      }
    }
  }

  /** The legs grown are the first ones, up to where an engine did not answer, and there it may have been. */
  predicate LegsGrown(w: World, to: nat, a: Answers, legs: seq<nat>) {
    && |legs| == |w.legs|
    && forall i :: 0 <= i < |legs| ==>
         if i < a.legsDone || (i == a.legsDone && a.legLost) then Largest(legs[i], w.legs[i], to) else legs[i] == w.legs[i]
  }

  lemma {:induction false} LegsAfter(w: World, asked: nat, a: Answers, to: nat)
    requires AsksFor(w, asked, to)
    ensures Begins(w, to, a) ==> LegsGrown(w, to, a, TryOf(w, asked, a).legs)
    ensures !Begins(w, to, a) ==> TryOf(w, asked, a).legs == w.legs
  {
    TargetIs(w, asked);
    if Begins(w, to, a) { TryIs(w, asked, a, to); }
  }

  predicate LeastLeg(legs: seq<nat>, i: int) {
    0 <= i < |legs| && forall j :: 0 <= j < |legs| ==> legs[i] <= legs[j]
  }

  lemma {:induction false} ArrayGoesOn(w: World, to: nat, a: Answers)
    requires LegsDone(w, to, a) && to == Target(w, to)
    ensures var l := LegsOf(Recorded(w, to), to, a);
            && l.1 && l.0.size == w.size && l.0.expanding.Some? && l.0.served == w.served
            && var g := ArrayOf(l.0, a);
               && (g.1 <==> ArrayDone(w, to, a))
               && g.0.size == w.size && g.0.expanding.Some? && g.0.served == w.served
  {
  }

  lemma {:induction false} ServedIs(g: World, to: nat, a: Answers)
    ensures var s := ServedOf(g, to, a);
            && s.0 == g.(served := s.0.served)
            && (s.1 <==> g.served.None? || (a.servedAnswers && (a.servedGrew || g.served.value >= to)))
            && s.0.served == if g.served.Some? && a.servedGrew && g.served.value < to then Some(to) else g.served
  {
  }

  /** The size is recorded exactly when everything under it has it; only then is the expand over. */
  lemma {:induction false} CompletesExactly(w: World, asked: nat, a: Answers, to: nat)
    requires AsksFor(w, asked, to)
    ensures var n := TryOf(w, asked, a);
            && n.size == (if Completes(w, to, a) then to else w.size)
            && (n.expanding.None? <==> Completes(w, to, a) || (w.expanding.None? && (a.refused || to <= w.size)))
            && (n.served == if w.served.Some? && ArrayDone(w, to, a) && a.servedGrew && w.served.value < to then Some(to)
                            else w.served)
  {
    TargetIs(w, asked);
    if LegsDone(w, to, a) {
      var g := ArrayOf(LegsOf(Recorded(w, to), to, a).0, a);
      ArrayGoesOn(w, to, a);
      ServedIs(g.0, to, a);
      var s := ServedOf(g.0, to, a);
      assert TryOf(w, asked, a) == if !g.1 then g.0 else if s.1 then s.0.(size := to, expanding := None) else s.0;
    }
  }

  /** What is on record of one in flight: its size, the array's first size, whether that grew and whether it was short. */
  lemma {:induction false} ExpansionAfter(w: World, asked: nat, a: Answers, to: nat)
    requires AsksFor(w, asked, to) && TryOf(w, asked, a).expanding.Some?
    ensures var n := TryOf(w, asked, a).expanding.value;
            if a.refused || to < w.size then Some(n) == w.expanding
            else
              && n.to == to
              && n.before == (if Known(w) || AsksArray(w, to, a) then BeforeOf(w) else None)
              && (n.grown <==> GrownBefore(w)
                               || (AsksArray(w, to, a)
                                   && (a.grow.Grew? || (a.grow == GrowRefused && a.sizeReadAgain && w.raid.value > First(w)))))
              && (n.short <==> (w.expanding.Some? && w.expanding.value.short)
                               || (AsksArray(w, to, a) && a.grow == Grew(true)))
  {
    TargetIs(w, asked);
  }

  function BeforeOf(w: World): Option<nat> {
    if Known(w) then w.expanding.value.before else w.raid
  }

  /** Between tries a leg is made at the larger of the size on record and that of an expand in flight. */
  lemma {:induction false} RelegAfter(w: World, leg: nat)
    ensures var n := RelegOf(w, leg);
            && n == w.(legs := n.legs) && |n.legs| == |w.legs|
            && forall i :: 0 <= i < |w.legs| ==>
                 if i != leg then n.legs[i] == w.legs[i]
                 else if w.expanding.Some? then Largest(n.legs[i], w.size, w.expanding.value.to) else n.legs[i] == w.size
  {
  }
}
