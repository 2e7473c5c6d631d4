/**
  Live migration of a volume in use from node S to node T (src/vmmigrate.rs). The operations of one migration take
  turns (they hold its claim), so a run is a sequence of them; each says how far it got, an engine's error and a
  crash of this process in the middle included.
*/
module VmMigration {
  import opened Wrappers

  datatype State = Starting | Copying | Synced | CutOver | Completed | Aborted | Failed

  datatype MirrorState = InSync | Copies | Broken

  /** S's mirror as its engine reports it. */
  datatype Reading = Reading(target: string, state: MirrorState, total: nat, remaining: nat)

  /** `volume` and `local` are T's ids once recorded, `attach` the URI T's volume is served to S at. */
  datatype Record = Record(
    state: State, aborting: bool, volume: bool, local: bool, attach: Option<string>, mirror: Option<string>,
    total: nat, remaining: nat)

  /** The record, and whether S's and T's volumes exist. */
  datatype World = World(r: Record, source: bool, target: bool)

  // --------------------------------------------------------------- readings

  function WithReading(r: Record, reading: Option<Reading>): Record {
    if !(r.state == Copying || r.state == Synced) || r.aborting then r
    else
      match reading
      case None => r.(state := Failed)
      case Some(x) =>
        if Some(x.target) != r.mirror then r.(state := Failed)
        else
          r.(total := x.total, remaining := x.remaining,
             state := match x.state case InSync => Synced case Copies => Copying case Broken => Failed)
  }

  // ------------------------------------------------------------------ start

  /** How far a start got: what was done last, and recorded but for `Made` and `Mirrored`. */
  datatype Reached = NoTarget | Made | Recorded | Located | Attached | Mirrored | All

  /** A start's answers. `died`: this process stopped where it got to; else the next call failed. */
  datatype Answers = Answers(reached: Reached, died: bool, uri: string, current: Option<Reading>, started: Reading)

  /** The volume on T, made unless it is recorded; a name that is taken is refused. */
  function Making(w: World, a: Answers): World {
    if a.reached.NoTarget? || w.r.volume || w.target then w else w.(target := true, r := w.r.(volume := !a.reached.Made?))
  }

  function UriOf(r: Record, a: Answers): string {
    if r.attach.Some? then r.attach.value else a.uri
  }

  /** S's mirror to T is adopted when it is there and works, else started. */
  function MirrorRead(r: Record, a: Answers): Reading {
    if a.current.Some? && a.current.value.target == UriOf(r, a) && a.current.value.state != Broken then a.current.value
    else a.started
  }

  predicate Advances(w: World) {
    w.r.state == Starting && !w.r.aborting
  }

  predicate GotTarget(w: World, a: Answers) {
    !a.reached.NoTarget? && !a.reached.Made? && (w.r.volume || !w.target)
  }

  function AdvanceOf(w: World, a: Answers): World {
    if !Advances(w) then w
    else if !GotTarget(w, a) then Making(w, a)
    else
      var m := Making(w, a);
      var r := m.r;
      if a.reached.Recorded? then m
      else if a.reached.Located? then m.(r := r.(local := true))
      else
        var at := r.(local := true, attach := Some(UriOf(r, a)));
        if a.reached.Attached? || a.reached.Mirrored? then m.(r := at)
        else m.(r := WithReading(at.(mirror := at.attach, state := Copying), Some(MirrorRead(r, a))))
  }

  /** The reconciler's start: one that errs is recorded as failed. */
  function StartOf(w: World, a: Answers): World {
    var n := AdvanceOf(w, a);
    if Advances(w) && n.r.state == Starting && !a.died then n.(r := n.r.(state := Failed)) else n
  }

  // ------------------------------------------------------------ switch-over

  datatype Stop = NoAnswer | Stopped(synced: bool, flushed: bool)

  datatype Switch = Switch(sourceUp: bool, live: Option<Option<Reading>>, stop: Stop, died: bool, withdrawn: bool)

  function Withdrawn(r: Record, ok: bool): Record {
    if ok then r.(attach := None) else r
  }

  predicate MaySwitch(r: Record, x: Switch) {
    && !r.aborting && (r.state == Copying || r.state == Synced) && x.sourceUp
    && (if x.live.Some? then WithReading(r, x.live.value) else r).state == Synced
  }

  /** T is exact only when S's mirror stopped synced and T was flushed. */
  function CutoverOf(r: Record, x: Switch): Record {
    if r.aborting then r
    else if r.state == CutOver || r.state == Completed then Withdrawn(r, x.withdrawn)
    else if !MaySwitch(r, x) || x.stop.NoAnswer? || x.died then r
    else if !(x.stop.synced && x.stop.flushed) then r.(state := Failed)
    else Withdrawn(r.(state := CutOver, remaining := 0), x.withdrawn)
  }

  // --------------------------------------------------------------- complete

  /** `died`: after S's volume was deleted and before that was recorded. */
  datatype Retire = Retire(sourceUp: bool, deleted: bool, died: bool, withdrawn: bool)

  function CompleteOf(w: World, x: Retire): World {
    if w.r.state != CutOver || w.r.aborting || !x.sourceUp || !x.deleted then w
    else if x.died then w.(source := false)
    else w.(source := false, r := Withdrawn(w.r, x.withdrawn).(state := Completed))
  }

  // ------------------------------------------------------------------ abort

  /** An abort fails before it deleted T's volume, or after that, or is done. */
  datatype Abort = Held | Undone | Finished

  function AbortOf(w: World, x: Abort): World {
    if w.r.state == Aborted || w.r.state == Completed then w
    else
      var gone := w.(r := w.r.(aborting := true), target := w.target && (x.Held? || !(w.r.volume || w.r.local)));
      if x.Finished? then gone.(r := gone.r.(state := Aborted, aborting := false, attach := None)) else gone
  }

  // ------------------------------------------------------------------ retry

  datatype Again = Again(sourceUp: bool, reading: Option<Option<Reading>>, stopped: bool, died: bool, start: Answers)

  predicate MayRetry(r: Record, x: Again) {
    && !r.aborting && r.state == Failed && x.sourceUp && x.reading.Some?
    && (x.reading.value.Some? ==>
          (Some(x.reading.value.value.target) == r.mirror || x.reading.value.value.state == Broken) && x.stopped)
  }

  function RetryOf(w: World, x: Again): World {
    if !MayRetry(w.r, x) then w
    else
      var n := w.(r := w.r.(state := Starting, mirror := None));
      if x.died then n else StartOf(n, x.start)
  }

  // ------------------------------------------------------------------- runs

  datatype Step =
    | Start(answers: Answers)
    | Refresh(reading: Option<Reading>)
    | Cutover(switch: Switch)
    | Complete(retire: Retire)
    | AbortStep(abort: Abort)
    | Retry(again: Again)
    | Withdraw(ok: bool)

  function Do(w: World, s: Step): World {
    match s
    case Start(a) => StartOf(w, a)
    case Refresh(reading) => w.(r := WithReading(w.r, reading))
    case Cutover(x) => w.(r := CutoverOf(w.r, x))
    case Complete(x) => CompleteOf(w, x)
    case AbortStep(x) => AbortOf(w, x)
    case Retry(x) => RetryOf(w, x)
    case Withdraw(ok) => if w.r.state == CutOver || w.r.state == Completed then w.(r := Withdrawn(w.r, ok)) else w
  }

  function After(w: World, run: seq<Step>): World {
    if run == [] then w else Do(After(w, run[..|run| - 1]), run[|run| - 1])
  }

  // -------------------------------------------------------------- the record

  class Migration {
    var state: State
    var aborting: bool
    var volume: bool
    var local: bool
    var attach: Option<string>
    var mirror: Option<string>
    var total: nat
    var remaining: nat
    var source: bool
    var target: bool

    /** A migration as it is first asked for. */
    constructor ()
      ensures View() == World(Record(Starting, false, false, false, None, None, 0, 0), true, false)
    {
      state, aborting, volume, local, attach, mirror, total, remaining := Starting, false, false, false, None, None, 0, 0;
      source, target := true, false;
    }

    function View(): World
      reads this
    {
      World(Record(state, aborting, volume, local, attach, mirror, total, remaining), source, target)
    }

    method ApplyReading(reading: Option<Reading>) returns (changed: Option<State>)
      modifies this`state, this`total, this`remaining
      ensures View() == old(View()).(r := WithReading(old(View()).r, reading))
      ensures changed == if state != old(state) then Some(state) else None
    {
      if !(state == Copying || state == Synced) || aborting {
        return None;
      }
      var before := state;
      match reading {
        case None => state := Failed;
        case Some(x) =>
          if Some(x.target) != mirror {
            state := Failed;
          } else {
            total, remaining := x.total, x.remaining;
            match x.state {
              case InSync => state := Synced;
              case Copies => state := Copying;
              case Broken => state := Failed;
            }
          }
      }
      changed := if state != before then Some(state) else None;
    }

    /** The starting steps not yet recorded, each recorded before the next. */
    method Advance(a: Answers) returns (ok: bool)
      modifies this
      ensures View() == AdvanceOf(old(View()), a)
      ensures ok <==> !Advances(old(View())) || (GotTarget(old(View()), a) && a.reached.All?)
    {
      if state != Starting || aborting {
        return true;
      }
      ok := false;
      if a.reached.NoTarget? {
        return;
      }
      if !volume {
        if target {
          return;
        }
        target := true;
        if a.reached.Made? {
          return;
        }
        volume := true;
      }
      if a.reached.Made? || a.reached.Recorded? {
        return;
      }
      local := true;
      if a.reached.Located? {
        return;
      }
      if attach.None? {
        attach := Some(a.uri);
      }
      if a.reached.Attached? || a.reached.Mirrored? {
        return;
      }
      var uri := attach.value;
      var reading := a.started;
      if a.current.Some? && a.current.value.target == uri && a.current.value.state != Broken {
        reading := a.current.value;
      }
      mirror, state := Some(uri), Copying;
      var _ := ApplyReading(Some(reading));
      ok := true;
    }

    method Fail()
      modifies this`state
      ensures state == Failed
    {
      state := Failed;
    }

    method Cutover(x: Switch) returns (ok: bool)
      modifies this`state, this`remaining, this`attach
      ensures View() == old(View()).(r := CutoverOf(old(View()).r, x))
      ensures ok ==> state == CutOver || state == Completed
    {
      ok := false;
      if aborting {
        return;
      }
      if state == CutOver || state == Completed {
        attach := if x.withdrawn then None else attach;
        return true;
      }
      if !(state == Copying || state == Synced) || !x.sourceUp {
        return;
      }
      var r := Record(state, aborting, volume, local, attach, mirror, total, remaining);
      var now := if x.live.Some? then WithReading(r, x.live.value) else r;
      if now.state != Synced || x.stop.NoAnswer? || x.died {
        return;
      }
      if !(x.stop.synced && x.stop.flushed) {
        state := Failed;
        return;
      }
      state, remaining := CutOver, 0;
      attach := if x.withdrawn then None else attach;
      ok := true;
    }

    /** Retire S's volume. */
    method Complete(x: Retire) returns (ok: bool)
      modifies this`state, this`attach, this`source
      ensures View() == CompleteOf(old(View()), x)
      ensures ok ==> state == Completed
    {
      ok := false;
      if state == Completed {
        return true;
      }
      if state != CutOver || aborting || !x.sourceUp || !x.deleted {
        return;
      }
      source := false;
      if x.died {
        return;
      }
      attach := if x.withdrawn then None else attach;
      state := Completed;
      ok := true;
    }

    /** Stop S's mirror and delete T's volume; what fails is tried again. */
    method Abandon(x: Abort) returns (ok: bool)
      modifies this
      ensures View() == AbortOf(old(View()), x)
      ensures ok ==> state == Aborted
    {
      ok := false;
      if state == Aborted {
        return true;
      }
      if state == Completed {
        return;
      }
      aborting := true;
      if x.Held? {
        return;
      }
      if volume || local {
        target := false;
      }
      if x.Undone? {
        return;
      }
      state, aborting, attach := Aborted, false, None;
      ok := true;
    }

    method Retry(x: Again) returns (ok: bool)
      modifies this
      ensures View() == RetryOf(old(View()), x)
    {
      ok := false;
      if aborting || state != Failed || !x.sourceUp || x.reading.None? {
        return;
      }
      var reading := x.reading.value;
      if reading.Some? {
        if !(Some(reading.value.target) == mirror || reading.value.state == Broken) || !x.stopped {
          return;
        }
      }
      state, mirror := Starting, None;
      if x.died {
        return;
      }
      ok := Advance(x.start);
      if !ok && !x.start.died {
        Fail();
      }
    }
  }

  // --------------------------------------------------------------- theorems

  predicate Fresh(w: World) {
    w.source && !w.target && w.r == Record(Starting, false, false, false, None, None, 0, 0)
  }

  /** Past the start T's volume is on record; it is there until an abort deletes it, and for good once completed. */
  predicate Inv(w: World) {
    && (w.r.state == Copying || w.r.state == Synced || w.r.state == CutOver || w.r.state == Completed ==> w.r.volume)
    && (w.r.volume && !w.r.aborting && w.r.state != Aborted ==> w.target)
    && (w.r.state == Completed || w.r.state == Aborted ==> !w.r.aborting)
  }

  /** A retire deletes S's volume, and this process stops before it records that. */
  predicate DiesRetiring(w: World, s: Step) {
    && s.Complete? && w.r.state == CutOver && !w.r.aborting
    && s.retire.sourceUp && s.retire.deleted && s.retire.died
  }

  /** An abort, of a migration that was cut over too, gets as far as deleting T's volume. */
  predicate DeletesTarget(w: World, s: Step) {
    && s.AbortStep? && !s.abort.Held? && w.r.state != Aborted && w.r.state != Completed && (w.r.volume || w.r.local)
  }

  lemma {:induction false} StartKeeps(w: World, a: Answers)
    requires Inv(w)
    ensures Inv(StartOf(w, a)) && StartOf(w, a).source == w.source
    ensures StartOf(w, a).r.state != Completed || w.r.state == Completed
    ensures StartOf(w, a).r.state == w.r.state || w.r.state == Starting
    ensures StartOf(w, a).r.state != CutOver || w.r.state == CutOver
  {
  }

  lemma {:induction false} StepKeepsInv(w: World, s: Step)
    requires Inv(w)
    ensures Inv(Do(w, s))
  {
    match s
    case Start(a) => StartKeeps(w, a);
    case Retry(x) => if MayRetry(w.r, x) { StartKeeps(w.(r := w.r.(state := Starting, mirror := None)), x.start); }
    case _ =>
  }

  /** Only retiring it takes S's volume away, and before `Completed` only a retire that dies. */
  lemma {:induction false} StepKeepsSource(w: World, s: Step)
    requires Inv(w)
    ensures !w.source ==> !Do(w, s).source
    ensures w.source && !Do(w, s).source ==> DiesRetiring(w, s) || Do(w, s).r.state == Completed
    ensures DiesRetiring(w, s) ==> !Do(w, s).source && Do(w, s).r.state == CutOver
    ensures w.r.state == Completed || w.r.state == Aborted ==> Do(w, s).r.state == w.r.state
  {
    match s
    case Start(a) => StartKeeps(w, a);
    case Retry(x) => if MayRetry(w.r, x) { StartKeeps(w.(r := w.r.(state := Starting, mirror := None)), x.start); }
    case _ =>
  }

  /** A switch-over whose stop answered synced and flushed. */
  predicate ExactSwitch(w: World, s: Step) {
    s.Cutover? && MaySwitch(w.r, s.switch) && s.switch.stop == Stopped(true, true) && !s.switch.died
  }

  lemma {:induction false} OnlyExactSwitches(w: World, s: Step)
    requires Inv(w)
    ensures Do(w, s).r.state == CutOver ==> w.r.state == CutOver || ExactSwitch(w, s)
    ensures Do(w, s).r.state == Completed ==> w.r.state == CutOver || w.r.state == Completed
  {
    match s
    case Start(a) => StartKeeps(w, a);
    case Retry(x) => if MayRetry(w.r, x) { StartKeeps(w.(r := w.r.(state := Starting, mirror := None)), x.start); }
    case _ =>
  }

  /** S's volume is there, or its deletion is on record. */
  predicate SourceKept(w: World) {
    w.r.state != Completed ==> w.source
  }

  predicate NoneDies(w: World, run: seq<Step>) {
    forall i :: 0 <= i < |run| ==> !DiesRetiring(After(w, run[..i]), run[i])
  }

  lemma {:induction false} FrontNoneDies(w: World, run: seq<Step>)
    requires run != [] && NoneDies(w, run)
    ensures NoneDies(w, run[..|run| - 1]) && !DiesRetiring(After(w, run[..|run| - 1]), run[|run| - 1])
  {
    var last := |run| - 1;
    forall i | 0 <= i < last ensures !DiesRetiring(After(w, run[..last][..i]), run[..last][i]) {
      assert run[..last][..i] == run[..i];
    }
  }

  lemma {:induction false} RunKeepsInv(w: World, run: seq<Step>)
    requires Inv(w)
    ensures Inv(After(w, run))
  {
    if run != [] {
      RunKeepsInv(w, run[..|run| - 1]);
      StepKeepsInv(After(w, run[..|run| - 1]), run[|run| - 1]);
    }
  }

  lemma {:induction false} SourceStays(w: World, run: seq<Step>)
    requires Inv(w) && SourceKept(w) && NoneDies(w, run)
    ensures SourceKept(After(w, run))
  {
    if run != [] {
      FrontNoneDies(w, run);
      SourceStays(w, run[..|run| - 1]);
      RunKeepsInv(w, run[..|run| - 1]);
      StepKeepsSource(After(w, run[..|run| - 1]), run[|run| - 1]);
    }
  }

  lemma {:induction false} PrefixNoneDies(w: World, run: seq<Step>, i: nat)
    requires i <= |run| && NoneDies(w, run)
    ensures NoneDies(w, run[..i])
  {
    forall j | 0 <= j < i ensures !DiesRetiring(After(w, run[..i][..j]), run[..i][j]) {
      assert run[..i][..j] == run[..j];
    }
  }

  /** S's volume is there at every point before the migration completes, exactly when no retire dies once it deleted it. */
  lemma {:induction false} SourceIsKeptExactly(w: World, run: seq<Step>)
    requires Fresh(w)
    ensures (forall i :: 0 <= i <= |run| ==> SourceKept(After(w, run[..i]))) <==> NoneDies(w, run)
  {
    if NoneDies(w, run) {
      forall i | 0 <= i <= |run| ensures SourceKept(After(w, run[..i])) {
        PrefixNoneDies(w, run, i);
        SourceStays(w, run[..i]);
      }
    } else {
      var i :| 0 <= i < |run| && DiesRetiring(After(w, run[..i]), run[i]);
      RunKeepsInv(w, run[..i]);
      StepKeepsSource(After(w, run[..i]), run[i]);
      assert run[..i + 1][..i] == run[..i];
      assert !SourceKept(After(w, run[..i + 1]));
    }
  }

  /** A migration is cut over and completed only after a stop that answered synced and flushed. */
  lemma {:induction false} OnlyExactCopies(w: World, run: seq<Step>)
    requires Fresh(w)
    ensures var n := After(w, run);
            n.r.state == CutOver || n.r.state == Completed ==>
              exists i :: 0 <= i < |run| && ExactSwitch(After(w, run[..i]), run[i])
  {
    if run != [] {
      var last := |run| - 1;
      OnlyExactCopies(w, run[..last]);
      RunKeepsInv(w, run[..last]);
      OnlyExactSwitches(After(w, run[..last]), run[last]);
      var state := After(w, run).r.state;
      if (state == CutOver || state == Completed) && !ExactSwitch(After(w, run[..last]), run[last]) {
        var i :| 0 <= i < last && ExactSwitch(After(w, run[..last][..i]), run[..last][i]);
        assert run[..last][..i] == run[..i];
        assert ExactSwitch(After(w, run[..i]), run[i]);
      }
    }
  }

  /**
   * In every run in which no retire dies once it deleted S's volume, that is there until the migration completes; once
   * completed T's is there, and it was cut over after a stop that answered synced and flushed.
   */
  lemma {:induction false} TheDiskIsNeverLost(w: World, run: seq<Step>)
    requires Fresh(w) && NoneDies(w, run)
    ensures var n := After(w, run);
            && Inv(n) && (n.r.state != Completed ==> n.source)
            && (n.r.state == Completed ==> n.target)
            && (n.r.state == CutOver || n.r.state == Completed ==>
                  exists i :: 0 <= i < |run| && ExactSwitch(After(w, run[..i]), run[i]))
  {
    RunKeepsInv(w, run);
    SourceStays(w, run);
    OnlyExactCopies(w, run);
  }

  // ----------------------------------------------------- when the disk is lost

  predicate DiskLost(w: World) {
    !w.source && !w.target
  }

  /** Neither is made again: S's volume for good, and T's only by a start that had none. */
  lemma {:induction false} StepLosesDisk(w: World, s: Step)
    requires Inv(w)
    ensures w.target && !Do(w, s).target ==> DeletesTarget(w, s)
    ensures DeletesTarget(w, s) ==> !Do(w, s).target
    ensures w.source && !Do(w, s).source ==> Do(w, s).target
  {
    match s
    case Start(a) => StartKeepsTarget(w, a);
    case Retry(x) => if MayRetry(w.r, x) { StartKeepsTarget(w.(r := w.r.(state := Starting, mirror := None)), x.start); }
    case _ =>
  }

  lemma {:induction false} StartKeepsTarget(w: World, a: Answers)
    ensures w.target ==> StartOf(w, a).target
    ensures StartOf(w, a).source == w.source
  {
  }

  /** Without S's volume a migration is cut over, completed or aborted: it starts nothing. */
  lemma {:induction false} GoneSourceWas(w: World, run: seq<Step>)
    requires Fresh(w)
    ensures var n := After(w, run);
            !n.source ==> n.r.state == Completed || exists i :: 0 <= i < |run| && DiesRetiring(After(w, run[..i]), run[i])
  {
    if !(exists i :: 0 <= i < |run| && DiesRetiring(After(w, run[..i]), run[i])) {
      SourceStays(w, run);
    }
  }

  /** A retire died, and an abort deleted T's volume after it. */
  predicate DiedThenAborted(w: World, run: seq<Step>, i: nat, j: nat) {
    i < j < |run| && DiesRetiring(After(w, run[..i]), run[i]) && DeletesTarget(After(w, run[..j]), run[j])
  }

  lemma {:induction false} LostByBoth(w: World, run: seq<Step>)
    requires Fresh(w) && DiskLost(After(w, run))
    ensures exists i: nat, j: nat :: DiedThenAborted(w, run, i, j)
  {
    var last := |run| - 1;
    var m := After(w, run[..last]);
    RunKeepsInv(w, run[..last]);
    if DiskLost(m) {
      LostByBoth(w, run[..last]);
      var i: nat, j: nat :| DiedThenAborted(w, run[..last], i, j);
      assert run[..last][..i] == run[..i] && run[..last][..j] == run[..j];
      assert DiedThenAborted(w, run, i, j);
    } else {
      StepLosesDisk(m, run[last]);
      GoneSourceWas(w, run[..last]);
      var i :| 0 <= i < last && DiesRetiring(After(w, run[..last][..i]), run[..last][i]);
      assert run[..last][..i] == run[..i];
      assert DiedThenAborted(w, run, i, last);
    }
  }

  lemma {:induction false} SourceStaysGone(w: World, run: seq<Step>, i: nat, j: nat)
    requires Inv(w) && i <= j <= |run| && !After(w, run[..i]).source
    ensures !After(w, run[..j]).source
    decreases j
  {
    if i < j {
      SourceStaysGone(w, run, i, j - 1);
      RunKeepsInv(w, run[..j - 1]);
      StepKeepsSource(After(w, run[..j - 1]), run[j - 1]);
      assert run[..j][..j - 1] == run[..j - 1];
    }
  }

  /**
   * Neither node holds the disk at some point of a run, exactly when a retire died once it had deleted S's volume and an
   * abort, which a migration that is cut over still allows, deleted T's later.
   */
  lemma {:induction false} TheDiskIsLostExactly(w: World, run: seq<Step>)
    requires Fresh(w)
    ensures (exists k :: 0 <= k <= |run| && DiskLost(After(w, run[..k]))) <==> exists i: nat, j: nat :: DiedThenAborted(w, run, i, j)
  {
    if k :| 0 <= k <= |run| && DiskLost(After(w, run[..k])) {
      LostByBoth(w, run[..k]);
      var i: nat, j: nat :| DiedThenAborted(w, run[..k], i, j);
      assert run[..k][..i] == run[..i] && run[..k][..j] == run[..j];
      assert DiedThenAborted(w, run, i, j);
    }
    if i: nat, j: nat :| DiedThenAborted(w, run, i, j) {
      RunKeepsInv(w, run[..i]);
      RunKeepsInv(w, run[..j]);
      StepKeepsSource(After(w, run[..i]), run[i]);
      assert run[..i + 1][..i] == run[..i] && run[..j + 1][..j] == run[..j];
      SourceStaysGone(w, run, i + 1, j + 1);
      StepLosesDisk(After(w, run[..j]), run[j]);
      assert DiskLost(After(w, run[..j + 1]));
    }
  }

  /** Completed and aborted migrations stay so. */
  lemma {:induction false} TerminalStatesAreKept(w: World, run: seq<Step>)
    requires Inv(w) && (w.r.state == Completed || w.r.state == Aborted)
    ensures After(w, run).r.state == w.r.state && Inv(After(w, run))
  {
    if run != [] {
      var n := After(w, run[..|run| - 1]);
      TerminalStatesAreKept(w, run[..|run| - 1]);
      StepKeepsInv(n, run[|run| - 1]);
      match run[|run| - 1]
      case Start(a) => StartKeeps(n, a);
      case _ =>
    }
  }

  lemma {:induction false} AbortingStep(w: World, s: Step)
    requires Inv(w) && w.r.aborting
    ensures var n := Do(w, s); (n.r.aborting && n.r.state == w.r.state) || n.r.state == Aborted
    ensures Do(w, s).source == w.source
  {
  }

  /** From when an abort begins nothing is cut over, completed or tried again: the state stays, until it is aborted. */
  lemma {:induction false} AbortingExcludesTheRest(w: World, run: seq<Step>)
    requires Inv(w) && w.r.aborting
    ensures var n := After(w, run); Inv(n) && ((n.r.aborting && n.r.state == w.r.state) || n.r.state == Aborted)
    ensures After(w, run).source == w.source
  {
    if run != [] {
      var n := After(w, run[..|run| - 1]);
      AbortingExcludesTheRest(w, run[..|run| - 1]);
      StepKeepsInv(n, run[|run| - 1]);
      if n.r.aborting {
        AbortingStep(n, run[|run| - 1]);
      } else {
        AbortedStep(n, run[|run| - 1]);
      }
    }
  }

  lemma {:induction false} AbortedStep(w: World, s: Step)
    requires Inv(w) && w.r.state == Aborted
    ensures Do(w, s).r.state == Aborted && Do(w, s).source == w.source
  {
  }

  /** A migration as it is first asked for. */
  function New(): World {
    World(Record(Starting, false, false, false, None, None, 0, 0), true, false)
  }

  /** It starts, copies, is cut over and retired; this process stops before that is recorded, and it is aborted. */
  function LosingRun(): seq<Step> {
    [Start(Answers(All, false, "uri", None, Reading("uri", InSync, 0, 0))),
     Cutover(Switch(true, None, Stopped(true, true), false, true)),
     Complete(Retire(true, true, true, true)), AbortStep(Finished)]
  }

  lemma {:induction false} FourSteps(w: World, run: seq<Step>)
    requires |run| == 4
    ensures After(w, run) == Do(Do(Do(Do(w, run[0]), run[1]), run[2]), run[3])
    ensures After(w, run[..2]) == Do(Do(w, run[0]), run[1])
  {
    assert run[..0] == [] && run[..1][..0] == run[..0] && run[..2][..1] == run[..1];
    assert run[..3][..2] == run[..2] && run[..4] == run;
    assert After(w, run[..1]) == Do(w, run[0]);
    assert After(w, run[..3]) == Do(After(w, run[..2]), run[2]);
  }

  /**
   * From a migration's first start on: a crash between the deletion of S's volume and its record leaves the migration
   * cut over, an abort is allowed then, and afterwards neither node holds the disk.
   */
  lemma {:induction false} ACrashWhileRetiringCanLoseTheDisk()
    ensures Fresh(New()) && DiskLost(After(New(), LosingRun()))
    ensures After(New(), LosingRun()[..2]).r.state == CutOver
  {
    FourSteps(New(), LosingRun());
    SwitchesOver();
    DiesThenAborts();
  }

  /** The disk is cut over and S's volume still there. */
  function AfterSwitch(): World {
    World(Record(CutOver, false, true, true, None, Some("uri"), 0, 0), true, true)
  }

  lemma {:induction false} SwitchesOver()
    ensures Do(Do(New(), LosingRun()[0]), LosingRun()[1]) == AfterSwitch()
  {
    var synced := World(Record(Synced, false, true, true, Some("uri"), Some("uri"), 0, 0), true, true);
    assert Do(New(), LosingRun()[0]) == synced;
  }

  lemma {:induction false} DiesThenAborts()
    ensures DiskLost(Do(Do(AfterSwitch(), LosingRun()[2]), LosingRun()[3]))
  {
    assert Do(AfterSwitch(), LosingRun()[2]) == AfterSwitch().(source := false);
  }
}
