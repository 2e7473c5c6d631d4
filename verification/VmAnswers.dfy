/** What each operation of a disk migration does to its record and to the two volumes, by the fields (src/vmmigrate.rs). */
module VmAnswers {
  import opened Wrappers
  import opened VmMigration

  // --------------------------------------------------------------- readings

  predicate Mirroring(r: Record) {
    (r.state == Copying || r.state == Synced) && !r.aborting
  }

  /** A mirroring record is synced, copying or failed exactly by the target and the state that were read; else it stays. */
  lemma {:induction false} ReadingDecides(r: Record, reading: Option<Reading>)
    ensures var n := WithReading(r, reading);
            && (!Mirroring(r) ==> n == r)
            && (Mirroring(r) ==>
                  && (n.state == Synced <==> reading.Some? && Some(reading.value.target) == r.mirror && reading.value.state == InSync)
                  && (n.state == Copying <==> reading.Some? && Some(reading.value.target) == r.mirror && reading.value.state == Copies)
                  && (n.state == Failed <==> reading.None? || Some(reading.value.target) != r.mirror || reading.value.state == Broken)
                  && n == r.(state := n.state, total := n.total, remaining := n.remaining)
                  && (if reading.Some? && Some(reading.value.target) == r.mirror
                      then n.total == reading.value.total && n.remaining == reading.value.remaining
                      else n.total == r.total && n.remaining == r.remaining))
  {
  }

  // ------------------------------------------------------------------ start

  /** A start goes on from a record that is starting and is not being aborted, and where T's name is free or its own. */
  predicate CanStart(w: World) {
    w.r.state == Starting && !w.r.aborting && (w.r.volume || !w.target)
  }

  predicate AtLeast(reached: Reached, step: Reached) {
    Index(reached) >= Index(step)
  }

  function Index(reached: Reached): nat {
    match reached
    case NoTarget => 0
    case Made => 1
    case Recorded => 2
    case Located => 3
    case Attached => 4
    case Mirrored => 5
    case All => 6
  }

  /** S's mirror to T as it is, if it works, else as it was started. */
  predicate MirrorFound(a: Answers, uri: string, x: Reading) {
    if a.current.Some? && a.current.value.target == uri && a.current.value.state != Broken then x == a.current.value
    else x == a.started
  }

  /** How far a start got is what is on record: T's volume, its id, its attach and S's mirror, in this order. */
  lemma {:induction false} StartRecords(w: World, a: Answers)
    ensures var n := AdvanceOf(w, a);
            && n.source == w.source
            && (w.r.state != Starting || w.r.aborting ==> n == w)
            && (w.r.state == Starting && !w.r.aborting ==>
                  && (n.target <==> w.target || (!w.r.volume && AtLeast(a.reached, Made)))
                  && (n.r.volume <==> w.r.volume || (!w.target && AtLeast(a.reached, Recorded)))
                  && (n.r.local <==> w.r.local || (CanStart(w) && AtLeast(a.reached, Located)))
                  && (n.r.attach == if !(CanStart(w) && AtLeast(a.reached, Attached)) then w.r.attach
                                    else if w.r.attach.Some? then w.r.attach else Some(a.uri))
                  && (n.r.mirror == if CanStart(w) && a.reached == All then n.r.attach else w.r.mirror)
                  && (n.r.state == Starting <==> !(CanStart(w) && a.reached == All))
                  && !n.r.aborting)
  {
  }

  /** One that got all the way is at what the mirror to T was read as. */
  lemma {:induction false} StartedIsRead(w: World, a: Answers, x: Reading)
    requires CanStart(w) && a.reached == All && MirrorFound(a, if w.r.attach.Some? then w.r.attach.value else a.uri, x)
    ensures var n := AdvanceOf(w, a);
            && n.r.mirror.Some?
            && (n.r.state == Synced <==> x.target == n.r.mirror.value && x.state == InSync)
            && (n.r.state == Copying <==> x.target == n.r.mirror.value && x.state == Copies)
            && (n.r.state == Failed <==> x.target != n.r.mirror.value || x.state == Broken)
  {
  }

  /** A start that stops short without this process dying is recorded as failed, and only that. */
  lemma {:induction false} StartFails(w: World, a: Answers)
    ensures var n, m := StartOf(w, a), AdvanceOf(w, a);
            && n == m.(r := m.r.(state := n.r.state))
            && (if w.r.state == Starting && !w.r.aborting && m.r.state == Starting && !a.died then n.r.state == Failed
                else n.r.state == m.r.state)
  {
  }

  // ------------------------------------------------------ which reading counts

  /** The step takes the reading into the record. */
  predicate Folds(w: World, s: Step, x: Reading) {
    match s
    case Refresh(reading) => Mirroring(w.r) && reading == Some(x)
    case Start(a) => Started(w, a, x)
    case Retry(again) => MayRetry(w.r, again) && !again.died && Started(Restarted(w), again.start, x)
    case _ => false
  }

  predicate Started(w: World, a: Answers, x: Reading) {
    CanStart(w) && a.reached == All && MirrorFound(a, if w.r.attach.Some? then w.r.attach.value else a.uri, x)
  }

  function Restarted(w: World): World {
    w.(r := w.r.(state := Starting, mirror := None))
  }

  lemma {:induction false} StartSynced(w: World, a: Answers)
    requires StartOf(w, a).r.state == Synced
    ensures (w.r.state == Synced && StartOf(w, a) == w && w.r.state != Starting)
            || exists x :: Started(w, a, x) && x.state == InSync && Some(x.target) == StartOf(w, a).r.mirror
  {
    if w.r.state == Starting {
      StartRecords(w, a);
      var x := if a.current.Some? && a.current.value.target == (if w.r.attach.Some? then w.r.attach.value else a.uri)
                  && a.current.value.state != Broken then a.current.value else a.started;
      StartedIsRead(w, a, x);
      assert Started(w, a, x);
    }
  }

  lemma {:induction false} StepSynced(w: World, s: Step)
    requires Do(w, s).r.state == Synced
    ensures (w.r.state == Synced && Do(w, s).r.mirror == w.r.mirror && forall y :: !Folds(w, s, y))
            || exists x :: Folds(w, s, x) && x.state == InSync && Some(x.target) == Do(w, s).r.mirror
  {
    match s
    case Start(a) => StartSynced(w, a);
    case Retry(again) => RetrySynced(w, again);
    case Refresh(reading) =>
      ReadingDecides(w.r, reading);
      if Mirroring(w.r) { assert Folds(w, s, reading.value); }
    case _ =>
  }

  lemma {:induction false} RetrySynced(w: World, x: Again)
    requires RetryOf(w, x).r.state == Synced
    ensures (w.r.state == Synced && RetryOf(w, x).r.mirror == w.r.mirror && !MayRetry(w.r, x))
            || exists y :: Folds(w, Retry(x), y) && y.state == InSync && Some(y.target) == RetryOf(w, x).r.mirror
  {
    if MayRetry(w.r, x) && !x.died {
      StartSynced(Restarted(w), x.start);
      var y :| Started(Restarted(w), x.start, y) && y.state == InSync && Some(y.target) == RetryOf(w, x).r.mirror;
      assert Folds(w, Retry(x), y);
    }
  }

  /** The step at `i` took in a reading in sync, of the mirror on record now, and none was taken in since. */
  ghost predicate LastReadInSync(w: World, run: seq<Step>, i: nat) {
    && i < |run|
    && (exists x :: Folds(After(w, run[..i]), run[i], x) && x.state == InSync && Some(x.target) == After(w, run).r.mirror)
    && forall j, y :: i < j < |run| ==> !Folds(After(w, run[..j]), run[j], y)
  }

  /** In every run a synced record's last reading was in sync and of its own mirror. */
  lemma {:induction false} SyncedWasRead(w: World, run: seq<Step>)
    requires Fresh(w) && After(w, run).r.state == Synced
    ensures exists i: nat :: LastReadInSync(w, run, i)
  {
    var last := |run| - 1;
    var m, s := After(w, run[..last]), run[last];
    StepSynced(m, s);
    if exists x :: Folds(m, s, x) && x.state == InSync && Some(x.target) == Do(m, s).r.mirror {
      assert LastReadInSync(w, run, last);
    } else {
      SyncedWasRead(w, run[..last]);
      var i: nat :| LastReadInSync(w, run[..last], i);
      assert run[..last][..i] == run[..i];
      forall j, y | i < j < |run| ensures !Folds(After(w, run[..j]), run[j], y) {
        if j < last { assert run[..last][..j] == run[..j] && run[..last][j] == run[j]; }
      }
      assert LastReadInSync(w, run, i);
    }
  }

  // ------------------------------------------------------------ switch-over

  /** S's mirror is synced on record, or in sync when it was read for the switch-over. */
  predicate SyncedNow(r: Record, x: Switch) {
    if x.live.None? then r.state == Synced
    else x.live.value.Some? && Some(x.live.value.value.target) == r.mirror && x.live.value.value.state == InSync
  }

  /** It is cut over exactly from a mirror that is synced now and that a stop found synced and flushed. */
  lemma {:induction false} CutsOverExactly(r: Record, x: Switch)
    ensures var n := CutoverOf(r, x);
            && (n.state == CutOver && r.state != CutOver <==>
                  Mirroring(r) && x.sourceUp && SyncedNow(r, x) && x.stop == Stopped(true, true) && !x.died)
            && (n.state == Failed && r.state != Failed <==>
                  && Mirroring(r) && x.sourceUp && SyncedNow(r, x) && !x.died && x.stop.Stopped?
                  && !(x.stop.synced && x.stop.flushed))
            && n.state in {r.state, CutOver, Failed}
            && (n == r.(state := n.state, remaining := n.remaining, attach := n.attach))
            && (n.attach != r.attach ==> n.attach.None? && x.withdrawn && (n.state == CutOver || n.state == Completed) && !r.aborting)
            && (!r.aborting && x.withdrawn && (n.state == CutOver || n.state == Completed) ==> n.attach.None?)
            && (n.remaining == if n.state == CutOver && r.state != CutOver then 0 else r.remaining)
  {
    if Mirroring(r) && x.live.Some? { ReadingDecides(r, x.live.value); }
  }

  // ------------------------------------------------- complete, abort, retry

  /** It is completed exactly from cut over, with S's volume deleted and this process alive. */
  lemma {:induction false} CompletesExactly(w: World, x: Retire)
    ensures var n := CompleteOf(w, x);
            && (n.r.state == Completed && w.r.state != Completed <==>
                  w.r.state == CutOver && !w.r.aborting && x.sourceUp && x.deleted && !x.died)
            && (n.source <==> w.source && !(w.r.state == CutOver && !w.r.aborting && x.sourceUp && x.deleted))
            && n.target == w.target
            && n.r == w.r.(state := n.r.state, attach := n.r.attach) && n.r.state in {w.r.state, Completed}
            && n.r.attach == if n.r.state == Completed && w.r.state != Completed && x.withdrawn then None else w.r.attach
  {
  }

  /** An abort marks the record, deletes T's volume once it gets there, and is recorded when it is done. */
  lemma {:induction false} AbortsExactly(w: World, x: Abort)
    ensures var n, over := AbortOf(w, x), w.r.state == Aborted || w.r.state == Completed;
            && (over ==> n == w)
            && (!over ==>
                  && n.source == w.source
                  && (n.target <==> w.target && (x == Held || (!w.r.volume && !w.r.local)))
                  && (n.r.state == Aborted <==> x == Finished) && (n.r.aborting <==> x != Finished)
                  && n.r == w.r.(state := n.r.state, aborting := n.r.aborting, attach := n.r.attach)
                  && (x != Finished ==> n.r.state == w.r.state && n.r.attach == w.r.attach)
                  && (x == Finished ==> n.r.attach.None?))
  {
  }

  /** Only a failed migration is tried again, with S up, and no mirror of S's but its own or a broken one, which is stopped. */
  lemma {:induction false} RetriesExactly(r: Record, x: Again)
    ensures MayRetry(r, x) <==>
              && r.state == Failed && !r.aborting && x.sourceUp && x.reading.Some?
              && (x.reading.value.None?
                  || (x.stopped && (Some(x.reading.value.value.target) == r.mirror || x.reading.value.value.state == Broken)))
  {
  }

  /** It starts again on what is on record of T. */
  lemma {:induction false} RetriedRecord(w: World, x: Again)
    ensures !MayRetry(w.r, x) ==> RetryOf(w, x) == w
    ensures MayRetry(w.r, x) && x.died ==> RetryOf(w, x) == Restarted(w)
    ensures MayRetry(w.r, x) && !x.died ==> RetryOf(w, x) == StartOf(Restarted(w), x.start)
  {
  }

  /** S's attach of T is withdrawn only once the disk is T's own. */
  lemma {:induction false} WithdrawsExactly(w: World, ok: bool)
    ensures var n := Do(w, Withdraw(ok));
            && n == w.(r := w.r.(attach := n.r.attach))
            && n.r.attach == if ok && (w.r.state == CutOver || w.r.state == Completed) then None else w.r.attach
  {
  }
}
