/**
  When an instance's `written` is the store outright (src/store.rs): which steps of a run can break that, and that each
  of those does in some continuation.
*/
module WrittenTheory {
  import opened Wrappers
  import opened Records
  import opened FleetStore

  // -------------------------------------------------------- harmless steps

  /** The key of a term the instance may write in stands. */
  predicate MayStillWrite(x: Instance, e: Etcd) {
    e.leader.Some? && e.leader.value.created in MayWriteIn(x)
  }

  /**
   * A write that takes effect does so while its sender waits for its answer, or changes nothing; an answer is given up
   * only where it changes nothing, or the term is over; and `written` is cleared only when it is empty, or when its
   * `meta` revision is not the store's and the terms of the instance are over.
   */
  ghost predicate Harmless(w: World, s: Step)
    requires Enabled(w, s)
  {
    match s
    case Deliver(r, answered) =>
      r.Write? && Guarded(w.etcd, r.guard) ==>
        (answered && Waits(w.instances[r.owner], r)) || ApplyAll(w.etcd.records, r.ops) == w.etcd.records
    case Expire(_) => true
    case Act(i, a) => HarmlessAct(w.instances[i], w.etcd, a)
  }

  ghost predicate HarmlessAct(x: Instance, e: Etcd, a: Action) {
    && (a.GiveUp? ==> Effective(x) == x.local.written || !MayStillWrite(x, e))
    && (a.ClearWritten? ==> x.local.written == map[] || (x.local.metaRevision != e.meta && !MayStillWrite(x, e)))
  }

  ghost predicate HarmlessRun(w: World, steps: seq<Step>) {
    steps == []
    || (HarmlessRun(w, steps[..|steps| - 1])
        && var v := Run(w, steps[..|steps| - 1]);
           Enabled(v, steps[|steps| - 1]) ==> Harmless(v, steps[|steps| - 1]))
  }

  /** An instance whose `meta` revision is the store's has its records. */
  predicate Current(x: Instance, e: Etcd) {
    0 != x.local.metaRevision == e.meta ==> x.local.written == e.records
  }

  ghost predicate AllCurrent(w: World) {
    forall i :: 0 <= i < |w.instances| ==> Current(w.instances[i], w.etcd)
  }

  // ------------------------------------------------------------- invariant

  ghost predicate ReadExact(x: Instance, e: Etcd) {
    x.round.Reading? ==>
      && (e.leader.Some? && e.leader.value.created in ReadsFor(x) ==> x.round.snapshot == e.records)
      && (x.round.snapshotMeta == e.meta ==> x.round.snapshot == e.records)
  }

  /** What holds off the keys in doubt holds of all. */
  ghost predicate Exact(x: Instance, e: Etcd) {
    && (MayStillWrite(x, e) ==> Effective(x) == e.records)
    && Current(x, e)
    && (x.sync.Syncing? && x.sync.stage.Landed? && x.sync.stage.revision == e.meta ==> Effective(x) == e.records)
    && ReadExact(x, e)
  }

  ghost predicate AllExact(w: World) {
    forall i :: 0 <= i < |w.instances| ==> Exact(w.instances[i], w.etcd)
  }

  /** What was ever sent was sent by the leader of the term it names. */
  ghost predicate SentByLeaders(w: World) {
    forall r :: r in w.flying && r.Write? && r.owner < |w.instances| ==> r.guard in w.instances[r.owner].led
  }

  ghost predicate Strict(w: World) {
    Inv(w) && AllExact(w) && SentByLeaders(w)
  }

  // ---------------------------------------------------- each step keeps it

  lemma {:induction false} ActStaysExact(x: Instance, e: Etcd, a: Action)
    requires Allowed(x, e, a) && Exact(x, e) && HarmlessAct(x, e, a)
    requires EtcdInv(e) && Locks(x) && AgreesAtMeta(x, e)
    ensures Exact(Acted(x, e, a), e)
  {
    if a.TakeRead? {
      ReadStaysExact(x, e, a);
    } else if a.TakeAnswer? || a.GiveUp? {
      AnswerStaysExact(x, e, a);
    }
  }

  lemma {:induction false} ReadStaysExact(x: Instance, e: Etcd, a: Action)
    requires Allowed(x, e, a) && a.TakeRead? && Exact(x, e)
    requires EtcdInv(e) && Locks(x) && AgreesAtMeta(x, e)
    ensures Exact(Acted(x, e, a), e)
  {
  }

  lemma {:induction false} AnswerStaysExact(x: Instance, e: Etcd, a: Action)
    requires Allowed(x, e, a) && (a.TakeAnswer? || a.GiveUp?) && Exact(x, e) && HarmlessAct(x, e, a)
    requires Locks(x) && AgreesAtMeta(x, e)
    ensures Exact(Acted(x, e, a), e)
  {
  }

  lemma {:induction false} OtherStaysExact(x: Instance, e: Etcd, r: Request)
    requires Exact(x, e) && AgreesAtMeta(x, e) && EtcdInv(e) && r.Write? && Guarded(e, r.guard)
    requires r.guard !in MayWriteIn(x) && (x.round.Reading? ==> r.guard !in ReadsFor(x))
    ensures Exact(x, Land(e, r.ops))
  {
  }

  lemma {:induction false} UnchangedStaysExact(x: Instance, e: Etcd, r: Request)
    requires Exact(x, e) && AgreesAtMeta(x, e) && EtcdInv(e) && r.Write? && ApplyAll(e.records, r.ops) == e.records
    ensures Exact(Doubt(x, Keys(r.ops)), Land(e, r.ops))
  {
  }

  lemma {:induction false} WaitingStaysExact(x: Instance, e: Etcd, r: Request)
    requires Exact(x, e) && AgreesAtMeta(x, e) && Locks(x) && EtcdInv(e)
    requires r.Write? && Guarded(e, r.guard) && Waits(x, r) && r.guard in x.led
    ensures Exact(x.(sync := x.sync.(stage := Landed(e.revision + 1)), unsure := x.unsure - Keys(r.ops)), Land(e, r.ops))
  {
  }

  lemma {:induction false} LandStaysExact(w: World, r: Request, answered: bool, j: nat)
    requires Strict(w) && Enabled(w, Deliver(r, answered)) && r.Write? && Guarded(w.etcd, r.guard)
    requires Harmless(w, Deliver(r, answered)) && j < |w.instances|
    ensures Exact(DeliverWrite(w, r, answered).instances[j], Land(w.etcd, r.ops))
  {
    var x := w.instances[j];
    assert InstanceInv(x, j, w) && Exact(x, w.etcd);
    if j != r.owner {
      NotItsTerm(w, r, j);
      OtherStaysExact(x, w.etcd, r);
    } else if answered && Waits(x, r) {
      WaitingStaysExact(x, w.etcd, r);
    } else {
      UnchangedStaysExact(x, w.etcd, r);
    }
  }

  lemma {:induction false} NotItsTerm(w: World, r: Request, j: nat)
    requires Inv(w) && r in w.flying && r.Write? && j < |w.instances| && j != r.owner
    ensures r.guard !in MayWriteIn(w.instances[j])
    ensures w.instances[j].round.Reading? ==> r.guard !in ReadsFor(w.instances[j])
  {
    assert InstanceInv(w.instances[j], j, w);
    if Began(w.log, r.guard, j) { OneOwner(w, r.guard, r.owner, j); }
  }

  lemma {:induction false} WriteStaysExact(w: World, r: Request, answered: bool)
    requires Strict(w) && Enabled(w, Deliver(r, answered)) && r.Write? && Harmless(w, Deliver(r, answered))
    ensures AllExact(DeliverWrite(w, r, answered))
  {
    var v := DeliverWrite(w, r, answered);
    forall j | 0 <= j < |v.instances| ensures Exact(v.instances[j], v.etcd) {
      if Guarded(w.etcd, r.guard) {
        LandStaysExact(w, r, answered, j);
      } else {
        assert Exact(w.instances[j], w.etcd);
      }
    }
  }

  lemma {:induction false} CreatedStaysExact(w: World, r: Request, answered: bool, j: nat)
    requires Strict(w) && Enabled(w, Deliver(r, answered)) && r.Create? && j < |w.instances|
    ensures Exact(DeliverCreate(w, r, answered).instances[j], DeliverCreate(w, r, answered).etcd)
  {
    var x := w.instances[j];
    assert InstanceInv(x, j, w) && Exact(x, w.etcd);
    // The new key's revision is above every one an instance has led at.
    forall c: nat | Began(w.log, c, j) ensures c <= w.etcd.revision { OneOwner(w, c, j, j); }
  }

  lemma {:induction false} CreateStaysExact(w: World, r: Request, answered: bool)
    requires Strict(w) && Enabled(w, Deliver(r, answered)) && r.Create?
    ensures AllExact(DeliverCreate(w, r, answered))
  {
    var v := DeliverCreate(w, r, answered);
    forall j | 0 <= j < |v.instances| ensures Exact(v.instances[j], v.etcd) { CreatedStaysExact(w, r, answered, j); }
  }

  lemma {:induction false} ActStepStaysExact(w: World, i: nat, a: Action)
    requires Strict(w) && Enabled(w, Act(i, a)) && Harmless(w, Act(i, a))
    ensures AllExact(Next(w, Act(i, a)))
  {
    var v := Next(w, Act(i, a));
    assert InstanceInv(w.instances[i], i, w);
    ActStaysExact(w.instances[i], w.etcd, a);
    forall j | 0 <= j < |v.instances| ensures Exact(v.instances[j], v.etcd) {
      assert Exact(w.instances[j], w.etcd);
      assert Exact(v.instances[j], w.etcd);
    }
  }

  lemma {:induction false} ExpireStaysExact(w: World, lease: nat)
    requires AllExact(w)
    ensures AllExact(Next(w, Expire(lease)))
  {
    var v := Next(w, Expire(lease));
    forall j | 0 <= j < |v.instances| ensures Exact(v.instances[j], v.etcd) { assert Exact(w.instances[j], w.etcd); }
  }

  lemma {:induction false} LedGrows(x: Instance, e: Etcd, a: Action)
    requires Allowed(x, e, a)
    ensures x.led <= Acted(x, e, a).led
    ensures x.sync.Syncing? && x.sync.guard in x.led && Acted(x, e, a).sync.Syncing? ==> Acted(x, e, a).sync.guard in x.led
    ensures x.sync.Idle? && Acted(x, e, a).sync.Syncing? ==> Acted(x, e, a).sync.guard in x.led
  {
  }

  lemma {:induction false} StepSent(w: World, s: Step)
    requires Inv(w) && SentByLeaders(w) && Enabled(w, s)
    ensures SentByLeaders(Next(w, s))
  {
    if s.Act? {
      assert InstanceInv(w.instances[s.i], s.i, w);
      LedGrows(w.instances[s.i], w.etcd, s.action);
    }
  }

  lemma {:induction false} StepStaysStrict(w: World, s: Step)
    requires Strict(w) && Enabled(w, s) && Harmless(w, s)
    ensures Strict(Next(w, s)) && |Next(w, s).instances| == |w.instances|
  {
    StepKeepsInv(w, s);
    StepSent(w, s);
    match s
    case Deliver(r, answered) =>
      if r.Write? { WriteStaysExact(w, r, answered); } else { CreateStaysExact(w, r, answered); }
    case Expire(lease) => ExpireStaysExact(w, lease);
    case Act(i, a) => ActStepStaysExact(w, i, a);
  }

  lemma {:induction false} RunStaysStrict(w: World, steps: seq<Step>)
    requires Strict(w) && HarmlessRun(w, steps)
    ensures Strict(Run(w, steps)) && |Run(w, steps).instances| == |w.instances|
  {
    if steps != [] {
      var v, s := Run(w, steps[..|steps| - 1]), steps[|steps| - 1];
      RunStaysStrict(w, steps[..|steps| - 1]);
      if Enabled(v, s) { StepStaysStrict(v, s); }
    }
  }

  lemma {:induction false} InitIsStrict(n: nat)
    ensures Strict(Init(n))
  {
    RunKeepsInv(n, []);
  }

  /** In runs of harmless steps an instance whose `meta` revision is the store's has exactly its records. */
  lemma {:induction false} HarmlessWrittenIsTheStore(n: nat, steps: seq<Step>)
    requires HarmlessRun(Init(n), steps)
    ensures |Run(Init(n), steps).instances| == n && AllCurrent(Run(Init(n), steps))
  {
    InitIsStrict(n);
    RunStaysStrict(Init(n), steps);
  }

  // -------------------------------------------------- the others do break it

  ghost predicate StaysCurrent(w: World) {
    forall steps :: HarmlessRun(w, steps) ==> AllCurrent(Run(w, steps))
  }

  lemma {:induction false} HarmlessMore(w: World, steps: seq<Step>, s: Step)
    requires HarmlessRun(w, steps) && Enabled(Run(w, steps), s) && Harmless(Run(w, steps), s)
    ensures HarmlessRun(w, steps + [s]) && Run(w, steps + [s]) == Next(Run(w, steps), s)
  {
    assert (steps + [s])[..|steps|] == steps;
  }

  /** The instance has the lock, may write, and has something else in `written` than the store. */
  predicate Behind(w: World, i: nat) {
    && i < |w.instances| && LockFree(w.instances[i])
    && w.etcd.leader.Some? && w.etcd.leader.value.created in w.instances[i].led
    && w.instances[i].local.written != w.etcd.records
  }

  lemma {:induction false} OneWrite(w: World, i: nat, ops: seq<Op>) returns (steps: seq<Step>)
    requires i < |w.instances| && LockFree(w.instances[i]) && 0 < |ops| <= TXN_OPS
    requires w.etcd.leader.Some? && w.etcd.leader.value.created in w.instances[i].led
    ensures HarmlessRun(w, steps)
    ensures var v := Run(w, steps);
            && |v.instances| == |w.instances| && v.etcd == Land(w.etcd, ops)
            && v.instances[i].local == Wrote(w.instances[i].local, ops, v.etcd.revision)
  {
    var x, c := w.instances[i], w.etcd.leader.value.created;
    steps := [];
    var begun := Next(w, Act(i, BeginSync(c, [ops])));
    HarmlessMore(w, steps, Act(i, BeginSync(c, [ops])));
    steps := steps + [Act(i, BeginSync(c, [ops]))];
    assert begun.instances[i] == x.(sync := Syncing(c, [ops], Sent));
    HarmlessMore(w, steps, Deliver(Write(i, c, ops), true));
    steps := steps + [Deliver(Write(i, c, ops), true)];
    HarmlessMore(w, steps, Act(i, TakeAnswer));
    steps := steps + [Act(i, TakeAnswer)];
  }

  /** A write of another key makes such an instance believe it is current. */
  lemma {:induction false} BehindBreaks(w: World, i: nat)
    requires Behind(w, i)
    ensures !StaysCurrent(w)
  {
    var written, records := w.instances[i].local.written, w.etcd.records;
    var d := DifferAt(written, records);
    var k := d + "x";
    var steps := OneWrite(w, i, [Put(k, "")]);
    ApplyOne(written, Put(k, ""));
    ApplyOne(records, Put(k, ""));
    assert d != k && !EqualAt(written[k := ""], records[k := ""], d);
    assert !Current(Run(w, steps).instances[i], Run(w, steps).etcd);
  }

  lemma {:induction false} DifferAt(a: Records, b: Records) returns (d: string)
    requires a != b
    ensures !EqualAt(a, b, d)
  {
    if forall k :: EqualAt(a, b, k) { Extensional(a, b); }
    d :| !EqualAt(a, b, d);
  }

  lemma {:induction false} LaterBreaks(w: World, steps: seq<Step>)
    requires HarmlessRun(w, steps) && !StaysCurrent(Run(w, steps))
    ensures !StaysCurrent(w)
  {
    var more :| HarmlessRun(Run(w, steps), more) && !AllCurrent(Run(Run(w, steps), more));
    HarmlessConcat(w, steps, more);
    assert !AllCurrent(Run(w, steps + more));
  }

  lemma {:induction false} HarmlessConcat(w: World, a: seq<Step>, b: seq<Step>)
    requires HarmlessRun(w, a) && HarmlessRun(Run(w, a), b)
    ensures HarmlessRun(w, a + b) && Run(w, a + b) == Run(Run(w, a), b)
  {
    if b == [] {
      assert a + b == a;
    } else {
      HarmlessConcat(w, a, b[..|b| - 1]);
      assert (a + b)[..|a + b| - 1] == a + b[..|b| - 1];
    }
  }

  lemma {:induction false} OneLaterBreaks(w: World, s: Step)
    requires Enabled(w, s) && Harmless(w, s) && !StaysCurrent(Next(w, s))
    ensures !StaysCurrent(w)
  {
    HarmlessMore(w, [], s);
    assert [] + [s] == [s];
    LaterBreaks(w, [s]);
  }

  /** An instance behind the store, once what it is at has ended, is so with the lock. */
  lemma {:induction false} BusyBehindBreaks(w: World, i: nat)
    requires i < |w.instances| && Locks(w.instances[i])
    requires w.etcd.leader.Some? && w.etcd.leader.value.created in w.instances[i].led
    requires Effective(w.instances[i]) != w.etcd.records
    ensures !StaysCurrent(w)
  {
    var x := w.instances[i];
    if x.round.Reading? {
      var s := Act(i, TakeRead(false));
      assert Behind(Next(w, s), i);
      BehindBreaks(Next(w, s), i);
      OneLaterBreaks(w, s);
    } else if x.sync.Idle? {
      BehindBreaks(w, i);
    } else if !x.sync.stage.Landed? {
      SentBehindBreaks(w, i);
    } else {
      LandedBehindBreaks(w, i);
    }
  }

  lemma {:induction false} SentBehindBreaks(w: World, i: nat)
    requires i < |w.instances| && Locks(w.instances[i])
    requires w.instances[i].sync.Syncing? && !w.instances[i].sync.stage.Landed?
    requires w.etcd.leader.Some? && w.etcd.leader.value.created in w.instances[i].led
    requires w.instances[i].local.written != w.etcd.records
    ensures !StaysCurrent(w)
  {
    var s := Act(i, GiveUp);
    assert Behind(Next(w, s), i);
    BehindBreaks(Next(w, s), i);
    OneLaterBreaks(w, s);
  }

  lemma {:induction false} LandedBehindBreaks(w: World, i: nat)
    requires i < |w.instances| && Locks(w.instances[i])
    requires w.instances[i].sync.Syncing? && w.instances[i].sync.stage.Landed?
    requires w.etcd.leader.Some? && w.etcd.leader.value.created in w.instances[i].led
    requires Effective(w.instances[i]) != w.etcd.records
    ensures !StaysCurrent(w)
  {
    var s := Act(i, TakeAnswer);
    var v := Next(w, s);
    assert v.instances[i].local.written == Effective(w.instances[i]);
    if v.instances[i].sync.Idle? { BehindBreaks(v, i); } else { SentBehindBreaks(v, i); }
    OneLaterBreaks(w, s);
  }

  lemma {:induction false} LandingBreaks(w: World, r: Request, answered: bool)
    requires Strict(w) && Enabled(w, Deliver(r, answered)) && !Harmless(w, Deliver(r, answered))
    ensures !StaysCurrent(Next(w, Deliver(r, answered)))
  {
    var x, v := w.instances[r.owner], Next(w, Deliver(r, answered));
    assert InstanceInv(x, r.owner, w) && Exact(x, w.etcd);
    assert v.instances[r.owner] == Doubt(x, Keys(r.ops));
    assert Effective(v.instances[r.owner]) == w.etcd.records != v.etcd.records;
    BusyBehindBreaks(v, r.owner);
  }

  lemma {:induction false} GivingUpBreaks(w: World, i: nat)
    requires Strict(w) && Enabled(w, Act(i, GiveUp)) && !Harmless(w, Act(i, GiveUp))
    ensures !StaysCurrent(Next(w, Act(i, GiveUp)))
  {
    var x, v := w.instances[i], Next(w, Act(i, GiveUp));
    assert InstanceInv(x, i, w) && Exact(x, w.etcd);
    var y := v.instances[i];
    if v.etcd.leader.value.created in y.led {
      BehindBreaks(v, i);
    } else {
      var s := Act(i, Lead);
      assert Behind(Next(v, s), i);
      BehindBreaks(Next(v, s), i);
      OneLaterBreaks(v, s);
    }
  }

  lemma {:induction false} ClearingBreaks(w: World, i: nat)
    requires Strict(w) && Enabled(w, Act(i, ClearWritten)) && !Harmless(w, Act(i, ClearWritten))
    ensures !StaysCurrent(Next(w, Act(i, ClearWritten)))
  {
    var x, v := w.instances[i], Next(w, Act(i, ClearWritten));
    assert InstanceInv(x, i, w) && Exact(x, w.etcd);
    if MayStillWrite(x, w.etcd) {
      BehindBreaks(v, i);
    } else {
      assert !Current(v.instances[i], v.etcd);
      assert HarmlessRun(v, []) && Run(v, []) == v;
    }
  }

  /**
   * Where only harmless steps were taken, a step leaves `written` the store's records, wherever the `meta` revision is,
   * in every harmless continuation, exactly when it is harmless itself.
   */
  lemma {:induction false} AStepIsHarmlessExactly(n: nat, before: seq<Step>, s: Step)
    requires HarmlessRun(Init(n), before) && Enabled(Run(Init(n), before), s)
    ensures var w := Run(Init(n), before); StaysCurrent(Next(w, s)) <==> Harmless(w, s)
  {
    var w := Run(Init(n), before);
    InitIsStrict(n);
    RunStaysStrict(Init(n), before);
    if Harmless(w, s) {
      StepStaysStrict(w, s);
      StrictStaysCurrent(Next(w, s));
    } else {
      match s
      case Deliver(r, answered) => LandingBreaks(w, r, answered);
      case Act(i, a) => if a.GiveUp? { GivingUpBreaks(w, i); } else { ClearingBreaks(w, i); }
    }
  }

  lemma {:induction false} StrictStaysCurrent(w: World)
    requires Strict(w)
    ensures StaysCurrent(w)
  {
    forall steps | HarmlessRun(w, steps) ensures AllCurrent(Run(w, steps)) { RunStaysStrict(w, steps); }
  }

  /** So a `written` that is cleared for an import does no harm exactly when it is empty, or out of date for good. */
  lemma {:induction false} AClearIsHarmlessExactly(n: nat, before: seq<Step>, i: nat)
    requires HarmlessRun(Init(n), before) && Enabled(Run(Init(n), before), Act(i, ClearWritten))
    ensures var w := Run(Init(n), before);
            var x := w.instances[i];
            StaysCurrent(Next(w, Act(i, ClearWritten)))
            <==> x.local.written == map[]
                 || (x.local.metaRevision != w.etcd.meta && forall c :: c in x.led ==> !Guarded(w.etcd, c))
  {
    AStepIsHarmlessExactly(n, before, Act(i, ClearWritten));
  }

  /** And a write whose answer is lost exactly when it changes nothing of the store. */
  lemma {:induction false} ALostAnswerIsHarmlessExactly(n: nat, before: seq<Step>, r: Request)
    requires HarmlessRun(Init(n), before) && Enabled(Run(Init(n), before), Deliver(r, false))
    requires r.Write? && Guarded(Run(Init(n), before).etcd, r.guard)
    ensures var w := Run(Init(n), before);
            StaysCurrent(Next(w, Deliver(r, false))) <==> ApplyAll(w.etcd.records, r.ops) == w.etcd.records
  {
    AStepIsHarmlessExactly(n, before, Deliver(r, false));
  }
}
