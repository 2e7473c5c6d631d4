/** What one step of the backup cycle does to its record, by the record's fields and what it finds (src/backup.rs). */
module BackupAnswers {
  import opened Wrappers
  import opened Backup

  /** There is a backup node that answers, for a volume that is served. */
  predicate Reached(b: Record, env: Env) {
    env.serving.Some? && b.node.Some? && env.reachable
  }

  /** The backup volume is made and attached where the volume is served. */
  predicate InPlace(b: Record, env: Env) {
    Reached(b, env) && b.made && b.attachedFor == Some(env.serving.value.node)
  }

  /** The snapshot being shipped is at the node that serves the volume. */
  predicate InFlight(b: Record, env: Env) {
    InPlace(b, env) && b.job.Some? && b.job.value.node == env.serving.value.node
  }

  predicate Outgrown(b: Record, env: Env) {
    InPlace(b, env) && b.job.None? && env.serving.value.size > b.size
  }

  predicate IsDue(b: Record, env: Env) {
    InPlace(b, env) && b.job.None? && env.serving.value.size <= b.size && b.nextAt <= env.now
  }

  /** A new ship begins. */
  predicate Begins(b: Record, env: Env) {
    IsDue(b, env) && env.ok && env.ship == Started
  }

  /** The one in flight is done and its point is taken. */
  predicate Ends(b: Record, env: Env) {
    InFlight(b, env) && env.job == Done && env.ok
  }

  /** The one in flight is given up: the array moved, or the engine has it no more. */
  predicate Drops(b: Record, env: Env) {
    InPlace(b, env) && b.job.Some? && (!InFlight(b, env) || env.job == Lost)
  }

  /** A step fails where a call it has to make is not answered, or a ship is lost or refused. */
  predicate Fails(b: Record, env: Env) {
    || env.serving.None?
    || (b.node.None? && env.pick.None?)
    || (b.node.Some? && !env.reachable)
    || (Reached(b, env) && !InPlace(b, env) && !env.ok)
    || (Outgrown(b, env) && !env.ok)
    || (IsDue(b, env) && (!env.ok || env.ship == Refused))
    || Drops(b, env)
    || (InFlight(b, env) && (env.job == Unread || (env.job == Done && !env.ok)))
  }

  lemma {:induction false} FailsExactly(b: Record, env: Env)
    ensures RunOf(b, env).failed <==> Fails(b, env)
  {
  }

  /** The node, the volume there, its attach and its size are each made once the one before it is there. */
  lemma {:induction false} PreparesInOrder(b: Record, env: Env)
    ensures var n := RunOf(b, env).b;
            && (n.node == if env.serving.Some? && b.node.None? then env.pick else b.node)
            && (n.made <==> b.made || (Reached(b, env) && env.ok))
            && (n.attachedFor == if Reached(b, env) && b.made && env.ok && !InPlace(b, env) then Some(env.serving.value.node)
                                 else b.attachedFor)
            && (n.size == if Outgrown(b, env) && env.ok then env.serving.value.size else b.size)
  {
  }

  /** A ship begins, ends and is dropped exactly then; what is shipped is the volume as it is served now. */
  lemma {:induction false} ShipsExactly(b: Record, env: Env)
    ensures var t := RunOf(b, env);
            && (t.act.Ships? <==> Begins(b, env)) && (t.act.Keeps? <==> Ends(b, env)) && (t.act.Drops? <==> Drops(b, env))
            && (Begins(b, env) ==>
                  var s := Snapshot(env.serving.value.node, env.now, env.index); t.act.snapshot == s && t.b.job == Some(s))
            && (Ends(b, env) || Drops(b, env) ==> t.b.job == None)
            && (!Begins(b, env) && !Ends(b, env) && !Drops(b, env) ==> t.b.job == b.job)
            && (Ends(b, env) ==> t.b.base == b.job && t.act.point == Point(b.job.value.taken, b.job.value.at))
            && (!Ends(b, env) ==> t.b.base == b.base && t.b.points == b.points)
  {
  }

  /** When the next one is due: an interval after a failure, or after the last point was taken if that is still ahead. */
  lemma {:induction false} NextIs(b: Record, env: Env)
    ensures var n, later := RunOf(b, env).b, env.interval * 1000;
            && (Fails(b, env) ==> n.phase == Failed && n.nextAt == env.now + later)
            && (Ends(b, env) ==> n.phase == Idle && n.nextAt >= env.now && n.nextAt >= b.job.value.taken + later
                                 && (n.nextAt == env.now || n.nextAt == b.job.value.taken + later))
            && (Begins(b, env) ==> n.phase == Shipping && n.nextAt == b.nextAt)
            && (IsDue(b, env) && env.ok && env.ship == NoRoute ==> n.phase == WaitingEngine && n.nextAt == env.now + later)
            && (!Fails(b, env) && !Ends(b, env) && !(IsDue(b, env) && env.ok) ==> n.phase == b.phase && n.nextAt == b.nextAt)
  {
  }

  /** One that the array moved under is taken off the record, and a new one is due now, before the step is put off. */
  lemma {:induction false} MovedShip(b: Record, env: Env)
    requires InPlace(b, env) && b.job.Some? && b.job.value.node != env.serving.value.node
    ensures StepOf(b, env) == Turn(b.(job := None, phase := Idle, nextAt := env.now), Act.Drops, true)
  {
  }

  /** A ship is to copy what was written since the base was taken, or since the volume was made. */
  lemma {:induction false} ShipsTheChanges(w: World, env: Env, extent: nat)
    requires Possible(w, env) && Begins(w.b, env)
    ensures extent in Do(w, Ran(env)).left <==>
              exists i :: 0 <= i < |w.writes| && w.writes[i].extent == extent && (w.b.base.Some? ==> w.b.base.value.at <= i)
  {
    ShipsExactly(w.b, env);
  }

  /** What is copied is the snapshot's, of what is still to copy; that much less is left, and nothing else changes. */
  lemma {:induction false} CopyBrings(w: World, which: set<nat>, extent: nat)
    requires w.b.job.Some? && w.b.job.value.at <= |w.writes|
    ensures var n, snapshot := Do(w, Copied(which)), ContentAt(w.writes, w.b.job.value.at);
            && n == w.(target := n.target, left := n.left)
            && (extent in n.left <==> extent in w.left && extent !in which)
            && AgreeOn(n.target, if extent in w.left && extent in which then snapshot else w.target, extent)
  {
  }

  lemma {:induction false} WithoutJoins(a: seq<Point>, b: seq<Point>, names: set<int>)
    ensures Without(a + b, names) == Without(a, names) + Without(b, names)
  {
    if b == [] {
      assert a + b == a;
    } else {
      var init := b[..|b| - 1];
      WithoutJoins(a, init, names);
      assert (a + b)[..|a| + |b| - 1] == a + init;
    }
  }

  /** The points are in the order they were taken down: those that stay of the old ones, then the new one if it stays. */
  lemma {:induction false} PointsInOrder(b: Record, env: Env)
    requires Ends(b, env)
    ensures var t := RunOf(b, env);
            && t.b.points == Without(b.points, Named(t.act.gone))
                             + (if t.act.point.taken in Named(t.act.gone) then [] else [t.act.point])
  {
    var t := RunOf(b, env);
    WithoutJoins(b.points, [t.act.point], Named(t.act.gone));
    assert [t.act.point][..0] == [];
  }

  /** One point looked at: it stays exactly when it is not among the names. */
  lemma {:induction false} OneWithout(points: seq<Point>, p: Point, names: set<int>)
    ensures Without(points + [p], names) == Without(points, names) + (if p.taken in names then [] else [p])
    ensures Without([], names) == []
  {
    assert (points + [p])[..|points|] == points;
  }
}
