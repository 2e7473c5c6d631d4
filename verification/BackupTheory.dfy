/** Every point of a backup is the volume as it was, and which points a finished ship leaves (src/backup.rs). */
module BackupTheory {
  import opened Wrappers
  import opened Backup

  // --------------------------------------------------------------- history

  lemma {:induction false} ContentFrame(writes: seq<Write>, a: nat, b: nat, e: nat)
    requires a <= b <= |writes| && e !in Written(writes, a, b)
    ensures AgreeOn(ContentAt(writes, a), ContentAt(writes, b), e)
    decreases b
  {
    if a < b {
      assert writes[b - 1].extent in Written(writes, a, b);
      assert Written(writes, a, b - 1) <= Written(writes, a, b);
      ContentFrame(writes, a, b - 1, e);
    }
  }

  lemma {:induction false} WrittenIsThere(writes: seq<Write>, a: nat, b: nat, e: nat)
    requires b <= |writes| && e in Written(writes, a, b)
    ensures e in ContentAt(writes, b)
    decreases b
  {
    var i :| a <= i < b && writes[i].extent == e;
    if i < b - 1 {
      assert e in Written(writes, a, b - 1);
      WrittenIsThere(writes, a, b - 1, e);
    }
  }

  /** A write changes nothing of what was before it. */
  lemma {:induction false} PastStays(writes: seq<Write>, x: Write, n: nat)
    requires n <= |writes|
    ensures ContentAt(writes + [x], n) == ContentAt(writes, n)
  {
    if n > 0 {
      PastStays(writes, x, n - 1);
    }
  }

  lemma {:induction false} WrittenStays(writes: seq<Write>, x: Write, a: nat, n: nat)
    requires n <= |writes|
    ensures Written(writes + [x], a, n) == Written(writes, a, n)
  {
    assert forall i :: 0 <= i < n ==> (writes + [x])[i] == writes[i];
  }

  // ------------------------------------------------------------- invariant

  /** The backup volume is the last base, but for extents written between it and the snapshot last tried. */
  ghost predicate DiffersOnlyOnTried(w: World) {
    && BaseAt(w.b) <= w.tried <= |w.writes|
    && forall e :: e !in Written(w.writes, BaseAt(w.b), w.tried)
                   ==> AgreeOn(w.target, ContentAt(w.writes, BaseAt(w.b)), e)
  }

  /** What a ship in flight no longer has to copy is as in its snapshot. */
  ghost predicate ShipsOn(w: World)
    requires DiffersOnlyOnTried(w)
  {
    match w.b.job
    case None => w.left == {}
    case Some(s) =>
      && s.at == w.tried && s.taken <= w.clock && (w.b.base.Some? ==> w.b.base.value.taken < s.taken)
      && w.left <= Written(w.writes, BaseAt(w.b), w.tried)
      && forall e :: e in Written(w.writes, BaseAt(w.b), w.tried) && e !in w.left
                     ==> AgreeOn(w.target, ContentAt(w.writes, w.tried), e)
  }

  ghost predicate PointsHold(w: World) {
    && (w.b.base.Some? ==> w.b.base.value.taken <= w.clock)
    && (forall p :: p in w.b.points ==> w.b.base.Some? && p.taken <= w.b.base.value.taken)
    && (forall p :: p in w.b.points ==>
          p.at <= |w.writes| && p.taken in w.held && w.held[p.taken] == ContentAt(w.writes, p.at))
    && DistinctTimes(w.b.points)
  }

  predicate DistinctTimes(points: seq<Point>) {
    forall i, j :: 0 <= i < j < |points| ==> points[i].taken != points[j].taken
  }

  ghost predicate Inv(w: World) {
    DiffersOnlyOnTried(w) && ShipsOn(w) && PointsHold(w)
  }

  /** A backup as it is first asked for: nothing copied, no point. */
  predicate Start(w: World) {
    w.target == map[] && w.left == {} && w.tried == 0 && w.b.base.None? && w.b.job.None? && w.b.points == []
  }

  lemma {:induction false} WriteKeeps(w: World, x: Write)
    requires Inv(w)
    ensures Inv(Do(w, Wrote(x)))
  {
    var n := Do(w, Wrote(x));
    PastStays(w.writes, x, BaseAt(w.b));
    PastStays(w.writes, x, w.tried);
    WrittenStays(w.writes, x, BaseAt(w.b), w.tried);
    forall p | p in w.b.points ensures n.held[p.taken] == ContentAt(n.writes, p.at) {
      PastStays(w.writes, x, p.at);
    }
  }

  lemma {:induction false} CopyKeeps(w: World, which: set<nat>)
    requires Inv(w)
    ensures Inv(Do(w, Copied(which)))
  {
    if w.b.job.Some? {
      var n := Do(w, Copied(which));
      var moved := which * w.left;
      forall e | e in moved ensures AgreeOn(n.target, ContentAt(w.writes, w.tried), e) {
        WrittenIsThere(w.writes, BaseAt(w.b), w.tried, e);
      }
      forall e | e !in moved ensures AgreeOn(n.target, w.target, e) {}
    }
  }

  /** When nothing is left to copy, the backup volume is the snapshot, whatever failed before. */
  lemma {:induction false} DoneIsTheSnapshot(w: World)
    requires Inv(w) && w.b.job.Some? && w.left == {}
    ensures w.target == ContentAt(w.writes, w.b.job.value.at)
  {
    var c := ContentAt(w.writes, w.tried);
    forall e ensures AgreeOn(w.target, c, e) {
      if e !in Written(w.writes, BaseAt(w.b), w.tried) {
        ContentFrame(w.writes, BaseAt(w.b), w.tried, e);
      }
    }
    forall e | e in w.target ensures e in c && c[e] == w.target[e] { assert AgreeOn(w.target, c, e); }
    forall e | e in c ensures e in w.target { assert AgreeOn(w.target, c, e); }
  }

  lemma {:induction false} ShipKeeps(w: World, env: Env)
    requires Inv(w) && Possible(w, env) && RunOf(w.b, env).act.Ships?
    ensures Inv(Do(w, Ran(env)))
  {
    var n := Do(w, Ran(env));
    assert n.tried == |w.writes| && n.b.base == w.b.base && n.b.points == w.b.points;
    forall e | e !in Written(w.writes, BaseAt(w.b), |w.writes|)
      ensures AgreeOn(n.target, ContentAt(w.writes, BaseAt(w.b)), e)
    {
      assert Written(w.writes, BaseAt(w.b), w.tried) <= Written(w.writes, BaseAt(w.b), |w.writes|);
    }
  }

  lemma {:induction false} QuietKeeps(w: World, env: Env)
    requires Inv(w) && Possible(w, env) && (RunOf(w.b, env).act.Quiet? || RunOf(w.b, env).act.Drops?)
    ensures Inv(Do(w, Ran(env)))
  {
    var n := Do(w, Ran(env));
    assert n.b.base == w.b.base && n.b.points == w.b.points && (n.b.job == w.b.job || n.b.job.None?);
  }

  lemma {:induction false} WithoutIs(points: seq<Point>, names: set<int>)
    ensures forall p :: p in Without(points, names) <==> p in points && p.taken !in names
    ensures DistinctTimes(points) ==> DistinctTimes(Without(points, names))
  {
    if points != [] {
      var init, last := points[..|points| - 1], points[|points| - 1];
      WithoutIs(init, names);
      assert forall p :: p in points <==> p in init || p == last;
      if DistinctTimes(points) {
        forall p | p in init ensures p.taken != last.taken {}
      }
    }
  }

  lemma {:induction false} PointKeeps(w: World, env: Env)
    requires Inv(w) && Possible(w, env) && RunOf(w.b, env).act.Keeps?
    ensures Inv(Do(w, Ran(env)))
  {
    var n, s := Do(w, Ran(env)), w.b.job.value;
    DoneIsTheSnapshot(w);
    assert n.b.base == Some(s) && n.b.job.None? && n.target == ContentAt(n.writes, s.at);
    assert Written(n.writes, s.at, s.at) == {};
    KeptPoints(w.b.points, PointOf(s), Named(Gone(w.b, env)), w.held, w.writes, w.target);
  }

  /** A point is younger than those before it; what is left of them all holds its snapshot's content. */
  lemma {:induction false} KeptPoints(
    points: seq<Point>, p0: Point, gone: set<int>, held: map<int, Content>, writes: seq<Write>, target: Content)
    requires DistinctTimes(points) && p0.at <= |writes| && target == ContentAt(writes, p0.at)
    requires forall p :: p in points ==>
               p.at <= |writes| && p.taken < p0.taken && p.taken in held && held[p.taken] == ContentAt(writes, p.at)
    ensures var after, now := Without(points + [p0], gone), held[p0.taken := target] - gone;
            && DistinctTimes(after)
            && forall p :: p in after ==>
                 p.at <= |writes| && p.taken <= p0.taken && p.taken in now && now[p.taken] == ContentAt(writes, p.at)
  {
    var more := points + [p0];
    assert DistinctTimes(more);
    WithoutIs(more, gone);
    forall p | p in Without(more, gone) ensures (p in points || p == p0) && p.taken !in gone {
      assert p in more;
    }
  }

  lemma {:induction false} StepKeepsInv(w: World, e: Event)
    requires Inv(w)
    ensures Inv(Do(w, e))
  {
    match e
    case Wrote(x) => WriteKeeps(w, x);
    case Copied(which) => CopyKeeps(w, which);
    case Ran(env) =>
      if Possible(w, env) {
        match RunOf(w.b, env).act
        case Ships(_) => ShipKeeps(w, env);
        case Keeps(_, _) => PointKeeps(w, env);
        case _ => QuietKeeps(w, env);
      }
  }

  lemma {:induction false} RunKeepsInv(w: World, run: seq<Event>)
    requires Inv(w)
    ensures Inv(After(w, run))
  {
    if run != [] {
      RunKeepsInv(w, run[..|run| - 1]);
      StepKeepsInv(After(w, run[..|run| - 1]), run[|run| - 1]);
    }
  }

  /**
   * However many ships failed, were lost or stopped half way, every point on record is on the backup node and is the
   * volume as it was at its snapshot, and off what was written up to the snapshot last tried the backup volume is
   * the base of the next ship.
   */
  lemma {:induction false} PointsAreTheirSnapshots(w: World, run: seq<Event>)
    requires Start(w)
    ensures var n := After(w, run);
            && (forall p :: p in n.b.points ==>
                  p.at <= |n.writes| && p.taken in n.held && n.held[p.taken] == ContentAt(n.writes, p.at))
            && DiffersOnlyOnTried(n)
  {
    assert Written(w.writes, 0, 0) == {};
    RunKeepsInv(w, run);
  }

  lemma {:induction false} ShipFits(b: Record, env: Env)
    requires RunOf(b, env).act.Ships?
    ensures env.serving.Some? && env.serving.value.size <= RunOf(b, env).b.size
  {
  }

  lemma {:induction false} RunSize(b: Record, env: Env)
    ensures b.size <= RunOf(b, env).b.size
  {
  }

  lemma {:induction false} StepSize(w: World, e: Event)
    ensures w.b.size <= Do(w, e).b.size
  {
    if e.Ran? { RunSize(w.b, e.env); }
  }

  lemma {:induction false} SizeNeverFalls(w: World, run: seq<Event>, i: nat)
    requires i <= |run|
    ensures After(w, run[..i]).b.size <= After(w, run).b.size
  {
    if i < |run| {
      var front := run[..|run| - 1];
      SizeNeverFalls(w, front, i);
      assert front[..i] == run[..i];
      StepSize(After(w, front), run[|front|]);
    } else {
      assert run[..i] == run;
    }
  }

  /** The volume a ship begins on fits the backup volume from then on, in every run: no ship runs past its end. */
  lemma {:induction false} ShipsStayInside(w: World, run: seq<Event>, i: nat)
    requires i < |run| && run[i].Ran? && Possible(After(w, run[..i]), run[i].env)
    requires RunOf(After(w, run[..i]).b, run[i].env).act.Ships?
    ensures run[i].env.serving.Some? && run[i].env.serving.value.size <= After(w, run).b.size
  {
    ShipFits(After(w, run[..i]).b, run[i].env);
    assert run[..i + 1][..i] == run[..i];
    SizeNeverFalls(w, run, i + 1);
  }

  // ------------------------------------------------------------------ prune

  /** How many points are younger. */
  function Younger(points: seq<Point>, taken: int): nat {
    if points == [] then 0
    else Younger(points[..|points| - 1], taken) + if points[|points| - 1].taken > taken then 1 else 0
  }

  predicate Aged(points: seq<Point>) {
    forall i, j :: 0 <= i < j < |points| ==> points[i].taken <= points[j].taken
  }

  lemma {:induction false} YoungerCons(p: Point, rest: seq<Point>, taken: int)
    ensures Younger([p] + rest, taken) == Younger(rest, taken) + if p.taken > taken then 1 else 0
  {
    if rest != [] {
      var front := rest[..|rest| - 1];
      YoungerCons(p, front, taken);
      assert ([p] + rest)[..|rest|] == [p] + front;
    }
  }

  lemma {:induction false} InsertMembers(p: Point, sorted: seq<Point>)
    ensures |Insert(p, sorted)| == |sorted| + 1 && forall x :: x in Insert(p, sorted) <==> x == p || x in sorted
  {
    if sorted != [] && p.taken >= sorted[0].taken {
      InsertMembers(p, sorted[1..]);
      assert forall x :: x in sorted <==> x == sorted[0] || x in sorted[1..];
    }
  }

  lemma {:induction false} InsertAged(p: Point, sorted: seq<Point>)
    requires Aged(sorted)
    ensures Aged(Insert(p, sorted))
  {
    if sorted != [] && p.taken >= sorted[0].taken {
      var r := Insert(p, sorted[1..]);
      InsertAged(p, sorted[1..]);
      InsertMembers(p, sorted[1..]);
      forall k | 0 <= k < |r| ensures sorted[0].taken <= r[k].taken {
        assert r[k] in r;
      }
    }
  }

  lemma {:induction false} InsertYounger(p: Point, sorted: seq<Point>, taken: int)
    ensures Younger(Insert(p, sorted), taken) == Younger(sorted, taken) + if p.taken > taken then 1 else 0
  {
    if sorted == [] || p.taken < sorted[0].taken {
      YoungerCons(p, sorted, taken);
    } else {
      InsertYounger(p, sorted[1..], taken);
      YoungerCons(sorted[0], Insert(p, sorted[1..]), taken);
      YoungerCons(sorted[0], sorted[1..], taken);
      assert sorted == [sorted[0]] + sorted[1..];
    }
  }

  lemma {:induction false} ByAgeIs(points: seq<Point>, taken: int)
    ensures var r := ByAge(points);
            Aged(r) && |r| == |points| && (forall x :: x in r <==> x in points) && Younger(r, taken) == Younger(points, taken)
  {
    if points != [] {
      var init, last := points[..|points| - 1], points[|points| - 1];
      ByAgeIs(init, taken);
      InsertMembers(last, ByAge(init));
      InsertAged(last, ByAge(init));
      InsertYounger(last, ByAge(init), taken);
      assert forall x :: x in points <==> x in init || x == last;
    }
  }

  lemma {:induction false} YoungerInOrder(sorted: seq<Point>, i: nat)
    requires i < |sorted| && forall a, b :: 0 <= a < b < |sorted| ==> sorted[a].taken < sorted[b].taken
    ensures Younger(sorted, sorted[i].taken) == |sorted| - 1 - i
  {
    var front := sorted[..|sorted| - 1];
    if i < |front| {
      YoungerInOrder(front, i);
    } else {
      NoneYounger(front, sorted[i].taken);
    }
  }

  lemma {:induction false} NoneYounger(points: seq<Point>, taken: int)
    requires forall p :: p in points ==> p.taken <= taken
    ensures Younger(points, taken) == 0
  {
    if points != [] {
      var front := points[..|points| - 1];
      assert forall p :: p in front ==> p in points;
      NoneYounger(front, taken);
    }
  }

  /** The same points have the same times, so a set of them counts how many there are. */
  function Times(points: seq<Point>): set<int> {
    set i | 0 <= i < |points| :: points[i].taken
  }

  lemma {:induction false} DistinctCount(points: seq<Point>)
    ensures DistinctTimes(points) <==> |Times(points)| == |points|
    ensures |Times(points)| <= |points|
  {
    if points == [] {
      assert Times(points) == {};
    } else {
      var init, last := points[..|points| - 1], points[|points| - 1];
      DistinctCount(init);
      assert Times(points) == Times(init) + {last.taken};
      if DistinctTimes(points) {
        assert last.taken !in Times(init);
      }
      if |Times(points)| == |points| {
        assert last.taken !in Times(init);
        forall i | 0 <= i < |init| ensures init[i].taken != last.taken { assert init[i].taken in Times(init); }
      }
    }
  }

  lemma {:induction false} SortedApart(points: seq<Point>)
    requires DistinctTimes(points)
    ensures var s := ByAge(points); forall a, b :: 0 <= a < b < |s| ==> s[a].taken < s[b].taken
  {
    var s := ByAge(points);
    ByAgeIs(points, 0);
    DistinctCount(points);
    DistinctCount(s);
    forall t ensures t in Times(s) <==> t in Times(points) {
      if t in Times(s) { var i :| 0 <= i < |s| && s[i].taken == t; assert s[i] in points; }
      if t in Times(points) { var i :| 0 <= i < |points| && points[i].taken == t; assert points[i] in s; }
    }
    assert Times(s) == Times(points);
  }

  /** A point is dropped exactly when `keep` others, one at least, are younger. */
  lemma {:induction false} PruneDropsTheOldest(points: seq<Point>, keep: nat, p: Point)
    requires DistinctTimes(points)
    ensures p in Prune(points, keep) <==> p in points && Younger(points, p.taken) >= keep && Younger(points, p.taken) > 0
  {
    var s := ByAge(points);
    ByAgeIs(points, p.taken);
    SortedApart(points);
    if p in points {
      var i :| 0 <= i < |s| && s[i] == p;
      YoungerInOrder(s, i);
      if p in Prune(points, keep) {
        var k :| 0 <= k < |Prune(points, keep)| && Prune(points, keep)[k] == p;
        assert s[k] == p;
        assert !(i < k) && !(k < i);
      }
      if i < |s| - AtLeastOne(keep) {
        assert Prune(points, keep)[i] == p;
      }
    } else {
      assert forall x :: x in Prune(points, keep) ==> x in s;
    }
  }

  lemma {:induction false} DeletableIs(dropped: seq<Point>, stuck: set<int>)
    ensures forall p :: p in Deletable(dropped, stuck) <==> p in dropped && p.taken !in stuck
  {
    if dropped != [] {
      var init, last := dropped[..|dropped| - 1], dropped[|dropped| - 1];
      DeletableIs(init, stuck);
      assert forall p :: p in dropped <==> p in init || p == last;
    }
  }

  /** A finished ship leaves the newest points, `keep` of them and one at least, and those that would not be deleted. */
  lemma {:induction false} PointsLeft(b: Record, env: Env, p: Point)
    requires b.job.Some? && DistinctTimes(b.points + [PointOf(b.job.value)])
    ensures var more := b.points + [PointOf(b.job.value)];
            p in Finished(b, env).points <==>
              p in more && (Younger(more, p.taken) < env.keep || Younger(more, p.taken) == 0 || p.taken in env.stuck)
  {
    var more := b.points + [PointOf(b.job.value)];
    WithoutIs(more, Named(Gone(b, env)));
    DeletableIs(Prune(more, env.keep), env.stuck);
    PruneDropsTheOldest(more, env.keep, p);
    if p in more && p.taken in Named(Gone(b, env)) {
      var q :| q in Gone(b, env) && q.taken == p.taken;
      PruneDropsTheOldest(more, env.keep, q);
      var i :| 0 <= i < |more| && more[i] == p;
      var j :| 0 <= j < |more| && more[j] == q;
      assert !(i < j) && !(j < i);
    }
  }
}
