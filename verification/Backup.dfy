/**
  Point-in-time backups (src/backup.rs): one step of the cycle at a time, on the record it advances, and the content of
  the backup volume over whole runs. A volume's content is its history of extent writes; engine answers are arguments.
*/
module Backup {
  import opened Wrappers

  // ------------------------------------------------------------- the record

  /** A snapshot to ship, on `node`; `at` is how many writes the volume had had. */
  datatype Snapshot = Snapshot(node: string, taken: int, at: nat)

  /** A snapshot of the backup volume, kept as the point at `taken`. */
  datatype Point = Point(taken: int, at: nat)

  datatype Phase = Idle | Shipping | WaitingEngine | Failed

  datatype Record = Record(
    size: nat, node: Option<string>, made: bool, attachedFor: Option<string>, base: Option<Snapshot>,
    job: Option<Snapshot>, points: seq<Point>, phase: Phase, nextAt: int)

  datatype Serving = Serving(node: string, size: nat)

  datatype JobRead = Unread | Copying | Done | Lost

  datatype ShipAnswer = Started | NoRoute | Refused

  /**
   * What one step finds. `ok` answers the one call it makes to create, attach, expand or snapshot something, `stuck`
   * are the points that cannot be deleted.
   */
  datatype Env = Env(
    now: int, index: nat, interval: nat, keep: nat, serving: Option<Serving>, pick: Option<string>, reachable: bool,
    ok: bool, job: JobRead, ship: ShipAnswer, stuck: set<int>)

  /** What a step made the engines do. */
  datatype Act = Quiet | Ships(snapshot: Snapshot) | Drops | Keeps(point: Point, gone: seq<Point>)

  datatype Turn = Turn(b: Record, act: Act, failed: bool)

  // ------------------------------------------------------------------ prune

  function Insert(p: Point, sorted: seq<Point>): seq<Point> {
    if sorted == [] || p.taken < sorted[0].taken then [p] + sorted else [sorted[0]] + Insert(p, sorted[1..])
  }

  function ByAge(points: seq<Point>): seq<Point> {
    if points == [] then [] else Insert(points[|points| - 1], ByAge(points[..|points| - 1]))
  }

  function AtLeastOne(keep: nat): nat {
    if keep == 0 then 1 else keep
  }

  /** Points beyond `keep`, oldest first. */
  function Prune(points: seq<Point>, keep: nat): seq<Point> {
    var sorted := ByAge(points);
    if |sorted| > AtLeastOne(keep) then sorted[..|sorted| - AtLeastOne(keep)] else []
  }

  function Deletable(dropped: seq<Point>, stuck: set<int>): seq<Point> {
    if dropped == [] then []
    else
      var init, p := Deletable(dropped[..|dropped| - 1], stuck), dropped[|dropped| - 1];
      if p.taken in stuck then init else init + [p]
  }

  function Named(points: seq<Point>): set<int> {
    set p | p in points :: p.taken
  }

  function Without(points: seq<Point>, names: set<int>): seq<Point> {
    if points == [] then []
    else
      var init, p := Without(points[..|points| - 1], names), points[|points| - 1];
      if p.taken in names then init else init + [p]
  }

  // ------------------------------------------------------------------- step

  function PointOf(s: Snapshot): Point {
    Point(s.taken, s.at)
  }

  function Gone(b: Record, env: Env): seq<Point>
    requires b.job.Some?
  {
    Deletable(Prune(b.points + [PointOf(b.job.value)], env.keep), env.stuck)
  }

  /** A ship is done and its point taken: older points and the old base go, the snapshot is the next base. */
  function Finished(b: Record, env: Env): Record
    requires b.job.Some?
  {
    var due := b.job.value.taken + env.interval * 1000;
    b.(points := Without(b.points + [PointOf(b.job.value)], Named(Gone(b, env))), base := b.job, job := None, phase := Idle,
       nextAt := if env.now > due then env.now else due)
  }

  function StepOf(b: Record, env: Env): Turn {
    if env.serving.None? then Turn(b, Quiet, true)
    else
      var at := env.serving.value;
      if b.node.None? then Turn(b.(node := env.pick), Quiet, env.pick.None?)
      else if !env.reachable then Turn(b, Quiet, true)
      else if !b.made then Turn(b.(made := env.ok), Quiet, !env.ok)
      else if b.attachedFor != Some(at.node) then
        Turn(if env.ok then b.(attachedFor := Some(at.node)) else b, Quiet, !env.ok)
      else if b.job.None? && at.size > b.size then Turn(if env.ok then b.(size := at.size) else b, Quiet, !env.ok)
      else if b.job.Some? then
        if b.job.value.node != at.node then Turn(b.(job := None, phase := Idle, nextAt := env.now), Drops, true)
        else
          match env.job
          case Unread => Turn(b, Quiet, true)
          case Copying => Turn(b, Quiet, false)
          case Lost => Turn(b.(job := None), Drops, true)
          case Done =>
            if env.ok then Turn(Finished(b, env), Keeps(PointOf(b.job.value), Gone(b, env)), false) else Turn(b, Quiet, true)
      else if env.now < b.nextAt then Turn(b, Quiet, false)
      else if !env.ok then Turn(b, Quiet, true)
      else
        var s := Snapshot(at.node, env.now, env.index);
        match env.ship
        case Started => Turn(b.(job := Some(s), phase := Shipping), Ships(s), false)
        case NoRoute => Turn(b.(phase := WaitingEngine, nextAt := env.now + env.interval * 1000), Quiet, false)
        case Refused => Turn(b, Quiet, true)
  }

  /** A step of the reconciler: one that fails is tried again an interval later. */
  function RunOf(b: Record, env: Env): Turn {
    var t := StepOf(b, env);
    if t.failed then t.(b := t.b.(phase := Failed, nextAt := env.now + env.interval * 1000)) else t
  }

  class BackupRecord {
    var size: nat
    var node: Option<string>
    var made: bool
    var attachedFor: Option<string>
    var base: Option<Snapshot>
    var job: Option<Snapshot>
    var points: seq<Point>
    var phase: Phase
    var nextAt: int

    constructor (size: nat, now: int)
      ensures View() == Record(size, None, false, None, None, None, [], Idle, now)
    {
      this.size, nextAt := size, now;
      node, made, attachedFor, base, job, points, phase := None, false, None, None, None, [], Idle;
    }

    function View(): Record
      reads this
    {
      Record(size, node, made, attachedFor, base, job, points, phase, nextAt)
    }

    method Finish(env: Env) returns (act: Act)
      requires job.Some?
      modifies this
      ensures View() == Finished(old(View()), env)
      ensures act == Keeps(PointOf(old(job).value), Gone(old(View()), env))
    {
      var s := job.value;
      var more := points + [PointOf(s)];
      var dropped := Prune(more, env.keep);
      var gone: seq<Point> := [];
      var i := 0;
      while i < |dropped|
        invariant 0 <= i <= |dropped|
        invariant gone == Deletable(dropped[..i], env.stuck)
      {
        assert dropped[..i + 1][..i] == dropped[..i];
        if dropped[i].taken !in env.stuck {
          gone := gone + [dropped[i]];
        }
        i := i + 1;
      }
      assert dropped[..|dropped|] == dropped;
      points := Without(more, Named(gone));
      base, job, phase := Some(s), None, Idle;
      var due := s.taken + env.interval * 1000;
      nextAt := if env.now > due then env.now else due;
      act := Keeps(PointOf(s), gone);
    }

    method Step(env: Env) returns (act: Act, failed: bool)
      modifies this
      ensures Turn(View(), act, failed) == StepOf(old(View()), env)
    {
      act, failed := Quiet, true;
      if env.serving.None? {
        return;
      }
      var at := env.serving.value;
      if node.None? {
        node, failed := env.pick, env.pick.None?;
        return;
      }
      if !env.reachable {
        return;
      }
      if !made {
        made, failed := env.ok, !env.ok;
        return;
      }
      if attachedFor != Some(at.node) {
        if env.ok {
          attachedFor, failed := Some(at.node), false;
        }
        return;
      }
      if job.None? && at.size > size {
        if env.ok {
          size, failed := at.size, false;
        }
        return;
      }
      if job.Some? {
        if job.value.node != at.node {
          job, phase, nextAt, act := None, Idle, env.now, Drops;
          return;
        }
        match env.job {
          case Unread =>
          case Copying => failed := false;
          case Lost => job, act := None, Drops;
          case Done =>
            if env.ok {
              act := Finish(env);
              failed := false;
            }
        }
        return;
      }
      if env.now < nextAt {
        failed := false;
        return;
      }
      if !env.ok {
        return;
      }
      match env.ship {
        case Started =>
          job, phase := Some(Snapshot(at.node, env.now, env.index)), Shipping;
          act, failed := Ships(job.value), false;
        case NoRoute => phase, nextAt, failed := WaitingEngine, env.now + env.interval * 1000, false;
        case Refused =>
      }
    }

    method Run(env: Env) returns (act: Act, failed: bool)
      modifies this
      ensures Turn(View(), act, failed) == RunOf(old(View()), env)
    {
      act, failed := Step(env);
      if failed {
        phase, nextAt := Failed, env.now + env.interval * 1000;
      }
    }
  }

  // ------------------------------------------------------------------ data

  datatype Write = Write(extent: nat, value: int)

  type Content = map<nat, int>

  /** What the volume held after its first `n` writes. */
  function ContentAt(writes: seq<Write>, n: nat): Content
    requires n <= |writes|
  {
    if n == 0 then map[] else ContentAt(writes, n - 1)[writes[n - 1].extent := writes[n - 1].value]
  }

  /** The extents written after the first `a` writes, up to the `b`-th. */
  function Written(writes: seq<Write>, a: nat, b: nat): set<nat>
    requires b <= |writes|
  {
    set i | a <= i < b :: writes[i].extent
  }

  function Overlay(target: Content, content: Content, which: set<nat>): Content {
    map e | e in target.Keys + which && (e in which ==> e in content) :: if e in which then content[e] else target[e]
  }

  predicate AgreeOn(a: Content, b: Content, e: nat) {
    (e in a <==> e in b) && (e in a ==> a[e] == b[e])
  }

  /**
   * The volume's writes, the backup volume, what the ship in flight still has to copy, the snapshot last tried, the
   * points the backup node holds, and the record.
   */
  datatype World = World(
    writes: seq<Write>, target: Content, left: set<nat>, tried: nat, held: map<int, Content>, clock: int, b: Record)

  datatype Event = Wrote(w: Write) | Copied(which: set<nat>) | Ran(env: Env)

  function BaseAt(b: Record): nat {
    if b.base.Some? then b.base.value.at else 0
  }

  /**
   * Answers engines can give: time does not go back, a job is done when all it was to copy is there, and a snapshot
   * cannot take the name of one that is there.
   */
  predicate Possible(w: World, env: Env) {
    && w.clock <= env.now && env.index == |w.writes|
    && (env.job == Done ==> w.left == {})
    && (RunOf(w.b, env).act.Ships? && w.b.base.Some? ==> w.b.base.value.taken != env.now)
  }

  function Do(w: World, e: Event): World {
    match e
    case Wrote(x) => w.(writes := w.writes + [x])
    case Copied(which) =>
      if w.b.job.Some? && w.b.job.value.at <= |w.writes| then
        w.(target := Overlay(w.target, ContentAt(w.writes, w.b.job.value.at), which * w.left), left := w.left - which)
      else w
    case Ran(env) =>
      if !Possible(w, env) then w
      else
        var t := RunOf(w.b, env);
        var n := w.(b := t.b, clock := env.now);
        match t.act
        case Quiet => n
        case Drops => n.(left := {})
        case Ships(s) =>
          if s.at <= |w.writes| then n.(tried := s.at, left := Written(w.writes, BaseAt(w.b), s.at)) else n
        case Keeps(p, gone) => n.(held := w.held[p.taken := w.target] - Named(gone))
  }

  function After(w: World, run: seq<Event>): World {
    if run == [] then w else Do(After(w, run[..|run| - 1]), run[|run| - 1])
  }
}
