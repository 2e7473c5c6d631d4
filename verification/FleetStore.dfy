/**
  The fleet store (src/store.rs): any number of instances share one etcd. They elect a leader by
  creating a leased key, write records only in transactions guarded on that key's create revision,
  and reload when `meta` moves.

  An instance has two threads: the leadership round (`step`: campaign, load, lead, follow) and the
  writes (`sync`), which exclude each other's use of `written` by its lock. Requests to etcd may be
  delayed, repeated or lost, before or after they take effect. An instance that restarts is a new one.
*/
module FleetStore {
  import opened Wrappers
  import opened Records

  // ------------------------------------------------- what an instance keeps

  datatype Role = Starting | Leader | Follower

  /** The part of an instance's status the protocol acts on, and the records as last written or loaded. */
  datatype Local = Local(
    role: Role, lease: Option<nat>, leaderRevision: Option<nat>, metaRevision: nat, written: Records)

  const FRESH := Local(Starting, None, None, 0, map[])

  function Wrote(l: Local, ops: seq<Op>, revision: nat): Local {
    l.(written := ApplyAll(l.written, ops), metaRevision := revision)
  }

  function LoadedFrom(l: Local, records: Records, metaRevision: nat): Local {
    l.(written := records, metaRevision := metaRevision)
  }

  function SteppedDown(l: Local): Local {
    l.(role := Follower, lease := None, leaderRevision := None, metaRevision := 0)
  }

  function Elected(l: Local, lease: nat, created: nat): Local {
    l.(role := Leader, lease := Some(lease), leaderRevision := Some(created))
  }

  // ------------------------------------------------------------------ etcd

  datatype LeaderKey = LeaderKey(owner: nat, lease: nat, created: nat)

  /** `meta` is the modification revision of that key, 0 while it does not exist. */
  datatype Etcd = Etcd(
    revision: nat, leader: Option<LeaderKey>, meta: nat, records: Records, leases: set<nat>, granted: nat)

  /** The guard of every write: the leader key is still the one created at this revision. */
  predicate Guarded(e: Etcd, created: nat) {
    e.leader.Some? && e.leader.value.created == created
  }

  /** A write transaction takes effect: its operations, and `meta` with them. */
  function Land(e: Etcd, ops: seq<Op>): Etcd {
    e.(revision := e.revision + 1, meta := e.revision + 1, records := ApplyAll(e.records, ops))
  }

  function CreateLeader(e: Etcd, owner: nat, lease: nat): Etcd {
    e.(revision := e.revision + 1, leader := Some(LeaderKey(owner, lease, e.revision + 1)))
  }

  /** A lease ends, by expiry or revoke, and the leader key bound to it goes with it. */
  function EndLease(e: Etcd, lease: nat): Etcd {
    if e.leader.Some? && e.leader.value.lease == lease then
      e.(leases := e.leases - {lease}, leader := None, revision := e.revision + 1)
    else
      e.(leases := e.leases - {lease})
  }

  // ------------------------------------------------------------- the system

  datatype Request =
    | Write(owner: nat, guard: nat, ops: seq<Op>)
    | Create(owner: nat, lease: nat)

  /** What the sender of the chunk in flight has been answered. */
  datatype Stage = Sent | Landed(revision: nat) | Refused

  /** A `sync` holding the lock of `written`; `chunks[0]` is in flight. */
  datatype Sync = Idle | Syncing(guard: nat, chunks: seq<seq<Op>>, stage: Stage)

  datatype Term = Term(lease: nat, created: nat)

  /** Where the leadership round is. `Reading` is a load, which holds the lock of `written`. */
  datatype Round =
    | Resting
    | Campaigning(lease: nat)
    | Won(term: Term)
    | Reading(forTerm: Option<Term>, snapshot: Records, snapshotMeta: nat, snapshotUnsure: set<string>)
    | Ready(term: Term, held: bool)
    | Importing

  /**
    `led` and `unsure` are history: the create revisions this instance has led at, and the keys on which
    a request it got no answer for, or the clearing of `written`, may have left `written` behind the store.
  */
  datatype Instance = Instance(local: Local, led: set<nat>, sync: Sync, round: Round, unsure: set<string>)

  datatype Event = TermBegan(revision: nat, owner: nat) | WriteLanded(revision: nat, owner: nat, guard: nat)

  /** `flying` are the requests ever sent: each may still take effect, once or more, or never. */
  datatype World = World(etcd: Etcd, instances: seq<Instance>, flying: set<Request>, log: seq<Event>)

  /** What one thread of an instance does next. */
  datatype Action =
    | SeeHolder
    | Campaign
    | CampaignEnds
    | ReadAll
    | TakeRead(parses: bool)
    | Lead
    | ClearWritten
    | BeginSync(guard: nat, chunks: seq<seq<Op>>)
    | TakeAnswer
    | GiveUp
    | StepDown

  datatype Step =
    | Deliver(request: Request, answered: bool)
    | Expire(lease: nat)
    | Act(i: nat, action: Action)

  function Init(n: nat): World {
    World(Etcd(1, None, 0, map[], {}, 0), seq(n, i => Instance(FRESH, {}, Idle, Resting, {})), {}, [])
  }

  predicate LockFree(x: Instance) {
    x.sync.Idle? && !x.round.Reading?
  }

  predicate Waits(x: Instance, r: Request) {
    r.Write? && x.sync.Syncing? && x.sync.stage.Sent? && x.sync.guard == r.guard && x.sync.chunks != []
    && x.sync.chunks[0] == r.ops
  }

  /** The instance cannot tell whether the operations on these keys took effect. */
  function Doubt(x: Instance, keys: set<string>): Instance {
    var y := x.(unsure := x.unsure + keys);
    if x.round.Reading? then y.(round := x.round.(snapshotUnsure := x.round.snapshotUnsure + keys)) else y
  }

  function DeliverWrite(w: World, r: Request, answered: bool): World
    requires r.Write? && r.owner < |w.instances|
  {
    var x := w.instances[r.owner];
    if Guarded(w.etcd, r.guard) then
      var e := Land(w.etcd, r.ops);
      var y := if answered && Waits(x, r)
               then x.(sync := x.sync.(stage := Landed(e.revision)), unsure := x.unsure - Keys(r.ops))
               else Doubt(x, Keys(r.ops));
      w.(etcd := e, instances := w.instances[r.owner := y],
      log := w.log + [WriteLanded(e.revision, r.owner, r.guard)])
    else if answered && Waits(x, r) then
      w.(instances := w.instances[r.owner := x.(sync := x.sync.(stage := Refused))])
    else
      w
  }

  function DeliverCreate(w: World, r: Request, answered: bool): World
    requires r.Create? && r.owner < |w.instances|
  {
    var x := w.instances[r.owner];
    var waits := answered && x.round == Campaigning(r.lease);
    if w.etcd.leader.None? && r.lease in w.etcd.leases then
      var e := CreateLeader(w.etcd, r.owner, r.lease);
      var y := if waits then x.(round := Won(Term(r.lease, e.revision))) else x;
      w.(etcd := e, instances := w.instances[r.owner := y], log := w.log + [TermBegan(e.revision, r.owner)])
    else if waits then
      w.(instances := w.instances[r.owner := x.(round := Resting, local := x.local.(role := Follower))])
    else
      w
  }

  /** A load's answer replaces memory, unless a record does not parse or the store holds no `meta`. */
  function TakeReadInto(x: Instance, parses: bool): Instance
    requires x.round.Reading?
  {
    var t := x.round.forTerm;
    if x.round.snapshotMeta == 0 then
      x.(round := if t.Some? then Ready(t.value, false) else Resting)
    else if !parses then
      x.(round := Resting)
    else
      x.(local := LoadedFrom(x.local, x.round.snapshot, x.round.snapshotMeta), unsure := x.round.snapshotUnsure,
      round := if t.Some? then Ready(t.value, true) else Resting)
  }

  function TakeAnswerInto(x: Instance): Instance
    requires x.sync.Syncing? && x.sync.chunks != []
  {
    match x.sync.stage
    case Sent => x
    case Refused => x.(sync := Idle, local := SteppedDown(x.local))
    case Landed(revision) =>
      var rest := x.sync.chunks[1..];
      x.(local := Wrote(x.local, x.sync.chunks[0], revision),
      sync := if rest == [] then Idle else Syncing(x.sync.guard, rest, Sent))
  }

  /** The requests on the wire once the instance waits for its next chunk. */
  function Flying(w: World, i: nat, y: Instance): set<Request> {
    if y.sync.Syncing? && y.sync.chunks != [] then w.flying + {Write(i, y.sync.guard, y.sync.chunks[0])} else w.flying
  }

  function Set(w: World, i: nat, y: Instance): World
    requires i < |w.instances|
  {
    w.(instances := w.instances[i := y], flying := Flying(w, i, y))
  }

  predicate Allowed(x: Instance, e: Etcd, a: Action) {
    match a
    case SeeHolder => x.round.Resting? && x.local.role != Leader && e.leader.Some?
    case Campaign => x.round.Resting? && x.local.role != Leader
    case CampaignEnds => x.round.Campaigning? || x.round.Won?
    case ReadAll => x.sync.Idle? && (x.round.Won? || (x.round.Resting? && x.local.role != Leader))
    case TakeRead(_) => x.round.Reading?
    case Lead => x.round.Ready?
    case ClearWritten => x.round.Importing? && x.sync.Idle?
    case BeginSync(guard, chunks) =>
      LockFree(x) && guard in x.led && chunks != [] && (forall c :: c in chunks ==> 0 < |c| <= TXN_OPS)
    case TakeAnswer => x.sync.Syncing? && x.sync.chunks != []
    case GiveUp => x.sync.Syncing? && x.sync.chunks != []
    case StepDown => true
  }

  const TXN_OPS := 100

  /** The instance after its own step, with etcd's state `e` before it. */
  function Acted(x: Instance, e: Etcd, a: Action): Instance
    requires Allowed(x, e, a)
  {
    match a
    case SeeHolder => x.(local := x.local.(role := Follower))
    case Campaign => x.(round := Campaigning(e.granted))
    case CampaignEnds => x.(round := Resting)
    case ReadAll => x.(round := Reading(if x.round.Won? then Some(x.round.term) else None, e.records, e.meta, {}))
    case TakeRead(parses) => TakeReadInto(x, parses)
    case Lead =>
      x.(local := Elected(x.local, x.round.term.lease, x.round.term.created), led := x.led + {x.round.term.created},
      round := if x.round.held then Resting else Importing)
    case ClearWritten =>
      x.(local := x.local.(written := map[]), unsure := x.unsure + x.local.written.Keys, round := Resting)
    case BeginSync(guard, chunks) => x.(sync := Syncing(guard, chunks, Sent))
    case TakeAnswer => TakeAnswerInto(x)
    case GiveUp =>
      x.(sync := Idle, unsure := if x.sync.stage.Landed? then x.unsure + Keys(x.sync.chunks[0]) else x.unsure)
    case StepDown => x.(local := SteppedDown(x.local))
  }

  predicate Enabled(w: World, s: Step) {
    match s
    case Deliver(r, _) => r in w.flying && r.owner < |w.instances|
    case Expire(_) => true
    case Act(i, a) => i < |w.instances| && Allowed(w.instances[i], w.etcd, a)
  }

  function Next(w: World, s: Step): World
    requires Enabled(w, s)
  {
    match s
    case Deliver(r, answered) => if r.Write? then DeliverWrite(w, r, answered) else DeliverCreate(w, r, answered)
    case Expire(lease) => w.(etcd := EndLease(w.etcd, lease))
    case Act(i, a) =>
      var v := Set(w, i, Acted(w.instances[i], w.etcd, a));
      if a.Campaign? then
        v.(etcd := w.etcd.(granted := w.etcd.granted + 1, leases := w.etcd.leases + {w.etcd.granted}),
        flying := v.flying + {Create(i, w.etcd.granted)})
      else v
  }

  /** A run: each step that can be taken is, the others change nothing. */
  function Run(w: World, steps: seq<Step>): World {
    if steps == [] then w
    else
      var v := Run(w, steps[..|steps| - 1]);
      var s := steps[|steps| - 1];
      if Enabled(v, s) then Next(v, s) else v
  }

  // -------------------------------------------------------------- invariants

  /** The term the log was in last: its create revision and its owner. */
  function LastTerm(log: seq<Event>): Option<(nat, nat)> {
    if log == [] then None
    else match log[|log| - 1]
         case TermBegan(revision, owner) => Some((revision, owner))
         case WriteLanded(_, _, _) => LastTerm(log[..|log| - 1])
  }

  /** Landed writes are their term's. */
  ghost predicate InTerms(log: seq<Event>) {
    forall k :: 0 <= k < |log| && log[k].WriteLanded? ==> LastTerm(log[..k]) == Some((log[k].guard, log[k].owner))
  }

  ghost predicate LogInv(w: World) {
    && (forall k :: 0 <= k < |w.log| ==> w.log[k].revision <= w.etcd.revision)
    && (forall j, k :: 0 <= j < k < |w.log| ==> w.log[j].revision < w.log[k].revision)
    && InTerms(w.log)
    && (w.etcd.leader.Some? ==> LastTerm(w.log) == Some((w.etcd.leader.value.created, w.etcd.leader.value.owner)))
  }

  /** The instance created the leader key that began the term at this revision. */
  ghost predicate Began(log: seq<Event>, created: nat, owner: nat) {
    TermBegan(created, owner) in log
  }

  ghost predicate EtcdInv(e: Etcd) {
    && e.meta <= e.revision
    && (e.meta == 0 ==> e.records == map[])
  }

  /** `written` once the answer in flight is taken. */
  function Effective(x: Instance): Records {
    if x.sync.Syncing? && x.sync.stage.Landed? && x.sync.chunks != []
    then ApplyAll(x.local.written, x.sync.chunks[0]) else x.local.written
  }

  /** What the instance did, it did as the creator of the terms it names. */
  ghost predicate OwnTerms(x: Instance, i: nat, log: seq<Event>) {
    && (forall c :: c in x.led ==> Began(log, c, i))
    && (x.sync.Syncing? ==> x.sync.guard in x.led)
    && (x.round.Won? || x.round.Ready? ==> Began(log, x.round.term.created, i))
    && (x.round.Reading? && x.round.forTerm.Some? ==> Began(log, x.round.forTerm.value.created, i))
  }

  ghost predicate Locks(x: Instance) {
    && (x.sync.Syncing? ==> !x.round.Reading? && x.sync.chunks != [])
  }

  /** The terms the instance may write in, now or once it takes the lead. */
  function MayWriteIn(x: Instance): set<nat> {
    x.led + (if x.round.Ready? then {x.round.term.created} else {})
  }

  function ReadsFor(x: Instance): set<nat>
    requires x.round.Reading?
  {
    x.led + (if x.round.forTerm.Some? then {x.round.forTerm.value.created} else {})
  }

  /** While its key stands, `written` is the store's records but for the keys it is unsure of. */
  ghost predicate AgreesInTerm(x: Instance, e: Etcd) {
    && (forall c :: c in MayWriteIn(x) && Guarded(e, c) ==> AgreeOff(Effective(x), e.records, x.unsure))
    && (x.round.Reading? ==>
          forall c :: c in ReadsFor(x) && Guarded(e, c) ==>
            AgreeOff(x.round.snapshot, e.records, x.round.snapshotUnsure))
  }

  /** The same for an instance whose `meta` revision is the store's. */
  ghost predicate AgreesAtMeta(x: Instance, e: Etcd) {
    && x.local.metaRevision <= e.meta
    && (0 != x.local.metaRevision == e.meta ==> AgreeOff(x.local.written, e.records, x.unsure))
    && (x.sync.Syncing? && x.sync.stage.Landed? ==>
          && x.local.metaRevision < x.sync.stage.revision <= e.meta
          && (x.sync.stage.revision == e.meta ==> AgreeOff(Effective(x), e.records, x.unsure)))
    && (e.meta == 0 ==> x.local.written == map[])
    && (x.round.Reading? ==>
          && x.round.snapshotMeta <= e.meta
          && x.round.snapshotUnsure <= x.unsure
          && (x.round.snapshotMeta == e.meta ==> AgreeOff(x.round.snapshot, e.records, x.round.snapshotUnsure))
          && (x.round.snapshotMeta == 0 ==> x.round.snapshot == map[] == x.local.written))
  }

  ghost predicate InstanceInv(x: Instance, i: nat, w: World) {
    && OwnTerms(x, i, w.log)
    && Locks(x)
    && AgreesInTerm(x, w.etcd)
    && AgreesAtMeta(x, w.etcd)
  }

  ghost predicate Inv(w: World) {
    && EtcdInv(w.etcd)
    && LogInv(w)
    && (forall r :: r in w.flying && r.Write? ==> Began(w.log, r.guard, r.owner))
    && (forall i :: 0 <= i < |w.instances| ==> InstanceInv(w.instances[i], i, w))
  }

  // ---------------------------------------------------- each step keeps them

  lemma {:induction false} LastTermBegan(log: seq<Event>)
    ensures LastTerm(log).Some? ==> Began(log, LastTerm(log).value.0, LastTerm(log).value.1)
  {
    if log != [] && log[|log| - 1].WriteLanded? { LastTermBegan(log[..|log| - 1]); }
  }

  /** A revision begins one term: it has one owner. */
  lemma {:induction false} OneOwner(w: World, created: nat, i: nat, j: nat)
    requires LogInv(w) && Began(w.log, created, i) && Began(w.log, created, j)
    ensures i == j && created <= w.etcd.revision
  {
    var a :| 0 <= a < |w.log| && w.log[a] == TermBegan(created, i);
    var b :| 0 <= b < |w.log| && w.log[b] == TermBegan(created, j);
    assert a == b by {
      assert w.log[a].revision == w.log[b].revision;
    }
  }

  lemma {:induction false} ActKeepsTerms(x: Instance, i: nat, e: Etcd, log: seq<Event>, a: Action)
    requires Allowed(x, e, a) && OwnTerms(x, i, log) && Locks(x)
    requires e.leader.Some? ==> Began(log, e.leader.value.created, e.leader.value.owner)
    ensures OwnTerms(Acted(x, e, a), i, log) && Locks(Acted(x, e, a))
  {
  }

  lemma {:induction false} ActKeepsInTerm(x: Instance, e: Etcd, a: Action)
    requires Allowed(x, e, a) && EtcdInv(e) && Locks(x) && AgreesInTerm(x, e) && AgreesAtMeta(x, e)
    ensures AgreesInTerm(Acted(x, e, a), e)
  {
    if a.GiveUp? && x.sync.stage.Landed? { ApplyAllFrame(x.local.written, x.sync.chunks[0]); }
  }

  lemma {:induction false} ActKeepsAtMeta(x: Instance, e: Etcd, a: Action)
    requires Allowed(x, e, a) && EtcdInv(e) && Locks(x) && AgreesInTerm(x, e) && AgreesAtMeta(x, e)
    ensures AgreesAtMeta(Acted(x, e, a), e)
  {
    if a.GiveUp? && x.sync.stage.Landed? { ApplyAllFrame(x.local.written, x.sync.chunks[0]); }
  }

  /** An instance's own step, which leaves the store alone, keeps what holds of it. */
  lemma {:induction false} ActKeeps(x: Instance, i: nat, w: World, a: Action)
    requires Inv(w) && i < |w.instances| && x == w.instances[i] && Allowed(x, w.etcd, a)
    ensures InstanceInv(Acted(x, w.etcd, a), i, w)
  {
    assert InstanceInv(x, i, w);
    LastTermBegan(w.log);
    ActKeepsTerms(x, i, w.etcd, w.log, a);
    ActKeepsInTerm(x, w.etcd, a);
    ActKeepsAtMeta(x, w.etcd, a);
  }

  /** A write that lands keeps what holds of any instance but its sender, whatever these believe. */
  lemma {:induction false} LandKeepsOther(x: Instance, j: nat, w: World, r: Request)
    requires Inv(w) && r.Write? && Guarded(w.etcd, r.guard) && Began(w.log, r.guard, r.owner)
    requires j < |w.instances| && x == w.instances[j] && j != r.owner
    ensures AgreesInTerm(x, Land(w.etcd, r.ops)) && AgreesAtMeta(x, Land(w.etcd, r.ops))
  {
    assert InstanceInv(x, j, w);
    if r.guard in MayWriteIn(x) || (x.round.Reading? && r.guard in ReadsFor(x)) {
      OneOwner(w, r.guard, r.owner, j);
    }
  }

  /** A write that lands unanswered leaves its sender unsure of its keys, and right about the others. */
  lemma {:induction false} LandKeepsDoubting(x: Instance, w: World, r: Request)
    requires Inv(w) && r.Write? && r.owner < |w.instances| && x == w.instances[r.owner]
    ensures AgreesInTerm(Doubt(x, Keys(r.ops)), Land(w.etcd, r.ops))
    ensures AgreesAtMeta(Doubt(x, Keys(r.ops)), Land(w.etcd, r.ops))
  {
    assert InstanceInv(x, r.owner, w);
    ApplyAllFrame(w.etcd.records, r.ops);
    var y, e := Doubt(x, Keys(r.ops)), Land(w.etcd, r.ops);
    assert Effective(y) == Effective(x) && MayWriteIn(y) == MayWriteIn(x);
    forall c: nat | Guarded(e, c) ensures Guarded(w.etcd, c) {}
  }

  /** One that lands while its sender waits for it makes it sure of the keys it wrote. */
  lemma {:induction false} LandKeepsWaiting(x: Instance, w: World, r: Request)
    requires Inv(w) && r.Write? && r.owner < |w.instances| && x == w.instances[r.owner]
    requires Guarded(w.etcd, r.guard) && Waits(x, r)
    ensures var e := Land(w.etcd, r.ops);
            var y := x.(sync := x.sync.(stage := Landed(e.revision)), unsure := x.unsure - Keys(r.ops));
            AgreesInTerm(y, e) && AgreesAtMeta(y, e)
  {
    assert InstanceInv(x, r.owner, w);
    assert r.guard in MayWriteIn(x);
    ApplyAllAgrees(x.local.written, w.etcd.records, x.unsure, r.ops);
  }

  lemma {:induction false} BeganGrows(log: seq<Event>, more: seq<Event>, created: nat, owner: nat)
    requires log <= more && Began(log, created, owner)
    ensures Began(more, created, owner)
  {
    var k :| 0 <= k < |log| && log[k] == TermBegan(created, owner);
    assert more[k] == log[k];
  }

  lemma {:induction false} OwnTermsGrow(x: Instance, i: nat, log: seq<Event>, more: seq<Event>)
    requires log <= more && OwnTerms(x, i, log)
    ensures OwnTerms(x, i, more)
  {
    forall c | Began(log, c, i) ensures Began(more, c, i) { BeganGrows(log, more, c, i); }
  }

  lemma {:induction false} FlyingGrow(flying: set<Request>, log: seq<Event>, more: seq<Event>)
    requires log <= more && forall r :: r in flying && r.Write? ==> Began(log, r.guard, r.owner)
    ensures forall r :: r in flying && r.Write? ==> Began(more, r.guard, r.owner)
  {
    forall r | r in flying && r.Write? ensures Began(more, r.guard, r.owner) { BeganGrows(log, more, r.guard, r.owner); }
  }

  lemma {:induction false} TermsGrow(log: seq<Event>, e: Event)
    requires InTerms(log) && (e.WriteLanded? ==> LastTerm(log) == Some((e.guard, e.owner)))
    ensures InTerms(log + [e])
  {
    var more := log + [e];
    assert more[..|log|] == log;
    forall k | 0 <= k < |log| && more[k].WriteLanded? ensures LastTerm(more[..k]) == Some((more[k].guard, more[k].owner)) {
      assert more[..k] == log[..k] && more[k] == log[k];
    }
  }

  /** What is in the log stays: one more event, of a higher revision. */
  lemma {:induction false} LogGrows(w: World, v: World)
    requires LogInv(w) && |v.log| == |w.log| + 1 && w.log <= v.log
    requires w.etcd.revision < v.log[|w.log|].revision == v.etcd.revision
    requires v.log[|w.log|].WriteLanded? ==> LastTerm(w.log) == Some((v.log[|w.log|].guard, v.log[|w.log|].owner))
    requires v.etcd.leader.Some? ==> LastTerm(v.log) == Some((v.etcd.leader.value.created, v.etcd.leader.value.owner))
    ensures LogInv(v)
  {
    TermsGrow(w.log, v.log[|w.log|]);
    assert v.log == w.log + [v.log[|w.log|]];
    assert InTerms(v.log);
  }

  lemma {:induction false} WriteKeepsLog(w: World, r: Request, answered: bool)
    requires Inv(w) && Enabled(w, Deliver(r, answered)) && r.Write? && Guarded(w.etcd, r.guard)
    ensures var v := DeliverWrite(w, r, answered); w.log <= v.log && LogInv(v)
  {
    var v := DeliverWrite(w, r, answered);
    LastTermBegan(w.log);
    OneOwner(w, r.guard, r.owner, w.etcd.leader.value.owner);
    assert v.log[..|w.log|] == w.log;
    LogGrows(w, v);
  }

  lemma {:induction false} WriteKeepsEach(w: World, r: Request, answered: bool, j: nat)
    requires Inv(w) && Enabled(w, Deliver(r, answered)) && r.Write? && Guarded(w.etcd, r.guard) && j < |w.instances|
    ensures InstanceInv(DeliverWrite(w, r, answered).instances[j], j, DeliverWrite(w, r, answered))
  {
    var v := DeliverWrite(w, r, answered);
    var x := w.instances[j];
    assert InstanceInv(x, j, w);
    OwnTermsGrow(x, j, w.log, v.log);
    if j != r.owner {
      LandKeepsOther(x, j, w, r);
    } else if answered && Waits(x, r) {
      LandKeepsWaiting(x, w, r);
    } else {
      LandKeepsDoubting(x, w, r);
    }
  }

  lemma {:induction false} RefusalKeeps(w: World, r: Request, answered: bool)
    requires Inv(w) && Enabled(w, Deliver(r, answered)) && r.Write? && !Guarded(w.etcd, r.guard)
    ensures Inv(DeliverWrite(w, r, answered))
  {
    var v := DeliverWrite(w, r, answered);
    forall j | 0 <= j < |v.instances| ensures InstanceInv(v.instances[j], j, v) {
      assert InstanceInv(w.instances[j], j, w);
    }
  }

  lemma {:induction false} DeliverWriteKeeps(w: World, r: Request, answered: bool)
    requires Inv(w) && Enabled(w, Deliver(r, answered)) && r.Write?
    ensures Inv(DeliverWrite(w, r, answered))
  {
    if Guarded(w.etcd, r.guard) {
      var v := DeliverWrite(w, r, answered);
      WriteKeepsLog(w, r, answered);
      FlyingGrow(w.flying, w.log, v.log);
      forall j | 0 <= j < |v.instances| ensures InstanceInv(v.instances[j], j, v) {
        WriteKeepsEach(w, r, answered, j);
      }
    } else {
      RefusalKeeps(w, r, answered);
    }
  }

  lemma {:induction false} CreateBegins(w: World, r: Request, answered: bool)
    requires Inv(w) && Enabled(w, Deliver(r, answered)) && r.Create?
    requires w.etcd.leader.None? && r.lease in w.etcd.leases
    ensures var v := DeliverCreate(w, r, answered);
            w.log <= v.log && LogInv(v) && Began(v.log, v.etcd.revision, r.owner)
  {
    var v := DeliverCreate(w, r, answered);
    LogGrows(w, v);
    assert v.log[|w.log|] == TermBegan(v.etcd.revision, r.owner);
  }

  lemma {:induction false} CreateKeepsEach(w: World, r: Request, answered: bool, j: nat)
    requires Inv(w) && Enabled(w, Deliver(r, answered)) && r.Create? && j < |w.instances|
    requires w.etcd.leader.None? && r.lease in w.etcd.leases
    ensures InstanceInv(DeliverCreate(w, r, answered).instances[j], j, DeliverCreate(w, r, answered))
  {
    var v := DeliverCreate(w, r, answered);
    CreateBegins(w, r, answered);
    assert InstanceInv(w.instances[j], j, w);
    OwnTermsGrow(w.instances[j], j, w.log, v.log);
    // The new key's revision is above every one an instance has led at.
    forall c: nat | Began(w.log, c, j) ensures c <= w.etcd.revision { OneOwner(w, c, j, j); }
  }

  lemma {:induction false} CreateRefusalKeeps(w: World, r: Request, answered: bool)
    requires Inv(w) && Enabled(w, Deliver(r, answered)) && r.Create?
    requires !(w.etcd.leader.None? && r.lease in w.etcd.leases)
    ensures Inv(DeliverCreate(w, r, answered))
  {
    var v := DeliverCreate(w, r, answered);
    forall j | 0 <= j < |v.instances| ensures InstanceInv(v.instances[j], j, v) {
      assert InstanceInv(w.instances[j], j, w);
    }
  }

  lemma {:induction false} DeliverCreateKeeps(w: World, r: Request, answered: bool)
    requires Inv(w) && Enabled(w, Deliver(r, answered)) && r.Create?
    ensures Inv(DeliverCreate(w, r, answered))
  {
    if w.etcd.leader.None? && r.lease in w.etcd.leases {
      var v := DeliverCreate(w, r, answered);
      CreateBegins(w, r, answered);
      FlyingGrow(w.flying, w.log, v.log);
      forall j | 0 <= j < |v.instances| ensures InstanceInv(v.instances[j], j, v) {
        CreateKeepsEach(w, r, answered, j);
      }
    } else {
      CreateRefusalKeeps(w, r, answered);
    }
  }

  lemma {:induction false} ExpireKeeps(w: World, lease: nat)
    requires Inv(w)
    ensures Inv(Next(w, Expire(lease)))
  {
    var v := Next(w, Expire(lease));
    forall j | 0 <= j < |v.instances| ensures InstanceInv(v.instances[j], j, v) {
      assert InstanceInv(w.instances[j], j, w);
    }
  }

  lemma {:induction false} ActStepKeeps(w: World, i: nat, a: Action)
    requires Inv(w) && Enabled(w, Act(i, a))
    ensures Inv(Next(w, Act(i, a)))
  {
    var v := Next(w, Act(i, a));
    ActKeeps(w.instances[i], i, w, a);
    forall j | 0 <= j < |v.instances| ensures InstanceInv(v.instances[j], j, v) {
      assert InstanceInv(w.instances[j], j, w);
      assert InstanceInv(v.instances[j], j, w);
    }
  }

  lemma {:induction false} StepKeepsInv(w: World, s: Step)
    requires Inv(w) && Enabled(w, s)
    ensures Inv(Next(w, s)) && |Next(w, s).instances| == |w.instances|
  {
    match s
    case Deliver(r, answered) =>
      if r.Write? { DeliverWriteKeeps(w, r, answered); } else { DeliverCreateKeeps(w, r, answered); }
    case Expire(lease) => ExpireKeeps(w, lease);
    case Act(i, a) => ActStepKeeps(w, i, a);
  }

  /** Every state any number of instances can reach, under any interleaving, loss, delay and expiry. */
  lemma {:induction false} RunKeepsInv(n: nat, steps: seq<Step>)
    ensures Inv(Run(Init(n), steps)) && |Run(Init(n), steps).instances| == n
  {
    if steps != [] {
      RunKeepsInv(n, steps[..|steps| - 1]);
      var w, s := Run(Init(n), steps[..|steps| - 1]), steps[|steps| - 1];
      if Enabled(w, s) { StepKeepsInv(w, s); }
    }
  }

  // --------------------------------------------------------------- theorems

  /**
    A record write lands only inside the term of the instance that sent it: after that instance created
    the leader key the write names, and before the key of any later term exists. Whatever the instances
    believe their roles to be, the terms' writes do not overlap.
  */
  lemma {:induction false} WritesStayInTheirTerm(n: nat, steps: seq<Step>, k: nat) returns (b: nat)
    requires k < |Run(Init(n), steps).log| && Run(Init(n), steps).log[k].WriteLanded?
    ensures var log := Run(Init(n), steps).log;
            && b < k
            && log[b] == TermBegan(log[k].guard, log[k].owner)
            && (forall t :: b < t < k ==> !log[t].TermBegan?)
            && (forall t :: 0 <= t < b && log[t].WriteLanded? ==> log[t].guard != log[k].guard)
  {
    RunKeepsInv(n, steps);
    var w := Run(Init(n), steps);
    b := LastTermAt(w.log[..k]);
    forall t | 0 <= t < b && w.log[t].WriteLanded? ensures w.log[t].guard != w.log[k].guard {
      LastTermBegan(w.log[..t]);
      var a :| 0 <= a < t && w.log[a] == TermBegan(w.log[t].guard, w.log[t].owner);
    }
  }

  /** Where the last term began. */
  lemma {:induction false} LastTermAt(log: seq<Event>) returns (b: nat)
    requires LastTerm(log).Some?
    ensures b < |log| && log[b] == TermBegan(LastTerm(log).value.0, LastTerm(log).value.1)
    ensures forall t :: b < t < |log| ==> log[t].WriteLanded?
  {
    if log[|log| - 1].TermBegan? { b := |log| - 1; } else { b := LastTermAt(log[..|log| - 1]); }
  }

  /** A store with records has `meta`, so a follower that watches `meta` misses none of them. */
  lemma {:induction false} RecordsComeWithMeta(n: nat, steps: seq<Step>)
    ensures var e := Run(Init(n), steps).etcd; e.records != map[] ==> e.meta != 0
  {
    RunKeepsInv(n, steps);
  }

  /**
    An instance whose `meta` revision is the store's has in `written` what the store holds, but for keys
    of a write it was not answered for, or of a `written` it cleared: also after a load made between two
    chunks of another instance's write.
  */
  lemma {:induction false} WrittenIsTheStore(n: nat, steps: seq<Step>, i: nat)
    requires i < n
    ensures var w := Run(Init(n), steps);
            && i < |w.instances|
            && var x := w.instances[i];
               0 != x.local.metaRevision == w.etcd.meta ==> AgreeOff(x.local.written, w.etcd.records, x.unsure)
  {
    RunKeepsInv(n, steps);
    assert InstanceInv(Run(Init(n), steps).instances[i], i, Run(Init(n), steps));
  }

  // ---------------------------------------------- runs that show the limits

  /** A run goes on with a step it can take. */
  lemma {:induction false} Go(w: World, steps: seq<Step>, s: Step) returns (longer: seq<Step>, v: World)
    requires Enabled(Run(w, steps), s)
    ensures v == Run(w, longer) == Next(Run(w, steps), s)
  {
    longer, v := steps + [s], Next(Run(w, steps), s);
    assert longer[..|steps|] == steps;
  }

  /** ... of an instance, as seen in the store and in that instance. */
  lemma {:induction false} GoOn(n: nat, steps: seq<Step>, i: nat, a: Action) returns (longer: seq<Step>)
    requires Enabled(Run(Init(n), steps), Act(i, a))
    ensures var w, v := Run(Init(n), steps), Run(Init(n), longer);
            && v.instances == w.instances[i := Acted(w.instances[i], w.etcd, a)]
            && (!a.Campaign? ==> v.etcd == w.etcd)
            && (a.Campaign? ==>
                  && v.etcd == w.etcd.(granted := w.etcd.granted + 1, leases := w.etcd.leases + {w.etcd.granted})
                  && Create(i, w.etcd.granted) in v.flying)
            && (a.BeginSync? ==> Write(i, a.guard, a.chunks[0]) in v.flying)
  {
    var v;
    longer, v := Go(Init(n), steps, Act(i, a));
  }

  /** Instance `i` of an empty store campaigns and is elected, with its import still to come. */
  lemma {:induction false} Elect(n: nat, before: seq<Step>, i: nat) returns (steps: seq<Step>)
    requires var w := Run(Init(n), before);
             i < |w.instances| && w.instances[i] == Instance(FRESH, {}, Idle, Resting, {})
             && w.etcd.leader.None? && w.etcd.meta == 0 && w.etcd.records == map[]
    ensures var w := Run(Init(n), before);
            var v := Run(Init(n), steps);
            var created := w.etcd.revision + 1;
            && v.etcd == w.etcd.(revision := created, leader := Some(LeaderKey(i, w.etcd.granted, created)),
                                 granted := w.etcd.granted + 1, leases := w.etcd.leases + {w.etcd.granted})
            && v.instances == w.instances[i := Instance(Elected(FRESH, w.etcd.granted, created), {created}, Idle, Importing, {})]
  {
    var w := Run(Init(n), before);
    var t := Term(w.etcd.granted, w.etcd.revision + 1);
    steps := GoOn(n, before, i, Campaign);
    steps := Win(n, steps, i, t.lease);
    steps := GoOn(n, steps, i, ReadAll);
    assert Run(Init(n), steps).instances[i].round == Reading(Some(t), map[], 0, {});
    steps := GoOn(n, steps, i, TakeRead(true));
    assert Run(Init(n), steps).instances[i].round == Ready(t, false);
    steps := GoOn(n, steps, i, Lead);
    var y := Instance(Elected(FRESH, t.lease, t.created), {t.created}, Idle, Importing, {});
    assert Run(Init(n), steps).instances[i] == y;
    assert Run(Init(n), steps).instances == w.instances[i := y];
  }

  lemma {:induction false} Win(n: nat, before: seq<Step>, i: nat, lease: nat) returns (steps: seq<Step>)
    requires var w := Run(Init(n), before);
             i < |w.instances| && w.instances[i].round == Campaigning(lease) && Create(i, lease) in w.flying
             && w.etcd.leader.None? && lease in w.etcd.leases
    ensures var w, v := Run(Init(n), before), Run(Init(n), steps);
            && v.etcd == CreateLeader(w.etcd, i, lease)
            && v.instances == w.instances[i := w.instances[i].(round := Won(Term(lease, w.etcd.revision + 1)))]
  {
    var v;
    steps, v := Go(Init(n), before, Deliver(Create(i, lease), true));
  }

  /** Two instances can believe they lead at once: only the guard keeps their writes apart. */
  lemma {:induction false} TwoCanBelieveTheyLead() returns (steps: seq<Step>)
    ensures var w := Run(Init(2), steps);
            |w.instances| == 2 && w.instances[0].local.role == Leader && w.instances[1].local.role == Leader
  {
    steps := Elect(2, [], 0);
    var v;
    steps, v := Go(Init(2), steps, Expire(0));
    steps := Elect(2, steps, 1);
  }

  /** One chunk written by the only instance, as the leader, and answered or not. */
  lemma {:induction false} WriteOne(before: seq<Step>, ops: seq<Op>, answered: bool) returns (steps: seq<Step>)
    requires 0 < |ops| <= TXN_OPS
    requires var w := Run(Init(1), before);
             |w.instances| == 1 && LockFree(w.instances[0]) && w.etcd.leader.Some?
             && w.etcd.leader.value.created in w.instances[0].led
    ensures var w := Run(Init(1), before);
            var v := Run(Init(1), steps);
            var x := w.instances[0];
            && v.etcd == Land(w.etcd, ops)
            && v.instances ==
               [if answered then x.(local := Wrote(x.local, ops, v.etcd.revision), unsure := x.unsure - Keys(ops))
                else x.(unsure := x.unsure + Keys(ops))]
  {
    var w, v := Run(Init(1), before), Run(Init(1), before);
    var c := w.etcd.leader.value.created;
    var x := w.instances[0];
    steps := GoOn(1, before, 0, BeginSync(c, [ops]));
    steps, v := Go(Init(1), steps, Deliver(Write(0, c, ops), answered));
    assert v.instances[0] == if answered then x.(sync := Syncing(c, [ops], Landed(v.etcd.revision)), unsure := x.unsure - Keys(ops))
                             else Doubt(x.(sync := Syncing(c, [ops], Sent)), Keys(ops));
    steps := GoOn(1, steps, 0, if answered then TakeAnswer else GiveUp);
  }

  lemma {:induction false} ApplyOne(m: Records, op: Op)
    ensures ApplyAll(m, [op]) == Apply(m, op)
  {
    assert [op][..0] == [];
  }

  /**
    Not so without the doubt: a write whose answer is lost, after which memory changes back, is not
    written again, and the next write's `meta` makes the instance believe it is up to date.
  */
  lemma {:induction false} LostAnswerLeavesWrittenBehind() returns (steps: seq<Step>)
    ensures var w := Run(Init(1), steps);
            && |w.instances| == 1
            && 0 != w.instances[0].local.metaRevision == w.etcd.meta
            && w.instances[0].local.written == map["k" := "a", "x" := "c"]
            && w.etcd.records == map["k" := "b", "x" := "c"]
  {
    steps := Elect(1, [], 0);
    steps := GoOn(1, steps, 0, ClearWritten);
    steps := WriteOne(steps, [Put("k", "a")], true);
    ApplyOne(map[], Put("k", "a"));
    steps := WriteOne(steps, [Put("k", "b")], false);
    ApplyOne(map["k" := "a"], Put("k", "b"));
    steps := WriteOne(steps, [Put("x", "c")], true);
    ApplyOne(map["k" := "a"], Put("x", "c"));
    ApplyOne(map["k" := "b"], Put("x", "c"));
    assert map["k" := "a"]["k" := "b"] == map["k" := "b"];
  }

  /**
    Nor when a `sync` of the new leader runs between its taking the lead and its clearing `written` for the
    import of an empty store: the records are there, `meta` is current, and `written` holds nothing.
  */
  lemma {:induction false} ImportRaceEmptiesWritten() returns (steps: seq<Step>)
    ensures var w := Run(Init(1), steps);
            && |w.instances| == 1
            && 0 != w.instances[0].local.metaRevision == w.etcd.meta
            && w.instances[0].local.written == map[]
            && w.etcd.records == map["k" := "a"]
  {
    steps := Elect(1, [], 0);
    steps := WriteOne(steps, [Put("k", "a")], true);
    steps := GoOn(1, steps, 0, ClearWritten);
  }
}
