/** What each step of the fleet store does to etcd and to the instance that takes it, by the fields (src/store.rs). */
module FleetAnswers {
  import opened Wrappers
  import opened Records
  import opened FleetStore

  // -------------------------------------------------------------------- etcd

  /** A lease that ends takes the leader key bound to it along, and nothing else. */
  lemma {:induction false} LeaseEnds(e: Etcd, lease: nat)
    ensures var n := EndLease(e, lease);
            && n == e.(leases := n.leases, leader := n.leader, revision := n.revision)
            && (forall l :: l in n.leases <==> l in e.leases && l != lease)
            && (if e.leader.Some? && e.leader.value.lease == lease then n.leader == None && n.revision == e.revision + 1
                else n.leader == e.leader && n.revision == e.revision)
  {
  }

  /** The sender of the request is waiting for this chunk's answer. */
  predicate AwaitsChunk(x: Instance, r: Request) {
    && r.Write? && x.sync.Syncing? && x.sync.stage == Sent && x.sync.guard == r.guard
    && |x.sync.chunks| > 0 && x.sync.chunks[0] == r.ops
  }

  /** A write takes effect exactly while the key its sender created stands: all its operations and `meta`, at one revision. */
  lemma {:induction false} WriteLandsExactly(w: World, r: Request, answered: bool)
    requires Enabled(w, Deliver(r, answered)) && r.Write?
    ensures var n, e := Next(w, Deliver(r, answered)), w.etcd;
            if e.leader.Some? && e.leader.value.created == r.guard
            then && n.etcd == e.(revision := e.revision + 1, meta := e.revision + 1, records := ApplyAll(e.records, r.ops))
                 && n.log == w.log + [WriteLanded(e.revision + 1, r.owner, r.guard)]
            else n.etcd == e && n.log == w.log
  {
  }

  /** Its sender learns of it, or of the guard's refusal, exactly when it is answered and still waits. */
  lemma {:induction false} WriteAnswersExactly(w: World, r: Request, answered: bool)
    requires Enabled(w, Deliver(r, answered)) && r.Write?
    ensures var n, x, landed := Next(w, Deliver(r, answered)), w.instances[r.owner],
                                w.etcd.leader.Some? && w.etcd.leader.value.created == r.guard;
            && |n.instances| == |w.instances| && n.flying == w.flying
            && (forall i :: 0 <= i < |w.instances| && i != r.owner ==> n.instances[i] == w.instances[i])
            && var y := n.instances[r.owner];
               && y.local == x.local && y.led == x.led
               && (answered && AwaitsChunk(x, r) ==>
                     && y.round == x.round
                     && y.sync == x.sync.(stage := if landed then Landed(w.etcd.revision + 1) else Refused)
                     && (forall k :: k in y.unsure <==> k in x.unsure && !(landed && k in Keys(r.ops))))
               && (!(answered && AwaitsChunk(x, r)) ==>
                     && y.sync == x.sync
                     && (forall k :: k in y.unsure <==> k in x.unsure || (landed && k in Keys(r.ops)))
                     && (!x.round.Reading? ==> y.round == x.round)
                     && (x.round.Reading? ==>
                           && y.round.Reading? && y.round == x.round.(snapshotUnsure := y.round.snapshotUnsure)
                           && forall k :: k in y.round.snapshotUnsure <==>
                                k in x.round.snapshotUnsure || (landed && k in Keys(r.ops))))
  {
  }

  /** The leader key is created exactly where there is none and its lease lives; the sender that waits learns which. */
  lemma {:induction false} CreateBeginsExactly(w: World, r: Request, answered: bool)
    requires Enabled(w, Deliver(r, answered)) && r.Create?
    ensures var n, e, x := Next(w, Deliver(r, answered)), w.etcd, w.instances[r.owner];
            var free, waits := e.leader == None && r.lease in e.leases, answered && x.round == Campaigning(r.lease);
            && n.flying == w.flying && |n.instances| == |w.instances|
            && (forall i :: 0 <= i < |w.instances| && i != r.owner ==> n.instances[i] == w.instances[i])
            && (free ==> && n.etcd == e.(revision := e.revision + 1, leader := Some(LeaderKey(r.owner, r.lease, e.revision + 1)))
                         && n.log == w.log + [TermBegan(e.revision + 1, r.owner)])
            && (!free ==> n.etcd == e && n.log == w.log)
            && var y := n.instances[r.owner];
               && (waits && free ==> y == x.(round := Won(Term(r.lease, e.revision + 1))))
               && (waits && !free ==> y == x.(round := Resting, local := x.local.(role := Follower)))
               && (!waits ==> y == x)
  {
  }

  // ------------------------------------------------------------- an instance

  /** Taking the lead: the term's lease and key, with what was read, or an import still to come when nothing was held. */
  lemma {:induction false} LeadTakes(x: Instance, e: Etcd)
    requires Allowed(x, e, Lead)
    ensures var y := Acted(x, e, Lead);
            && y.local.role == Leader && y.local.lease == Some(x.round.term.lease)
            && y.local.leaderRevision == Some(x.round.term.created)
            && y.local.written == x.local.written && y.local.metaRevision == x.local.metaRevision
            && (forall c :: c in y.led <==> c in x.led || c == x.round.term.created)
            && y.round == (if x.round.held then Resting else Importing) && y.sync == x.sync && y.unsure == x.unsure
  {
  }

  /** A read is of all the store holds at one moment. */
  lemma {:induction false} ReadsAll(x: Instance, e: Etcd)
    requires Allowed(x, e, ReadAll)
    ensures var y := Acted(x, e, ReadAll);
            && y == x.(round := y.round) && y.round.Reading?
            && y.round.snapshot == e.records && y.round.snapshotMeta == e.meta && y.round.snapshotUnsure == {}
            && (x.round.Won? ==> y.round.forTerm == Some(x.round.term)) && (!x.round.Won? ==> y.round.forTerm == None)
  {
  }

  /** It replaces `written` exactly where the store holds `meta` and every record parses; with that a term may be led. */
  lemma {:induction false} ReadTakes(x: Instance, e: Etcd, parses: bool)
    requires Allowed(x, e, TakeRead(parses))
    ensures var y, taken := Acted(x, e, TakeRead(parses)), x.round.snapshotMeta != 0 && parses;
            && y == x.(local := y.local, round := y.round, unsure := y.unsure)
            && (taken ==> && y.local == x.local.(written := x.round.snapshot, metaRevision := x.round.snapshotMeta)
                          && y.unsure == x.round.snapshotUnsure)
            && (!taken ==> y.local == x.local && y.unsure == x.unsure)
            && (y.round.Ready? <==> x.round.forTerm.Some? && (x.round.snapshotMeta == 0 || parses))
            && (y.round.Ready? ==> Some(y.round.term) == x.round.forTerm && (y.round.held <==> x.round.snapshotMeta != 0))
            && (!y.round.Ready? ==> y.round == Resting)
  {
  }

  /** An answer: the chunk counts as written and the next one is sent, or a refusal ends the lead. */
  lemma {:induction false} AnswerTakes(x: Instance, e: Etcd)
    requires Allowed(x, e, TakeAnswer)
    ensures var y := Acted(x, e, TakeAnswer);
            && y == x.(local := y.local, sync := y.sync)
            && (x.sync.stage == Sent ==> y == x)
            && (x.sync.stage == Refused ==>
                  y.sync == Idle && y.local == Local(Follower, None, None, 0, x.local.written))
            && (x.sync.stage.Landed? ==>
                  && y.local == x.local.(written := ApplyAll(x.local.written, x.sync.chunks[0]), metaRevision := x.sync.stage.revision)
                  && (|x.sync.chunks| == 1 ==> y.sync == Idle)
                  && (|x.sync.chunks| > 1 ==> y.sync == Syncing(x.sync.guard, x.sync.chunks[1..], Sent)))
  {
  }

  /** What the other steps change, and that they change nothing else. */
  lemma {:induction false} OthersChange(x: Instance, e: Etcd, a: Action)
    requires Allowed(x, e, a)
    ensures var y := Acted(x, e, a);
            match a
            case SeeHolder => y == x.(local := x.local.(role := Follower))
            case Campaign => y == x.(round := Campaigning(e.granted))
            case CampaignEnds => y == x.(round := Resting)
            case ClearWritten =>
              && y == x.(local := y.local, round := Resting, unsure := y.unsure) && y.local == x.local.(written := map[])
              && forall k :: k in y.unsure <==> k in x.unsure || k in x.local.written
            case BeginSync(guard, chunks) => y == x.(sync := Syncing(guard, chunks, Sent))
            case GiveUp =>
              && y == x.(sync := Idle, unsure := y.unsure)
              && forall k :: k in y.unsure <==>
                   k in x.unsure || (x.sync.stage.Landed? && k in Keys(x.sync.chunks[0]))
            case StepDown => y == x.(local := Local(Follower, None, None, 0, x.local.written))
            case _ => true
  {
  }

  /** Which steps an instance can take. */
  lemma {:induction false} StepsExactly(x: Instance, e: Etcd, a: Action)
    ensures Allowed(x, e, a) <==>
              match a
              case SeeHolder => x.round == Resting && x.local.role != Leader && e.leader != None
              case Campaign => x.round == Resting && x.local.role != Leader
              case CampaignEnds => x.round.Campaigning? || x.round.Won?
              case ReadAll => x.sync == Idle && (x.round.Won? || (x.round == Resting && x.local.role != Leader))
              case TakeRead(_) => x.round.Reading?
              case Lead => x.round.Ready?
              case ClearWritten => x.round == Importing && x.sync == Idle
              case BeginSync(guard, chunks) =>
                && x.sync == Idle && !x.round.Reading? && guard in x.led && |chunks| > 0
                && forall i :: 0 <= i < |chunks| ==> 1 <= |chunks[i]| <= 100
              case TakeAnswer => x.sync.Syncing? && |x.sync.chunks| > 0
              case GiveUp => x.sync.Syncing? && |x.sync.chunks| > 0
              case StepDown => true
  {
    if a.BeginSync? {
      assert forall c :: c in a.chunks ==> exists i :: 0 <= i < |a.chunks| && a.chunks[i] == c;
      assert forall i :: 0 <= i < |a.chunks| ==> a.chunks[i] in a.chunks;
    }
  }

  /** The instance's own step, and the request it then waits for: a chunk's transaction, or the leader key under a new lease. */
  lemma {:induction false} ActsAlone(w: World, i: nat, a: Action)
    requires Enabled(w, Act(i, a))
    ensures var n, y := Next(w, Act(i, a)), Acted(w.instances[i], w.etcd, a);
            && |n.instances| == |w.instances| && n.instances[i] == y && n.log == w.log
            && (forall j :: 0 <= j < |w.instances| && j != i ==> n.instances[j] == w.instances[j])
            && (if a == Campaign
                then n.etcd == w.etcd.(granted := w.etcd.granted + 1, leases := n.etcd.leases)
                     && forall l :: l in n.etcd.leases <==> l in w.etcd.leases || l == w.etcd.granted
                else n.etcd == w.etcd)
            && forall r :: r in n.flying <==>
                 || r in w.flying
                 || (y.sync.Syncing? && |y.sync.chunks| > 0 && r == Write(i, y.sync.guard, y.sync.chunks[0]))
                 || (a == Campaign && r == Create(i, w.etcd.granted))
  {
  }
}
