/**
  One instance's side of the fleet store as the source runs it: an object whose status and `written`
  map the methods update (src/store.rs, `Store`). What etcd answers is an argument. The changes are
  those of `FleetStore.Local`, whose runs among many instances `FleetStore` is about.
*/
module StoreInstance {
  import opened Wrappers
  import opened Records
  import opened FleetStore

  datatype Answer = Applied(revision: nat) | GuardFailed | NoAnswer

  datatype SyncOutcome = NotLeading | UpToDate | Failed | Deposed

  /** What a range of the prefix holds: the records and, when the key exists, `meta`'s revision. */
  datatype Range = Range(records: Records, meta: Option<nat>, parses: bool)

  function AnswerAt(answers: seq<Answer>, i: nat): Answer {
    if i < |answers| then answers[i] else NoAnswer
  }

  /** The chunks from `i` on, sent one after the other until one is not confirmed. */
  function SyncFrom(l: Local, chunks: seq<seq<Op>>, answers: seq<Answer>, i: nat): (Local, SyncOutcome)
    requires i <= |chunks|
    decreases |chunks| - i
  {
    if i == |chunks| then (l, UpToDate)
    else match AnswerAt(answers, i)
         case NoAnswer => (l, Failed)
         case GuardFailed => (SteppedDown(l), Deposed)
         case Applied(revision) => SyncFrom(Wrote(l, chunks[i], revision), chunks, answers, i + 1)
  }

  /** The chunks from `i` to `done` are confirmed, and the one there, if any, is not. */
  predicate ConfirmedTo(answers: seq<Answer>, i: nat, done: nat, chunks: nat) {
    && i <= done <= chunks && (i < done ==> done <= |answers|)
    && (forall j :: i <= j < done && j < |answers| ==> answers[j].Applied?)
    && (done < chunks ==> done >= |answers| || !answers[done].Applied?)
  }

  /** Why it ended there. */
  predicate EndedWith(answers: seq<Answer>, done: nat, chunks: nat, outcome: SyncOutcome) {
    if done == chunks then outcome == UpToDate
    else if done < |answers| && answers[done] == GuardFailed then outcome == Deposed
    else outcome == Failed
  }

  /**
    A sync writes the chunks that were confirmed, one after the other, up to the first that was not: that one ends it,
    and a failed guard ends the lead with it. What is kept of the store's revision is the last confirmed chunk's.
  */
  lemma {:induction false} SyncFromWrites(
    l: Local, chunks: seq<seq<Op>>, answers: seq<Answer>, i: nat) returns (done: nat)
    requires i <= |chunks|
    ensures ConfirmedTo(answers, i, done, |chunks|)
    ensures var r, w := SyncFrom(l, chunks, answers, i), ApplyChunks(l.written, chunks[i..done]);
            && EndedWith(answers, done, |chunks|, r.1)
            && r.0 == if r.1 == Deposed then Local(Follower, None, None, 0, w)
                      else l.(written := w, metaRevision := if i < done then answers[done - 1].revision else l.metaRevision)
    decreases |chunks| - i
  {
    if i < |chunks| && i < |answers| && answers[i].Applied? {
      done := SyncFromWrites(Wrote(l, chunks[i], answers[i].revision), chunks, answers, i + 1);
      assert chunks[i..done][1..] == chunks[i + 1..done];
      assert ApplyChunks(l.written, chunks[i..done]) == ApplyChunks(ApplyAll(l.written, chunks[i]), chunks[i + 1..done]);
    } else {
      done := i;
      assert chunks[i..done] == [];
    }
  }

  class Store {
    var role: Role
    var lease: Option<nat>
    var leaderRevision: Option<nat>
    var metaRevision: nat
    var written: Records

    constructor ()
      ensures View() == FRESH
    {
      role, lease, leaderRevision, metaRevision, written := Starting, None, None, 0, map[];
    }

    function View(): Local
      reads this
    {
      Local(role, lease, leaderRevision, metaRevision, written)
    }

    method StepDown()
      modifies this
      ensures View() == SteppedDown(old(View()))
      ensures role == Follower && lease == None && leaderRevision == None && metaRevision == 0 && written == old(written)
    {
      role, lease, leaderRevision, metaRevision := Follower, None, None, 0;
    }

    /**
      Write what differs between `written` and the records of memory, in chunks, each a transaction
      guarded on this instance's own leader key. The key orders are those the two maps are iterated in.
    */
    method Sync(records: Records, writtenKeys: seq<string>, recordKeys: seq<string>, answers: seq<Answer>)
      returns (outcome: SyncOutcome)
      requires Enumerates(writtenKeys, written) && Enumerates(recordKeys, records)
      modifies this
      ensures outcome == NotLeading <==> !(old(role) == Leader && old(leaderRevision).Some?)
      ensures outcome == NotLeading ==> View() == old(View())
      ensures outcome != NotLeading ==>
                (View(), outcome) == SyncFrom(old(View()),
                                              Chunks(Diff(old(written), records, writtenKeys, recordKeys), TXN_OPS),
                                              answers, 0)
      ensures outcome == UpToDate ==> written == records
      ensures outcome == Deposed ==> role == Follower && metaRevision == 0
    {
      if role != Leader || leaderRevision.None? {
        return NotLeading;
      }
      var ops := Diff(written, records, writtenKeys, recordKeys);
      var chunks := Chunks(ops, TXN_OPS);
      ghost var before := View();
      ghost var done := SyncFromWrites(before, chunks, answers, 0);
      DiffTurnsOldIntoNew(written, records, writtenKeys, recordKeys);
      ChunkedApply(written, ops, TXN_OPS);
      assert chunks[0..|chunks|] == chunks;
      var i := 0;
      while i < |chunks|
        invariant 0 <= i <= |chunks|
        invariant SyncFrom(before, chunks, answers, 0) == SyncFrom(View(), chunks, answers, i)
      {
        match AnswerAt(answers, i) {
          case NoAnswer =>
            return Failed;
          case GuardFailed =>
            StepDown();
            return Deposed;
          case Applied(revision) =>
            written := ApplyAll(written, chunks[i]);
            metaRevision := revision;
        }
        i := i + 1;
      }
      outcome := UpToDate;
    }

    /** Take the store's records, unless it holds no `meta` or one does not parse. */
    method Load(range: Range) returns (held: Result<bool, ()>)
      modifies this
      ensures range.meta.None? ==> held == Ok(false) && View() == old(View())
      ensures range.meta.Some? && !range.parses ==> held == Err(()) && View() == old(View())
      ensures range.meta.Some? && range.parses ==>
                && held == Ok(true) && View() == LoadedFrom(old(View()), range.records, range.meta.value)
                && written == range.records && metaRevision == range.meta.value
                && role == old(role) && lease == old(lease) && leaderRevision == old(leaderRevision)
    {
      if range.meta.None? {
        return Ok(false);
      }
      if !range.parses {
        return Err(());
      }
      written, metaRevision := range.records, range.meta.value;
      held := Ok(true);
    }

    /**
      Create the leader key when there is none, and take the lead once the store has been read; an empty
      store is going to take this instance's records, so nothing counts as written. `holder`: the key was
      there. `read`: what the load got, if it got an answer.
    */
    method Campaign(holder: bool, granted: Option<nat>, answer: Answer, read: Option<Range>)
      requires role != Leader
      modifies this
      ensures (role == Leader) ==
              (!holder && granted.Some? && answer.Applied? && read.Some? && (read.value.meta.None? || read.value.parses))
      ensures role == Leader ==>
                && leaderRevision == Some(answer.revision) && lease == granted
                && written == (if read.value.meta.Some? then read.value.records else map[])
                && metaRevision == (if read.value.meta.Some? then read.value.meta.value else old(metaRevision))
      ensures role != Leader ==>
                && leaderRevision == old(leaderRevision) && written == old(written) && metaRevision == old(metaRevision)
                && (holder || (granted.Some? && answer.GuardFailed?) ==> role == Follower)
    {
      if holder {
        role := Follower;
        return;
      }
      if granted.None? || answer.NoAnswer? {
        return;
      }
      if answer.GuardFailed? {
        role := Follower;
        return;
      }
      if read.None? {
        return;
      }
      var held := Load(read.value);
      if held.Err? {
        return;
      }
      role, lease, leaderRevision := Leader, granted, Some(answer.revision);
      if !held.value {
        written := map[];
      }
    }

    /** Reload when `meta` moved: afterwards memory reflects the `meta` the range read, if there is one. */
    method Follow(meta: nat, range: Range) returns (loaded: bool)
      modifies this
      ensures loaded <==> meta != 0 && meta != old(metaRevision) && range.meta.Some? && range.parses
      ensures !loaded ==> View() == old(View())
      ensures loaded ==>
                && written == range.records && metaRevision == range.meta.value
                && role == old(role) && lease == old(lease) && leaderRevision == old(leaderRevision)
    {
      loaded := false;
      if meta != 0 && meta != metaRevision {
        var held := Load(range);
        loaded := held == Ok(true);
      }
    }
  }
}
