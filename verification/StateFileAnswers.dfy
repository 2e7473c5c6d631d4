/** What one save leaves behind, whether it succeeds or ends at a call that errs, and what a start makes of it (src/model.rs). */
module StateFileAnswers {
  import opened Wrappers
  import opened StateFile
  import T = StateFileTheory

  // ------------------------------------------------------------------ a save

  /** No running save uses the slot, and what a save left under its name is under no other. */
  ghost predicate Free(m: Machine, slot: nat) {
    && m.views != [] && m.next !in m.saves
    && (forall k :: k in m.saves ==> m.saves[k].slot != slot)
    && (forall n :: n in Memory(m).dir ==> Memory(m).dir[n] < |m.inodes|)
    && (forall n :: n in Memory(m).dir && n != Tmp(slot) && Tmp(slot) in Memory(m).dir ==>
          Memory(m).dir[n] != Memory(m).dir[Tmp(slot)])
  }

  /** So it is of any slot no running save uses, in every state the runs reach. */
  lemma {:induction false} SlotsAreFree(m: Machine, first: T.First, slot: nat)
    requires T.Inv(m, first) && forall k :: k in m.saves ==> m.saves[k].slot != slot
    ensures Free(m, slot)
  {
    var last := |m.views| - 1;
    assert T.ViewOk(m.inodes, m.renamed, first, m.views[last]) && T.InOrder(m.views[last], m.views[last]);
  }

  function Now(m: Machine, name: Name): Option<Data>
    requires m.views != []
  {
    Read(m.inodes, Memory(m).dir, name)
  }

  /** Under every name but these the same is read in both. */
  ghost predicate SameBut(m: Machine, n: Machine, names: set<Name>)
    requires m.views != [] && n.views != []
  {
    forall x :: x !in names ==> Now(n, x) == Now(m, x)
  }

  /** The save's own file is the one thing that changed, and it runs at this stage. */
  ghost predicate AtStage(m: Machine, n: Machine, slot: nat, state: int, stage: Stage) {
    && Free(m, slot) && n.views != []
    && n == m.(saves := m.saves[m.next := Save(slot, state, stage)], next := m.next + 1, inodes := n.inodes, views := n.views)
    && SameBut(m, n, {Tmp(slot)}) && Memory(n).renames == Memory(m).renames
    && (forall x :: x in Memory(n).dir ==> Memory(n).dir[x] < |n.inodes|)
    && (forall x :: x != Tmp(slot) ==> (x in Memory(n).dir <==> x in Memory(m).dir))
    && (forall x :: x != Tmp(slot) && x in Memory(m).dir ==> Memory(n).dir[x] == Memory(m).dir[x])
    && (Tmp(slot) in Memory(n).dir ==>
          forall x :: x in Memory(n).dir && x != Tmp(slot) ==> Memory(n).dir[x] != Memory(n).dir[Tmp(slot)])
  }

  lemma {:induction false} Steps(m: Machine, run: seq<Step>, s: Step)
    requires m.views != []
    ensures After(m, run + [s]) == Do(After(m, run), s)
    ensures After(m, []) == m
  {
    assert (run + [s])[..|run|] == run;
  }

  lemma {:induction false} Creates(m: Machine, n: Machine, slot: nat, state: int)
    requires AtStage(m, n, slot, state, Begun)
    ensures var c := Do(n, Create(m.next)); AtStage(m, c, slot, state, Created) && Now(c, Tmp(slot)) == Some(Torn)
  {
  }

  lemma {:induction false} Writes(m: Machine, n: Machine, slot: nat, state: int)
    requires AtStage(m, n, slot, state, Created) && Now(n, Tmp(slot)).Some?
    ensures var c := Do(n, Write(m.next)); AtStage(m, c, slot, state, Written) && Now(c, Tmp(slot)) == Some(Full(state))
  {
  }

  lemma {:induction false} Syncs(m: Machine, n: Machine, slot: nat, state: int)
    requires AtStage(m, n, slot, state, Written) && Now(n, Tmp(slot)) == Some(Full(state))
    ensures var c := Do(n, SyncFile(m.next)); AtStage(m, c, slot, state, Synced) && Now(c, Tmp(slot)) == Some(Full(state))
  {
  }

  /** A save that ends before its file is whole leaves all as it was, without its file. */
  lemma {:induction false} EndsEarly(m: Machine, n: Machine, slot: nat, state: int, stage: Stage)
    requires AtStage(m, n, slot, state, stage) && (stage == Begun || stage == Created || stage == Written)
    ensures var a := Do(n, Abort(m.next, true));
            Untouched(m, a, slot)
  {
    assert m.saves[m.next := Save(slot, state, stage)] - {m.next} == m.saves;
  }

  /** The save is over: these renames took place, and these saves have returned. */
  ghost predicate Left(m: Machine, n: Machine, renamed: seq<Rename>, returned: set<nat>) {
    && n.saves == m.saves && n.next == m.next + 1 && n.inDir == m.inDir
    && n.renamed == m.renamed + renamed && n.returned == m.returned + returned
  }

  lemma {:induction false} BeginStep(m: Machine, slot: nat, state: int, linkOk: bool, prevOk: bool)
    requires Free(m, slot)
    ensures AtStage(m, After(m, SaveSteps(m.next, slot, state, linkOk, prevOk)[..1]), slot, state, Begun)
  {
    var steps := SaveSteps(m.next, slot, state, linkOk, prevOk);
    assert steps[..1] == [] + [steps[0]];
    Steps(m, [], steps[0]);
  }

  /** Up to its `i`-th step a save has only made, written and synced its file. */
  lemma {:induction false} FileSteps(m: Machine, slot: nat, state: int, linkOk: bool, prevOk: bool, i: nat)
    requires Free(m, slot) && 1 <= i <= 4
    ensures var n := After(m, SaveSteps(m.next, slot, state, linkOk, prevOk)[..i]);
            && AtStage(m, n, slot, state, StageOf(i))
            && (i == 2 ==> Now(n, Tmp(slot)) == Some(Torn))
            && (i > 2 ==> Now(n, Tmp(slot)) == Some(Full(state)))
  {
    var steps := SaveSteps(m.next, slot, state, linkOk, prevOk);
    if i == 1 {
      BeginStep(m, slot, state, linkOk, prevOk);
    } else {
      FileSteps(m, slot, state, linkOk, prevOk, i - 1);
      var n := After(m, steps[..i - 1]);
      assert steps[..i] == steps[..i - 1] + [steps[i - 1]];
      Steps(m, steps[..i - 1], steps[i - 1]);
      if i == 2 { Creates(m, n, slot, state); } else if i == 3 { Writes(m, n, slot, state); } else { Syncs(m, n, slot, state); }
    }
  }

  function StageOf(i: nat): Stage {
    if i == 1 then Begun else if i == 2 then Created else if i == 3 then Written else Synced
  }

  /** The state is linked under a name of the save's own first. */
  predicate Links(m: Machine, slot: nat, linkOk: bool)
    requires m.views != []
  {
    linkOk && Current in Memory(m).dir && PrevTmp(slot) !in Memory(m).dir
  }

  /** What is kept as the previous copy: the state that is replaced, or what was kept before. */
  function Kept(m: Machine, slot: nat, linkOk: bool, prevOk: bool): Option<Data>
    requires m.views != []
  {
    if Links(m, slot, linkOk) && prevOk then Now(m, Current) else Now(m, Prev)
  }

  /** The save's file is whole and the previous copy in place. */
  ghost predicate Whole(m: Machine, n: Machine, slot: nat, state: int, prev: Option<Data>) {
    && m.views != [] && n.views != []
    && n == m.(saves := m.saves[m.next := Save(slot, state, Ready)], next := m.next + 1, inodes := n.inodes, views := n.views)
    && SameBut(m, n, {Tmp(slot), PrevTmp(slot), Prev}) && Memory(n).renames == Memory(m).renames
    && Tmp(slot) in Memory(n).dir && Now(n, Tmp(slot)) == Some(Full(state)) && Now(n, Prev) == prev
    && forall x :: x in Memory(n).dir && x != Tmp(slot) ==> Memory(n).dir[x] != Memory(n).dir[Tmp(slot)]
  }

  lemma {:induction false} PrevSteps(m: Machine, n: Machine, slot: nat, state: int, linkOk: bool, prevOk: bool)
    requires AtStage(m, n, slot, state, Synced) && Now(n, Tmp(slot)) == Some(Full(state))
    ensures var c := Do(Do(n, LinkPrev(m.next, linkOk)), RenamePrev(m.next, prevOk));
            Whole(m, c, slot, state, Kept(m, slot, linkOk, prevOk))
  {
    if Links(m, slot, linkOk) {
      LinkMade(m, n, slot, state);
      LinkedPrev(m, Do(n, LinkPrev(m.next, true)), slot, state, prevOk);
    } else {
      NoLink(m, n, slot, state, linkOk);
      assert Do(Do(n, LinkPrev(m.next, linkOk)), RenamePrev(m.next, prevOk)) == Do(n, LinkPrev(m.next, linkOk));
    }
  }

  lemma {:induction false} NoLink(m: Machine, n: Machine, slot: nat, state: int, linkOk: bool)
    requires AtStage(m, n, slot, state, Synced) && Now(n, Tmp(slot)) == Some(Full(state)) && !Links(m, slot, linkOk)
    ensures var l := Do(n, LinkPrev(m.next, linkOk)); At(l, m.next, Ready) && Whole(m, l, slot, state, Now(m, Prev))
  {
  }

  lemma {:induction false} LinkMade(m: Machine, n: Machine, slot: nat, state: int)
    requires AtStage(m, n, slot, state, Synced) && Now(n, Tmp(slot)) == Some(Full(state)) && Links(m, slot, true)
    ensures LinkIs(m, Do(n, LinkPrev(m.next, true)), slot, state)
  {
    var l, dir, link := Do(n, LinkPrev(m.next, true)), Memory(n).dir, PrevTmp(slot);
    assert Memory(l).dir == dir[link := dir[Current]];
    assert Now(l, link) == Now(n, Current) == Now(m, Current);
    assert l.inodes == n.inodes;
    assert n.saves[m.next := Save(slot, state, Linked)] == m.saves[m.next := Save(slot, state, Linked)];
  }

  /** The state has a second link, of the save's own. */
  ghost predicate LinkIs(m: Machine, l: Machine, slot: nat, state: int) {
    && m.views != [] && l.views != []
    && l == m.(saves := m.saves[m.next := Save(slot, state, Linked)], next := m.next + 1, inodes := l.inodes, views := l.views)
    && SameBut(m, l, {Tmp(slot), PrevTmp(slot)}) && Memory(l).renames == Memory(m).renames
    && PrevTmp(slot) in Memory(l).dir && Now(l, PrevTmp(slot)) == Now(m, Current)
    && Tmp(slot) in Memory(l).dir && Now(l, Tmp(slot)) == Some(Full(state))
    && forall x :: x in Memory(l).dir && x != Tmp(slot) ==> Memory(l).dir[x] != Memory(l).dir[Tmp(slot)]
  }

  lemma {:induction false} LinkedPrev(m: Machine, l: Machine, slot: nat, state: int, prevOk: bool)
    requires LinkIs(m, l, slot, state)
    ensures Whole(m, Do(l, RenamePrev(m.next, prevOk)), slot, state, if prevOk then Now(m, Current) else Now(m, Prev))
  {
    var c, dir, link := Do(l, RenamePrev(m.next, prevOk)), Memory(l).dir, PrevTmp(slot);
    assert Memory(c).dir == if prevOk then Moved(dir, link, Prev) else dir - {link};
    assert c.inodes == l.inodes;
    assert Now(l, Prev) == Now(m, Prev);
  }

  /** The state is replaced, and the directory not synced yet. */
  ghost predicate Replaced(m: Machine, p: Machine, slot: nat, state: int, prev: Option<Data>) {
    && m.views != [] && p.views != []
    && p == m.(saves := m.saves[m.next := Save(slot, state, Published)], next := m.next + 1, inodes := p.inodes,
               renamed := m.renamed + [Rename(m.next, state)], views := p.views)
    && Reads(m, p, slot, state, prev)
  }

  /** What is read once the state is replaced. */
  ghost predicate Reads(m: Machine, n: Machine, slot: nat, state: int, prev: Option<Data>)
    requires m.views != [] && n.views != []
  {
    && Now(n, Current) == Some(Full(state)) && Now(n, Prev) == prev && Tmp(slot) !in Memory(n).dir
    && SameBut(m, n, {Tmp(slot), PrevTmp(slot), Prev, Current}) && Memory(n).renames == Memory(m).renames + 1
  }

  lemma {:induction false} Publishes(m: Machine, n: Machine, slot: nat, state: int, prev: Option<Data>)
    requires Whole(m, n, slot, state, prev)
    ensures Replaced(m, Do(n, Publish(m.next)), slot, state, prev)
  {
    var p, dir := Do(n, Publish(m.next)), Memory(n).dir;
    assert Memory(p).dir == (dir - {Tmp(slot)})[Current := dir[Tmp(slot)]];
    assert n.saves[m.next := Save(slot, state, Published)] == m.saves[m.next := Save(slot, state, Published)];
  }

  lemma {:induction false} Returns(m: Machine, p: Machine, slot: nat, state: int, prev: Option<Data>)
    requires Replaced(m, p, slot, state, prev) && m.next !in m.saves
    ensures var n := Do(p, SyncDir(m.next));
            Reads(m, n, slot, state, prev) && (m.inDir ==> n.views == [Memory(n)]) && Left(m, n, [Rename(m.next, state)], {m.next})
  {
    var n := Do(p, SyncDir(m.next));
    assert m.saves[m.next := Save(slot, state, Published)] - {m.next} == m.saves;
    assert Memory(n) == Memory(p) && n.inodes == p.inodes;
    assert forall x :: Now(n, x) == Now(p, x);
  }

  /** One that ends at the sync of the directory has replaced the state, but has not returned. */
  lemma {:induction false} EndsUnsynced(m: Machine, p: Machine, slot: nat, state: int, prev: Option<Data>)
    requires Replaced(m, p, slot, state, prev) && m.next !in m.saves
    ensures var n := Do(p, Abort(m.next, false)); Reads(m, n, slot, state, prev) && Left(m, n, [Rename(m.next, state)], {})
  {
    var n := Do(p, Abort(m.next, false));
    assert m.saves[m.next := Save(slot, state, Published)] - {m.next} == m.saves;
    assert forall x :: Now(n, x) == Now(p, x);
  }

  /** One that ends at the rename has not, and leaves its file. */
  lemma {:induction false} EndsUnrenamed(m: Machine, w: Machine, slot: nat, state: int, prev: Option<Data>)
    requires Whole(m, w, slot, state, prev) && m.next !in m.saves
    ensures var n := Do(w, Abort(m.next, false));
            && SameBut(m, n, {Tmp(slot), PrevTmp(slot), Prev}) && Now(n, Prev) == prev
            && Now(n, Tmp(slot)) == Some(Full(state)) && Left(m, n, [], {})
  {
    var n := Do(w, Abort(m.next, false));
    assert m.saves[m.next := Save(slot, state, Ready)] - {m.next} == m.saves;
    assert forall x :: Now(n, x) == Now(w, x);
  }

  lemma {:induction false} ReplaceSteps(m: Machine, slot: nat, state: int, linkOk: bool, prevOk: bool)
    requires Free(m, slot)
    ensures var steps := SaveSteps(m.next, slot, state, linkOk, prevOk);
            && Whole(m, After(m, steps[..6]), slot, state, Kept(m, slot, linkOk, prevOk))
            && Replaced(m, After(m, steps[..7]), slot, state, Kept(m, slot, linkOk, prevOk))
  {
    var steps := SaveSteps(m.next, slot, state, linkOk, prevOk);
    FileSteps(m, slot, state, linkOk, prevOk, 4);
    assert steps[..5] == steps[..4] + [steps[4]] && steps[..6] == steps[..5] + [steps[5]] && steps[..7] == steps[..6] + [steps[6]];
    Steps(m, steps[..4], steps[4]);
    Steps(m, steps[..5], steps[5]);
    Steps(m, steps[..6], steps[6]);
    PrevSteps(m, After(m, steps[..4]), slot, state, linkOk, prevOk);
    Publishes(m, After(m, steps[..6]), slot, state, Kept(m, slot, linkOk, prevOk));
  }

  /**
   * A save that succeeds leaves its state under the name, what was there as the previous copy if the link and its rename
   * went through, and its file gone; with a directory part it is then all a cut can leave.
   */
  lemma {:induction false} SaveLeaves(m: Machine, slot: nat, state: int, linkOk: bool, prevOk: bool, fails: nat)
    requires Free(m, slot) && fails !in {1, 2, 3, 6, 7}
    ensures var n := After(m, SaveRun(m.next, SaveSteps(m.next, slot, state, linkOk, prevOk), fails));
            && Reads(m, n, slot, state, Kept(m, slot, linkOk, prevOk)) && (m.inDir ==> n.views == [Memory(n)])
            && Left(m, n, [Rename(m.next, state)], {m.next})
  {
    var steps := SaveSteps(m.next, slot, state, linkOk, prevOk);
    ReplaceSteps(m, slot, state, linkOk, prevOk);
    assert steps == steps[..7] + [steps[7]];
    Steps(m, steps[..7], steps[7]);
    Returns(m, After(m, steps[..7]), slot, state, Kept(m, slot, linkOk, prevOk));
  }

  /** One that ends before its file is whole takes the file away, and nothing else changed. */
  lemma {:induction false} UnwrittenSaveLeaves(m: Machine, slot: nat, state: int, linkOk: bool, prevOk: bool, fails: nat)
    requires Free(m, slot) && 1 <= fails <= 3
    ensures var n := After(m, SaveRun(m.next, SaveSteps(m.next, slot, state, linkOk, prevOk), fails));
            Untouched(m, n, slot)
  {
    var steps := SaveSteps(m.next, slot, state, linkOk, prevOk);
    Steps(m, steps[..fails], Abort(m.next, true));
    FileSteps(m, slot, state, linkOk, prevOk, fails);
    EndsEarly(m, After(m, steps[..fails]), slot, state, StageOf(fails));
  }

  /** Nothing but the save's own file changed, and that is gone. */
  ghost predicate Untouched(m: Machine, n: Machine, slot: nat)
    requires m.views != [] && n.views != []
  {
    SameBut(m, n, {Tmp(slot)}) && Tmp(slot) !in Memory(n).dir && Left(m, n, [], {})
  }

  /**
   * One that ends at the rename leaves the state as it was, beside its file; at the directory's sync the state is
   * replaced, but the save has not returned.
   */
  lemma {:induction false} UnfinishedSaveLeaves(m: Machine, slot: nat, state: int, linkOk: bool, prevOk: bool, fails: nat)
    requires Free(m, slot) && 6 <= fails <= 7
    ensures var n, prev := After(m, SaveRun(m.next, SaveSteps(m.next, slot, state, linkOk, prevOk), fails)),
                           Kept(m, slot, linkOk, prevOk);
            && (fails == 6 ==> && SameBut(m, n, {Tmp(slot), PrevTmp(slot), Prev}) && Now(n, Prev) == prev
                               && Now(n, Tmp(slot)) == Some(Full(state)) && Left(m, n, [], {}))
            && (fails == 7 ==> Reads(m, n, slot, state, prev) && Left(m, n, [Rename(m.next, state)], {}))
  {
    var steps := SaveSteps(m.next, slot, state, linkOk, prevOk);
    ReplaceSteps(m, slot, state, linkOk, prevOk);
    Steps(m, steps[..fails], Abort(m.next, false));
    if fails == 6 {
      EndsUnrenamed(m, After(m, steps[..6]), slot, state, Kept(m, slot, linkOk, prevOk));
    } else {
      EndsUnsynced(m, After(m, steps[..7]), slot, state, Kept(m, slot, linkOk, prevOk));
    }
  }

  /** The link a save made of the state goes with its rename, unless the previous copy is that file already: then it stays. */
  lemma {:induction false} LinkGoesExactly(m: Machine, l: Machine, slot: nat, state: int, prevOk: bool)
    requires LinkIs(m, l, slot, state)
    ensures var dir := Memory(l).dir;
            PrevTmp(slot) in Memory(Do(l, RenamePrev(m.next, prevOk))).dir
            <==> prevOk && Prev in dir && dir[Prev] == dir[PrevTmp(slot)]
  {
    assert At(l, m.next, Linked);
  }

  // ----------------------------------------------------------------- a start

  /** A start reads the state if it is whole, else its previous copy if that is, else nothing. */
  lemma {:induction false} LoadsExactly(inodes: seq<Inode>, dir: map<Name, nat>, state: int)
    ensures Loads(inodes, dir) == Some(state) <==>
              || Read(inodes, dir, Current) == Some(Full(state))
              || ((forall s :: Read(inodes, dir, Current) != Some(Full(s))) && Read(inodes, dir, Prev) == Some(Full(state)))
  {
  }

  /** A bad state is moved out of the way, under its stamp, and nothing else. */
  lemma {:induction false} StartLeaves(m: Machine, s: Step)
    requires m.views != [] && Starts(m, s)
    ensures var n, dir := Do(m, s), SeenDir(m, s);
            && n.inodes == SeenFiles(m, s) && n.saves == map[]
            && (s.moved && Read(SeenFiles(m, s), dir, Current) == Some(Torn) ==>
                  && Now(n, Bad(s.stamp)) == Some(Torn) && Current !in Memory(n).dir
                  && forall x :: x != Current && x != Bad(s.stamp) ==> Now(n, x) == Read(SeenFiles(m, s), dir, x))
            && (!(s.moved && Read(SeenFiles(m, s), dir, Current) == Some(Torn)) ==> Memory(n).dir == dir)
  {
  }
}
