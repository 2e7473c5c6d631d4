/** What a start finds after any cut, through any saves (src/model.rs). */
module StateFileTheory {
  import opened Wrappers
  import opened StateFile

  // ------------------------------------------------------------- invariant

  /** Every name but a temporary one stands for a synced file. */
  predicate SyncedNames(inodes: seq<Inode>, dir: map<Name, nat>) {
    forall n :: n in dir ==> dir[n] < |inodes| && (n.Tmp? || inodes[dir[n]].synced)
  }

  /** What `b` writes under a temporary name is under no other name in `a`. */
  predicate Private(a: map<Name, nat>, b: map<Name, nat>) {
    forall t, n :: t in b && t.Tmp? && n in a && n != t ==> a[n] != b[t]
  }

  /** What a start that finds no rename is to read, if anything is promised of it. */
  datatype First = Known(state: Option<int>) | Unknown

  /** A view reads the last state renamed over in it, or what was there at first. */
  ghost predicate ReadsWell(inodes: seq<Inode>, renamed: seq<Rename>, first: First, v: View) {
    && v.renames <= |renamed|
    && if v.renames > 0 then Read(inodes, v.dir, Current) == Some(Full(renamed[v.renames - 1].state))
       else first.Known? ==> Loads(inodes, v.dir) == first.state
  }

  ghost predicate ViewOk(inodes: seq<Inode>, renamed: seq<Rename>, first: First, v: View) {
    SyncedNames(inodes, v.dir) && ReadsWell(inodes, renamed, first, v)
  }

  /** An earlier view and a later one. */
  predicate InOrder(a: View, b: View) {
    Private(a.dir, b.dir) && a.renames <= b.renames
  }

  ghost predicate ViewsOk(views: seq<View>, inodes: seq<Inode>, renamed: seq<Rename>, first: First) {
    && views != []
    && (forall i :: 0 <= i < |views| ==> ViewOk(inodes, renamed, first, views[i]))
    && (forall i, j :: 0 <= i <= j < |views| ==> InOrder(views[i], views[j]))
    && views[|views| - 1].renames == |renamed|
  }

  /** The link a save made of the state: to what is still the state, or a good one has taken its place. */
  predicate LinkOk(inodes: seq<Inode>, dir: map<Name, nat>, slot: nat) {
    && Current in dir && dir[Current] < |inodes| && PrevTmp(slot) in dir
    && (dir[PrevTmp(slot)] == dir[Current] || inodes[dir[Current]].data.Full?)
  }

  /** A running save has its file, with what it has done to it so far. */
  predicate SaveOk(inodes: seq<Inode>, dir: map<Name, nat>, s: Save) {
    && (s.stage != Begun && s.stage != Published ==> Tmp(s.slot) in dir && dir[Tmp(s.slot)] < |inodes|)
    && (s.stage == Written || s.stage == Synced || s.stage == Linked || s.stage == Ready ==>
          inodes[dir[Tmp(s.slot)]].data == Full(s.state))
    && (s.stage == Synced || s.stage == Linked || s.stage == Ready ==> inodes[dir[Tmp(s.slot)]].synced)
    && (s.stage == Linked ==> LinkOk(inodes, dir, s.slot))
  }

  /** Running saves use slots of their own. */
  ghost predicate SavesOk(inodes: seq<Inode>, dir: map<Name, nat>, saves: map<nat, Save>) {
    && (forall k :: k in saves ==> SaveOk(inodes, dir, saves[k]))
    && (forall j, k :: j in saves && k in saves && j != k ==> saves[j].slot != saves[k].slot)
  }

  ghost predicate RenamedBy(renamed: seq<Rename>, save: nat) {
    exists p :: 0 <= p < |renamed| && renamed[p].save == save
  }

  ghost predicate PublishedOk(saves: map<nat, Save>, renamed: seq<Rename>) {
    forall k :: k in saves && saves[k].stage == Published ==> RenamedBy(renamed, k)
  }

  /** What a save that returned put there is on disk: in the oldest view a cut may leave. */
  ghost predicate ReturnedOk(returned: set<nat>, renamed: seq<Rename>, kept: nat) {
    kept <= |renamed| && forall k :: k in returned ==> RenamedBy(renamed[..kept], k)
  }

  ghost predicate Views(m: Machine, first: First) {
    ViewsOk(m.views, m.inodes, m.renamed, first)
  }

  ghost predicate Saves(m: Machine)
    requires m.views != []
  {
    SavesOk(m.inodes, Memory(m).dir, m.saves)
  }

  ghost predicate Renames(m: Machine)
    requires m.views != []
  {
    && (forall k :: k in m.saves ==> k < m.next)
    && PublishedOk(m.saves, m.renamed)
    && (m.inDir ==> ReturnedOk(m.returned, m.renamed, m.views[0].renames))
  }

  ghost predicate Inv(m: Machine, first: First) {
    Views(m, first) && Saves(m) && Renames(m)
  }

  // ----------------------------------------------------- files and the views

  /** A file that no lasting name stands for changes: nothing that is read does. */
  lemma {:induction false} TouchView(
    inodes: seq<Inode>, renamed: seq<Rename>, first: First, v: View, i: nat, inode: Inode)
    requires ViewOk(inodes, renamed, first, v) && i < |inodes|
    requires forall n :: n in v.dir && !n.Tmp? ==> v.dir[n] != i
    ensures ViewOk(inodes[i := inode], renamed, first, v)
  {
  }

  lemma {:induction false} TouchViews(
    views: seq<View>, inodes: seq<Inode>, renamed: seq<Rename>, first: First, t: Name, inode: Inode)
    requires ViewsOk(views, inodes, renamed, first)
    requires var dir := views[|views| - 1].dir; t.Tmp? && t in dir && dir[t] < |inodes|
    ensures ViewsOk(views, inodes[views[|views| - 1].dir[t] := inode], renamed, first)
  {
    var i := views[|views| - 1].dir[t];
    forall k | 0 <= k < |views|
      ensures ViewOk(inodes[i := inode], renamed, first, views[k])
    {
      assert InOrder(views[k], views[|views| - 1]);
      TouchView(inodes, renamed, first, views[k], i, inode);
    }
  }

  lemma {:induction false} WidenViews(
    views: seq<View>, inodes: seq<Inode>, renamed: seq<Rename>, first: First, inode: Inode)
    requires ViewsOk(views, inodes, renamed, first)
    ensures ViewsOk(views, inodes + [inode], renamed, first)
  {
    forall k | 0 <= k < |views|
      ensures ViewOk(inodes + [inode], renamed, first, views[k])
    {
      assert ViewOk(inodes, renamed, first, views[k]);
    }
  }

  /** The directory changes in memory. */
  lemma {:induction false} MoreViews(
    views: seq<View>, inodes: seq<Inode>, renamed: seq<Rename>, first: First, v: View)
    requires ViewsOk(views, inodes, renamed, first) && ViewOk(inodes, renamed, first, v)
    requires v.renames == |renamed| && Private(v.dir, v.dir)
    requires forall i :: 0 <= i < |views| ==> Private(views[i].dir, v.dir)
    ensures ViewsOk(views + [v], inodes, renamed, first)
  {
    var more := views + [v];
    forall i, j | 0 <= i <= j < |more| ensures InOrder(more[i], more[j]) {
      if i < |views| { assert ViewOk(inodes, renamed, first, views[i]); }
      if j < |views| { assert InOrder(views[i], views[j]); }
    }
    forall i | 0 <= i < |more| ensures ViewOk(inodes, renamed, first, more[i]) {
      if i < |views| { assert ViewOk(inodes, renamed, first, views[i]); }
    }
  }

  /** One more rename over the state changes nothing of earlier views. */
  lemma {:induction false} MoreRenames(
    views: seq<View>, inodes: seq<Inode>, renamed: seq<Rename>, first: First, i: nat, r: Rename)
    requires ViewsOk(views, inodes, renamed, first) && i < |views|
    ensures ViewOk(inodes, renamed + [r], first, views[i])
  {
    assert ViewOk(inodes, renamed, first, views[i]);
  }

  /** Temporary names stand for what they stood for, and nothing else does. */
  lemma {:induction false} StillPrivate(
    views: seq<View>, inodes: seq<Inode>, renamed: seq<Rename>, first: First, dir: map<Name, nat>)
    requires ViewsOk(views, inodes, renamed, first)
    requires forall t :: t in dir && t.Tmp? ==> t in views[|views| - 1].dir && dir[t] == views[|views| - 1].dir[t]
    requires forall n, t :: n in dir && !n.Tmp? && t in dir && t.Tmp? ==> dir[n] != dir[t]
    ensures forall i :: 0 <= i < |views| ==> Private(views[i].dir, dir)
    ensures Private(dir, dir)
  {
    var last := |views| - 1;
    forall i | 0 <= i < |views| ensures Private(views[i].dir, dir) {
      assert InOrder(views[i], views[last]);
    }
    assert InOrder(views[last], views[last]);
  }

  /** `dir` has the same state as `was`, and its temporary names are some of the same. */
  predicate SameAgain(inodes: seq<Inode>, was: map<Name, nat>, dir: map<Name, nat>) {
    && SyncedNames(inodes, dir)
    && (forall t :: t in dir && t.Tmp? ==> t in was && dir[t] == was[t])
    && (forall n, t :: n in dir && !n.Tmp? && t in dir && t.Tmp? ==> dir[n] != dir[t])
    && Read(inodes, dir, Current) == Read(inodes, was, Current)
  }

  /** A change in memory that keeps the state, and what a start reads if that is promised. */
  lemma {:induction false} ChangeViews(
    views: seq<View>, inodes: seq<Inode>, renamed: seq<Rename>, first: First, dir: map<Name, nat>)
    requires ViewsOk(views, inodes, renamed, first) && SameAgain(inodes, views[|views| - 1].dir, dir)
    requires first.Known? && |renamed| == 0 ==> Loads(inodes, dir) == Loads(inodes, views[|views| - 1].dir)
    ensures ViewsOk(views + [views[|views| - 1].(dir := dir)], inodes, renamed, first)
  {
    var v := views[|views| - 1];
    assert ViewOk(inodes, renamed, first, v);
    StillPrivate(views, inodes, renamed, first, dir);
    MoreViews(views, inodes, renamed, first, v.(dir := dir));
  }

  lemma {:induction false} AppendView(
    views: seq<View>, inodes: seq<Inode>, renamed: seq<Rename>, first: First, v: View, r: Rename)
    requires ViewsOk(views, inodes, renamed, first) && ViewOk(inodes, renamed + [r], first, v)
    requires v.renames == |renamed| + 1 && Private(v.dir, v.dir)
    requires forall i :: 0 <= i < |views| ==> Private(views[i].dir, v.dir)
    ensures ViewsOk(views + [v], inodes, renamed + [r], first)
  {
    var more := views + [v];
    forall i | 0 <= i < |views| ensures ViewOk(inodes, renamed + [r], first, more[i]) && InOrder(more[i], v) {
      MoreRenames(views, inodes, renamed, first, i, r);
      assert InOrder(views[i], views[|views| - 1]);
    }
    forall i, j | 0 <= i <= j < |more| ensures InOrder(more[i], more[j]) {
      if j < |views| { assert InOrder(views[i], views[j]); }
    }
  }

  /** The last view is well by itself. */
  lemma {:induction false} LastView(views: seq<View>, inodes: seq<Inode>, renamed: seq<Rename>, first: First)
    requires ViewsOk(views, inodes, renamed, first)
    ensures var v := views[|views| - 1];
            ViewOk(inodes, renamed, first, v) && Private(v.dir, v.dir) && v.renames == |renamed|
    ensures ViewsOk([views[|views| - 1]], inodes, renamed, first)
  {
    assert InOrder(views[|views| - 1], views[|views| - 1]);
    assert ViewOk(inodes, renamed, first, views[|views| - 1]);
  }

  // -------------------------------------------------- what steps do to a view

  lemma {:induction false} LinkedDir(inodes: seq<Inode>, dir: map<Name, nat>, slot: nat)
    requires SyncedNames(inodes, dir) && Private(dir, dir) && Current in dir
    ensures var after := dir[PrevTmp(slot) := dir[Current]];
            SameAgain(inodes, dir, after) && Loads(inodes, after) == Loads(inodes, dir)
  {
  }

  lemma {:induction false} RenamedDir(inodes: seq<Inode>, dir: map<Name, nat>, slot: nat)
    requires SyncedNames(inodes, dir) && Private(dir, dir) && PrevTmp(slot) in dir
    ensures SameAgain(inodes, dir, Moved(dir, PrevTmp(slot), Prev))
  {
  }

  /** A state that does not parse is linked over a previous copy that does. */
  predicate OverGood(inodes: seq<Inode>, dir: map<Name, nat>) {
    HasBadState(inodes, dir) && Loads(inodes, dir).Some?
  }

  /** What a start reads stays, unless a bad state is linked over a good previous copy: then it reads nothing. */
  lemma {:induction false} RenamedLoads(inodes: seq<Inode>, dir: map<Name, nat>, slot: nat)
    requires LinkOk(inodes, dir, slot)
    ensures var after := Moved(dir, PrevTmp(slot), Prev);
            Loads(inodes, after) == if OverGood(inodes, dir) then None else Loads(inodes, dir)
  {
  }

  lemma {:induction false} UnlinkedDir(inodes: seq<Inode>, dir: map<Name, nat>, n: Name)
    requires SyncedNames(inodes, dir) && Private(dir, dir) && (n.Tmp? || n.PrevTmp?)
    ensures SameAgain(inodes, dir, dir - {n}) && Loads(inodes, dir - {n}) == Loads(inodes, dir)
  {
  }

  lemma {:induction false} NewNameIsPrivate(views: seq<View>, inodes: seq<Inode>, renamed: seq<Rename>, first: First, t: Name)
    requires ViewsOk(views, inodes, renamed, first) && t.Tmp?
    ensures var dir := views[|views| - 1].dir[t := |inodes|];
            Private(dir, dir) && forall i :: 0 <= i < |views| ==> Private(views[i].dir, dir)
  {
    var last := |views| - 1;
    forall i | 0 <= i < |views| ensures Private(views[i].dir, views[last].dir[t := |inodes|]) {
      assert InOrder(views[i], views[last]);
      assert ViewOk(inodes, renamed, first, views[i]);
    }
    LastView(views, inodes, renamed, first);
  }

  lemma {:induction false} NewNameView(inodes: seq<Inode>, renamed: seq<Rename>, first: First, v: View, t: Name)
    requires ViewOk(inodes, renamed, first, v) && t.Tmp?
    ensures ViewOk(inodes + [Inode(Torn, false)], renamed, first, v.(dir := v.dir[t := |inodes|]))
  {
  }

  lemma {:induction false} NewFileViews(views: seq<View>, inodes: seq<Inode>, renamed: seq<Rename>, first: First, t: Name)
    requires ViewsOk(views, inodes, renamed, first) && t.Tmp?
    ensures var v := views[|views| - 1];
            ViewsOk(views + [v.(dir := v.dir[t := |inodes|])], inodes + [Inode(Torn, false)], renamed, first)
  {
    var v := views[|views| - 1];
    LastView(views, inodes, renamed, first);
    WidenViews(views, inodes, renamed, first, Inode(Torn, false));
    NewNameIsPrivate(views, inodes, renamed, first, t);
    NewNameView(inodes, renamed, first, v, t);
    MoreViews(views, inodes + [Inode(Torn, false)], renamed, first, v.(dir := v.dir[t := |inodes|]));
  }

  /** The directory once the file of `slot` is the state. */
  lemma {:induction false} PublishedDir(inodes: seq<Inode>, dir: map<Name, nat>, slot: nat)
    requires SyncedNames(inodes, dir) && Private(dir, dir) && Tmp(slot) in dir && inodes[dir[Tmp(slot)]].synced
    ensures var after := Moved(dir, Tmp(slot), Current);
            && SyncedNames(inodes, after) && Read(inodes, after, Current) == Some(inodes[dir[Tmp(slot)]].data)
            && (forall t :: t in after && t.Tmp? ==> t in dir && after[t] == dir[t])
            && (forall n, t :: n in after && !n.Tmp? && t in after && t.Tmp? ==> after[n] != after[t])
  {
    assert Current in dir ==> dir[Current] != dir[Tmp(slot)];
  }

  lemma {:induction false} PublishViews(
    views: seq<View>, inodes: seq<Inode>, renamed: seq<Rename>, first: First, slot: nat, r: Rename)
    requires ViewsOk(views, inodes, renamed, first)
    requires var dir := views[|views| - 1].dir;
             Tmp(slot) in dir && dir[Tmp(slot)] < |inodes| && inodes[dir[Tmp(slot)]] == Inode(Full(r.state), true)
    ensures var v := views[|views| - 1];
            ViewsOk(views + [View(Moved(v.dir, Tmp(slot), Current), v.renames + 1)], inodes, renamed + [r], first)
  {
    var v := views[|views| - 1];
    var after := Moved(v.dir, Tmp(slot), Current);
    LastView(views, inodes, renamed, first);
    PublishedDir(inodes, v.dir, slot);
    StillPrivate(views, inodes, renamed, first, after);
    assert ViewOk(inodes, renamed + [r], first, View(after, v.renames + 1));
    AppendView(views, inodes, renamed, first, View(after, v.renames + 1), r);
  }

  // -------------------------------------------------------- steps and views

  /** The previous copy is lost: the state that replaces it does not parse, and no save has been renamed over it. */
  predicate Costs(m: Machine, s: Step)
    requires m.views != []
  {
    && s.RenamePrev? && s.ok && At(m, s.save, Linked) && PrevTmp(m.saves[s.save].slot) in Memory(m).dir
    && Memory(m).renames == 0 && OverGood(m.inodes, Memory(m).dir)
  }

  lemma {:induction false} TruncateViews(m: Machine, first: First, s: Step)
    requires Views(m, first) && s.Create? && At(m, s.save, Begun) && TmpInode(m, m.saves[s.save].slot).Some?
    ensures Views(Do(m, s), first)
  {
    TouchViews(m.views, m.inodes, m.renamed, first, Tmp(m.saves[s.save].slot), Inode(Torn, false));
  }

  lemma {:induction false} CreateViews(m: Machine, first: First, s: Step)
    requires Views(m, first) && s.Create? && At(m, s.save, Begun) && TmpInode(m, m.saves[s.save].slot).None?
    ensures Views(Do(m, s), first)
  {
    NewFileViews(m.views, m.inodes, m.renamed, first, Tmp(m.saves[s.save].slot));
  }

  lemma {:induction false} WriteViews(m: Machine, first: First, s: Step)
    requires Views(m, first) && s.Write?
    ensures Views(Do(m, s), first)
  {
    if At(m, s.save, Created) && TmpInode(m, m.saves[s.save].slot).Some? {
      TouchViews(m.views, m.inodes, m.renamed, first, Tmp(m.saves[s.save].slot), Inode(Full(m.saves[s.save].state), false));
    }
  }

  lemma {:induction false} SyncViews(m: Machine, first: First, s: Step)
    requires Views(m, first) && s.SyncFile?
    ensures Views(Do(m, s), first)
  {
    if At(m, s.save, Written) && TmpInode(m, m.saves[s.save].slot).Some? {
      var t := Tmp(m.saves[s.save].slot);
      TouchViews(m.views, m.inodes, m.renamed, first, t, m.inodes[Memory(m).dir[t]].(synced := true));
    }
  }

  lemma {:induction false} LinkedViews(
    views: seq<View>, inodes: seq<Inode>, renamed: seq<Rename>, first: First, slot: nat)
    requires ViewsOk(views, inodes, renamed, first) && Current in views[|views| - 1].dir
    ensures var v := views[|views| - 1];
            ViewsOk(views + [v.(dir := v.dir[PrevTmp(slot) := v.dir[Current]])], inodes, renamed, first)
  {
    var v := views[|views| - 1];
    LastView(views, inodes, renamed, first);
    LinkedDir(inodes, v.dir, slot);
    ChangeViews(views, inodes, renamed, first, v.dir[PrevTmp(slot) := v.dir[Current]]);
  }

  lemma {:induction false} LinkViews(m: Machine, first: First, s: Step)
    requires Views(m, first) && s.LinkPrev?
    ensures Views(Do(m, s), first)
  {
    if At(m, s.save, Synced) && Current in Memory(m).dir {
      LinkedViews(m.views, m.inodes, m.renamed, first, m.saves[s.save].slot);
    }
  }

  lemma {:induction false} RenameViews(m: Machine, first: First, s: Step)
    requires Views(m, first) && Saves(m) && s.RenamePrev? && (first.Known? ==> !Costs(m, s))
    ensures Views(Do(m, s), first)
  {
    if At(m, s.save, Linked) && PrevTmp(m.saves[s.save].slot) in Memory(m).dir {
      var slot, dir := m.saves[s.save].slot, Memory(m).dir;
      LastView(m.views, m.inodes, m.renamed, first);
      assert SaveOk(m.inodes, dir, m.saves[s.save]);
      if s.ok {
        RenamedDir(m.inodes, dir, slot);
        RenamedLoads(m.inodes, dir, slot);
        ChangeViews(m.views, m.inodes, m.renamed, first, Moved(dir, PrevTmp(slot), Prev));
      } else {
        UnlinkedDir(m.inodes, dir, PrevTmp(slot));
        ChangeViews(m.views, m.inodes, m.renamed, first, dir - {PrevTmp(slot)});
      }
    }
  }

  lemma {:induction false} PublishStepViews(m: Machine, first: First, s: Step)
    requires Views(m, first) && Saves(m) && s.Publish?
    ensures Views(Do(m, s), first)
  {
    if At(m, s.save, Ready) {
      assert SaveOk(m.inodes, Memory(m).dir, m.saves[s.save]);
      PublishViews(m.views, m.inodes, m.renamed, first, m.saves[s.save].slot, Rename(s.save, m.saves[s.save].state));
    }
  }

  lemma {:induction false} EndViews(m: Machine, first: First, s: Step)
    requires Views(m, first) && (s.SyncDir? || s.Abort?)
    ensures Views(Do(m, s), first)
  {
    LastView(m.views, m.inodes, m.renamed, first);
    if s.Abort? && s.save in m.saves {
      var t := Tmp(m.saves[s.save].slot);
      UnlinkedDir(m.inodes, Memory(m).dir, t);
      ChangeViews(m.views, m.inodes, m.renamed, first, Memory(m).dir - {t});
    }
  }

  lemma {:induction false} CutReads(inodes: seq<Inode>, after: seq<Inode>, dir: map<Name, nat>)
    requires SyncedNames(inodes, dir) && |after| == |inodes|
    requires forall i :: 0 <= i < |after| && inodes[i].synced ==> after[i] == inodes[i]
    ensures SyncedNames(after, dir) && Read(after, dir, Current) == Read(inodes, dir, Current)
    ensures Loads(after, dir) == Loads(inodes, dir)
  {
  }

  lemma {:induction false} CutView(inodes: seq<Inode>, after: seq<Inode>, renamed: seq<Rename>, first: First, v: View)
    requires ViewOk(inodes, renamed, first, v) && Private(v.dir, v.dir) && |after| == |inodes|
    requires forall i :: 0 <= i < |after| && inodes[i].synced ==> after[i] == inodes[i]
    ensures v.renames <= |renamed| && ViewsOk([v], after, renamed[..v.renames], first)
  {
    CutReads(inodes, after, v.dir);
    assert ViewOk(after, renamed[..v.renames], first, v);
    assert InOrder(v, v);
  }

  lemma {:induction false} SetAsideDir(inodes: seq<Inode>, dir: map<Name, nat>, stamp: int)
    requires SyncedNames(inodes, dir) && Private(dir, dir) && HasBadState(inodes, dir)
    ensures var after := SetAside(dir, stamp);
            && SyncedNames(inodes, after) && Private(after, after) && Private(dir, after)
            && Loads(inodes, after) == Loads(inodes, dir)
  {
  }

  /** A bad state is set aside in memory: no save was renamed over it yet. */
  lemma {:induction false} AsideViews(
    views: seq<View>, inodes: seq<Inode>, renamed: seq<Rename>, first: First, stamp: int)
    requires ViewsOk(views, inodes, renamed, first) && HasBadState(inodes, views[|views| - 1].dir)
    ensures var v := views[|views| - 1];
            ViewsOk(views + [v.(dir := SetAside(v.dir, stamp))], inodes, renamed, first)
  {
    var v := views[|views| - 1];
    var after := SetAside(v.dir, stamp);
    LastView(views, inodes, renamed, first);
    SetAsideDir(inodes, v.dir, stamp);
    StillPrivate(views, inodes, renamed, first, after);
    MoreViews(views, inodes, renamed, first, v.(dir := after));
  }

  lemma {:induction false} RestartViews(m: Machine, first: First, s: Step)
    requires Views(m, first) && s.Restart?
    ensures Views(Do(m, s), first)
  {
    if CutLeaves(m, s.view, s.after) {
      var v := m.views[s.view];
      assert ViewOk(m.inodes, m.renamed, first, v) && InOrder(v, v);
      CutView(m.inodes, s.after, m.renamed, first, v);
      if HasBadState(s.after, v.dir) && s.moved {
        AsideViews([v], s.after, m.renamed[..v.renames], first, s.stamp);
      }
    }
  }

  lemma {:induction false} ReopenViews(m: Machine, first: First, s: Step)
    requires Views(m, first) && s.Reopen?
    ensures Views(Do(m, s), first)
  {
    if HasBadState(m.inodes, Memory(m).dir) && s.moved {
      AsideViews(m.views, m.inodes, m.renamed, first, s.stamp);
    }
  }

  lemma {:induction false} StepViews(m: Machine, first: First, s: Step)
    requires Views(m, first) && Saves(m) && (first.Known? ==> !Costs(m, s))
    ensures Views(Do(m, s), first)
  {
    match s
    case Begin(_, _) =>
    case Create(_) =>
      if At(m, s.save, Begun) {
        if TmpInode(m, m.saves[s.save].slot).Some? { TruncateViews(m, first, s); } else { CreateViews(m, first, s); }
      }
    case Write(_) => WriteViews(m, first, s);
    case SyncFile(_) => SyncViews(m, first, s);
    case LinkPrev(_, _) => LinkViews(m, first, s);
    case RenamePrev(_, _) => RenameViews(m, first, s);
    case Publish(_) => PublishStepViews(m, first, s);
    case SyncDir(_) => EndViews(m, first, s);
    case Abort(_, _) => EndViews(m, first, s);
    case Restart(_, _, _, _) => RestartViews(m, first, s);
    case Reopen(_, _) => ReopenViews(m, first, s);
  }

  // -------------------------------------------------------- steps and saves

  /** Saves have files of their own: changing one's leaves the others'. */
  lemma {:induction false} TouchSaves(
    inodes: seq<Inode>, dir: map<Name, nat>, saves: map<nat, Save>, k: nat, s: Save, inode: Inode)
    requires SavesOk(inodes, dir, saves) && k in saves && s.slot == saves[k].slot && Private(dir, dir)
    requires Tmp(s.slot) in dir && dir[Tmp(s.slot)] < |inodes|
    requires SaveOk(inodes[dir[Tmp(s.slot)] := inode], dir, s)
    ensures SavesOk(inodes[dir[Tmp(s.slot)] := inode], dir, saves[k := s])
  {
    forall j | j in saves && j != k ensures SaveOk(inodes[dir[Tmp(s.slot)] := inode], dir, saves[j]) {
      assert Tmp(saves[j].slot) != Tmp(s.slot);
      assert SaveOk(inodes, dir, saves[j]);
    }
  }

  /** The names of other saves stand for what they did, and the state for the same file or a good one. */
  predicate SaveNamesKept(inodes: seq<Inode>, was: map<Name, nat>, dir: map<Name, nat>, slot: nat) {
    && (forall n :: n in was && (n.Tmp? || n.PrevTmp?) && n.slot != slot ==> n in dir && dir[n] == was[n])
    && (Current in was ==>
          Current in dir && (dir[Current] == was[Current] || (dir[Current] < |inodes| && inodes[dir[Current]].data.Full?)))
  }

  lemma {:induction false} KeptSave(inodes: seq<Inode>, was: map<Name, nat>, dir: map<Name, nat>, slot: nat, s: Save)
    requires SaveOk(inodes, was, s) && s.slot != slot && SaveNamesKept(inodes, was, dir, slot)
    ensures SaveOk(inodes, dir, s)
  {
  }

  lemma {:induction false} ChangeSaves(
    inodes: seq<Inode>, was: map<Name, nat>, dir: map<Name, nat>, saves: map<nat, Save>, k: nat, s: Save)
    requires SavesOk(inodes, was, saves) && k in saves && s.slot == saves[k].slot && SaveOk(inodes, dir, s)
    requires SaveNamesKept(inodes, was, dir, s.slot)
    ensures SavesOk(inodes, dir, saves[k := s])
  {
    forall j | j in saves && j != k ensures SaveOk(inodes, dir, saves[j]) {
      KeptSave(inodes, was, dir, s.slot, saves[j]);
    }
  }

  lemma {:induction false} FewerSaves(
    inodes: seq<Inode>, was: map<Name, nat>, dir: map<Name, nat>, saves: map<nat, Save>, k: nat)
    requires SavesOk(inodes, was, saves) && k in saves && SaveNamesKept(inodes, was, dir, saves[k].slot)
    ensures SavesOk(inodes, dir, saves - {k})
  {
    forall j | j in saves && j != k ensures SaveOk(inodes, dir, saves[j]) {
      KeptSave(inodes, was, dir, saves[k].slot, saves[j]);
    }
  }

  lemma {:induction false} MoreFiles(inodes: seq<Inode>, dir: map<Name, nat>, saves: map<nat, Save>, inode: Inode)
    requires SavesOk(inodes, dir, saves)
    ensures SavesOk(inodes + [inode], dir, saves)
  {
    forall k | k in saves ensures SaveOk(inodes + [inode], dir, saves[k]) {
      assert SaveOk(inodes, dir, saves[k]);
    }
  }

  lemma {:induction false} NewFileSaves(inodes: seq<Inode>, was: map<Name, nat>, saves: map<nat, Save>, k: nat)
    requires SavesOk(inodes, was, saves) && k in saves && saves[k].stage == Begun
    ensures SavesOk(inodes + [Inode(Torn, false)], was[Tmp(saves[k].slot) := |inodes|], saves[k := saves[k].(stage := Created)])
  {
    MoreFiles(inodes, was, saves, Inode(Torn, false));
    ChangeSaves(inodes + [Inode(Torn, false)], was, was[Tmp(saves[k].slot) := |inodes|], saves, k, saves[k].(stage := Created));
  }

  lemma {:induction false} MoreSaves(inodes: seq<Inode>, dir: map<Name, nat>, saves: map<nat, Save>, k: nat, s: Save)
    requires SavesOk(inodes, dir, saves) && s.stage == Begun && k !in saves
    requires forall i :: i in saves ==> saves[i].slot != s.slot
    ensures SavesOk(inodes, dir, saves[k := s])
  {
    forall j | j in saves ensures SaveOk(inodes, dir, saves[j]) {}
  }

  lemma {:induction false} CreateSaves(m: Machine, s: Step)
    requires m.views != [] && Saves(m) && Private(Memory(m).dir, Memory(m).dir) && s.Create?
    ensures Saves(Do(m, s))
  {
    if At(m, s.save, Begun) {
      var save := m.saves[s.save];
      if TmpInode(m, save.slot).Some? {
        TouchSaves(m.inodes, Memory(m).dir, m.saves, s.save, save.(stage := Created), Inode(Torn, false));
      } else {
        NewFileSaves(m.inodes, Memory(m).dir, m.saves, s.save);
      }
    }
  }

  lemma {:induction false} WrittenSaves(inodes: seq<Inode>, dir: map<Name, nat>, saves: map<nat, Save>, k: nat)
    requires SavesOk(inodes, dir, saves) && Private(dir, dir) && k in saves && saves[k].stage == Created
    ensures SavesOk(inodes[dir[Tmp(saves[k].slot)] := Inode(Full(saves[k].state), false)], dir,
                    saves[k := saves[k].(stage := Written)])
  {
    TouchSaves(inodes, dir, saves, k, saves[k].(stage := Written), Inode(Full(saves[k].state), false));
  }

  lemma {:induction false} SyncedSaves(inodes: seq<Inode>, dir: map<Name, nat>, saves: map<nat, Save>, k: nat)
    requires SavesOk(inodes, dir, saves) && Private(dir, dir) && k in saves && saves[k].stage == Written
    ensures var i := dir[Tmp(saves[k].slot)];
            SavesOk(inodes[i := inodes[i].(synced := true)], dir, saves[k := saves[k].(stage := Synced)])
  {
    var i := dir[Tmp(saves[k].slot)];
    TouchSaves(inodes, dir, saves, k, saves[k].(stage := Synced), inodes[i].(synced := true));
  }

  lemma {:induction false} WriteSaves(m: Machine, s: Step)
    requires m.views != [] && Saves(m) && Private(Memory(m).dir, Memory(m).dir) && (s.Write? || s.SyncFile?)
    ensures Saves(Do(m, s))
  {
    if s.Write? {
      if At(m, s.save, Created) { WrittenSaves(m.inodes, Memory(m).dir, m.saves, s.save); }
    } else if At(m, s.save, Written) {
      SyncedSaves(m.inodes, Memory(m).dir, m.saves, s.save);
    }
  }

  lemma {:induction false} LinkSaves(m: Machine, s: Step)
    requires m.views != [] && Saves(m) && SyncedNames(m.inodes, Memory(m).dir) && s.LinkPrev?
    ensures Saves(Do(m, s))
  {
    if At(m, s.save, Synced) {
      var save, dir := m.saves[s.save], Memory(m).dir;
      assert SaveOk(m.inodes, dir, save);
      if s.ok && Current in dir && PrevTmp(save.slot) !in dir {
        ChangeSaves(m.inodes, dir, dir[PrevTmp(save.slot) := dir[Current]], m.saves, s.save, save.(stage := Linked));
      } else {
        ChangeSaves(m.inodes, dir, dir, m.saves, s.save, save.(stage := Ready));
      }
    }
  }

  lemma {:induction false} RenameSaves(m: Machine, s: Step)
    requires m.views != [] && Saves(m) && s.RenamePrev?
    ensures Saves(Do(m, s))
  {
    if At(m, s.save, Linked) && PrevTmp(m.saves[s.save].slot) in Memory(m).dir {
      var save, dir := m.saves[s.save], Memory(m).dir;
      var after := if s.ok then Moved(dir, PrevTmp(save.slot), Prev) else dir - {PrevTmp(save.slot)};
      assert SaveOk(m.inodes, dir, save);
      ChangeSaves(m.inodes, dir, after, m.saves, s.save, save.(stage := Ready));
    }
  }

  lemma {:induction false} PublishSaves(m: Machine, s: Step)
    requires m.views != [] && Saves(m) && s.Publish?
    ensures Saves(Do(m, s))
  {
    if At(m, s.save, Ready) && Tmp(m.saves[s.save].slot) in Memory(m).dir {
      var save, dir := m.saves[s.save], Memory(m).dir;
      assert SaveOk(m.inodes, dir, save);
      ChangeSaves(m.inodes, dir, Moved(dir, Tmp(save.slot), Current), m.saves, s.save, save.(stage := Published));
    }
  }

  lemma {:induction false} EndSaves(m: Machine, s: Step)
    requires m.views != [] && Saves(m) && (s.SyncDir? || s.Abort?)
    ensures Saves(Do(m, s))
  {
    if s.save in m.saves { GoneSaves(m.inodes, Memory(m).dir, m.saves, s.save); }
  }

  /** A save ends, with its file removed or not. */
  lemma {:induction false} GoneSaves(inodes: seq<Inode>, dir: map<Name, nat>, saves: map<nat, Save>, k: nat)
    requires SavesOk(inodes, dir, saves) && k in saves
    ensures SavesOk(inodes, dir, saves - {k}) && SavesOk(inodes, dir - {Tmp(saves[k].slot)}, saves - {k})
  {
    FewerSaves(inodes, dir, dir, saves, k);
    FewerSaves(inodes, dir, dir - {Tmp(saves[k].slot)}, saves, k);
  }

  lemma {:induction false} BeginSaves(m: Machine, s: Step)
    requires m.views != [] && Saves(m) && Renames(m) && s.Begin?
    ensures Saves(Do(m, s))
  {
    if forall i :: i in m.saves ==> m.saves[i].slot != s.slot {
      MoreSaves(m.inodes, Memory(m).dir, m.saves, m.next, Save(s.slot, s.state, Begun));
    }
  }

  lemma {:induction false} StepSaves(m: Machine, first: First, s: Step)
    requires Inv(m, first)
    ensures Saves(Do(m, s))
  {
    LastView(m.views, m.inodes, m.renamed, first);
    match s
    case Begin(_, _) => BeginSaves(m, s);
    case Create(_) => CreateSaves(m, s);
    case Write(_) => WriteSaves(m, s);
    case SyncFile(_) => WriteSaves(m, s);
    case LinkPrev(_, _) => LinkSaves(m, s);
    case RenamePrev(_, _) => RenameSaves(m, s);
    case Publish(_) => PublishSaves(m, s);
    case SyncDir(_) => EndSaves(m, s);
    case Abort(_, _) => EndSaves(m, s);
    case Restart(_, _, _, _) =>
    case Reopen(_, _) =>
  }

  // ------------------------------------------------------- steps and renames

  lemma {:induction false} RenamedByMore(few: seq<Rename>, many: seq<Rename>, k: nat)
    requires few <= many && RenamedBy(few, k)
    ensures RenamedBy(many, k)
  {
    var p :| 0 <= p < |few| && few[p].save == k;
    assert many[p] == few[p];
  }

  lemma {:induction false} ReturnedMore(
    returned: set<nat>, renamed: seq<Rename>, kept: nat, more: seq<Rename>, keptNow: nat)
    requires ReturnedOk(returned, renamed, kept) && kept <= keptNow <= |more| && renamed[..kept] <= more[..keptNow]
    ensures ReturnedOk(returned, more, keptNow)
  {
    forall k | k in returned ensures RenamedBy(more[..keptNow], k) {
      RenamedByMore(renamed[..kept], more[..keptNow], k);
    }
  }

  lemma {:induction false} PublishedMore(saves: map<nat, Save>, renamed: seq<Rename>, k: nat, r: Rename)
    requires PublishedOk(saves, renamed) && k in saves && r.save == k
    ensures PublishedOk(saves[k := saves[k].(stage := Published)], renamed + [r])
  {
    assert (renamed + [r])[|renamed|].save == k;
    forall j | j in saves && saves[j].stage == Published ensures RenamedBy(renamed + [r], j) {
      RenamedByMore(renamed, renamed + [r], j);
    }
  }

  lemma {:induction false} PublishRenames(m: Machine, s: Step)
    requires m.views != [] && Renames(m) && s.Publish?
    ensures Renames(Do(m, s))
  {
    if At(m, s.save, Ready) && Tmp(m.saves[s.save].slot) in Memory(m).dir {
      var r := Rename(s.save, m.saves[s.save].state);
      PublishedMore(m.saves, m.renamed, s.save, r);
      if m.inDir {
        var kept := m.views[0].renames;
        assert (m.renamed + [r])[..kept] == m.renamed[..kept];
        ReturnedMore(m.returned, m.renamed, kept, m.renamed + [r], kept);
      }
    }
  }

  lemma {:induction false} SyncDirRenames(m: Machine, s: Step)
    requires m.views != [] && Renames(m) && s.SyncDir?
    requires m.views[0].renames <= Memory(m).renames == |m.renamed|
    ensures Renames(Do(m, s))
  {
    if At(m, s.save, Published) && m.inDir {
      assert RenamedBy(m.renamed, s.save);
      assert m.renamed[..|m.renamed|] == m.renamed;
      ReturnedMore(m.returned, m.renamed, m.views[0].renames, m.renamed, |m.renamed|);
    }
  }

  lemma {:induction false} RestartRenames(m: Machine, s: Step)
    requires m.views != [] && Renames(m) && s.Restart?
    requires CutLeaves(m, s.view, s.after) ==> m.views[0].renames <= m.views[s.view].renames <= |m.renamed|
    ensures Renames(Do(m, s))
  {
    if CutLeaves(m, s.view, s.after) && m.inDir {
      var kept, few := m.views[s.view].renames, m.renamed[..m.views[s.view].renames];
      assert few[..kept] == few;
      assert m.renamed[..m.views[0].renames] == few[..m.views[0].renames];
      ReturnedMore(m.returned, m.renamed, m.views[0].renames, few, kept);
    }
  }

  /** The steps of a save up to its rename, and one that ends without it. */
  lemma {:induction false} OtherRenames(m: Machine, s: Step)
    requires m.views != [] && Renames(m) && !s.Publish? && !s.SyncDir? && !s.Restart?
    ensures Renames(Do(m, s))
  {
    var n := Do(m, s);
    assert n.views[0] == m.views[0] && n.renamed == m.renamed && n.returned == m.returned && n.inDir == m.inDir;
  }

  lemma {:induction false} StepRenames(m: Machine, first: First, s: Step)
    requires Inv(m, first)
    ensures Renames(Do(m, s))
  {
    if s.Publish? {
      PublishRenames(m, s);
    } else if s.SyncDir? {
      assert InOrder(m.views[0], m.views[|m.views| - 1]);
      SyncDirRenames(m, s);
    } else if s.Restart? {
      if CutLeaves(m, s.view, s.after) {
        assert InOrder(m.views[0], m.views[s.view]);
        assert ViewOk(m.inodes, m.renamed, first, m.views[s.view]);
      }
      RestartRenames(m, s);
    } else {
      OtherRenames(m, s);
    }
  }

  // -------------------------------------------------------------------- runs

  lemma {:induction false} StepKeepsInv(m: Machine, first: First, s: Step)
    requires Inv(m, first) && (first.Known? ==> !Costs(m, s))
    ensures Inv(Do(m, s), first)
  {
    StepViews(m, first, s);
    StepSaves(m, first, s);
    StepRenames(m, first, s);
  }

  /** No step of the run costs the previous copy. */
  predicate NoneCosts(m: Machine, run: seq<Step>)
    requires m.views != []
  {
    forall i :: 0 <= i < |run| ==> !Costs(After(m, run[..i]), run[i])
  }

  lemma {:induction false} FrontCosts(m: Machine, run: seq<Step>)
    requires m.views != [] && run != [] && NoneCosts(m, run)
    ensures NoneCosts(m, run[..|run| - 1]) && !Costs(After(m, run[..|run| - 1]), run[|run| - 1])
  {
    var front := run[..|run| - 1];
    forall i | 0 <= i < |front| ensures !Costs(After(m, front[..i]), front[i]) {
      assert front[..i] == run[..i] && front[i] == run[i];
    }
  }

  lemma {:induction false} RunKeepsInv(m: Machine, first: First, run: seq<Step>)
    requires Inv(m, first) && (first.Known? ==> NoneCosts(m, run))
    ensures Inv(After(m, run), first)
  {
    if run != [] {
      if first.Known? { FrontCosts(m, run); }
      RunKeepsInv(m, first, run[..|run| - 1]);
      StepKeepsInv(After(m, run[..|run| - 1]), first, run[|run| - 1]);
    }
  }

  /** The disk before a first start: every file as it is there, a state that may not parse, no save. */
  predicate OnDisk(m: Machine) {
    && |m.views| == 1 && m.views[0].renames == 0 && m.renamed == [] && m.returned == {} && m.saves == map[]
    && SyncedNames(m.inodes, m.views[0].dir) && Private(m.views[0].dir, m.views[0].dir)
  }

  lemma {:induction false} OnDiskInv(m: Machine)
    requires OnDisk(m)
    ensures Inv(m, Unknown) && Inv(m, Known(Loads(m.inodes, m.views[0].dir)))
  {
  }

  // ------------------------------------------------------------------- cuts

  lemma {:induction false} CutInv(n: Machine, first: First, view: nat, after: seq<Inode>)
    requires Views(n, first) && CutLeaves(n, view, after)
    ensures n.views[0].renames <= n.views[view].renames <= |n.renamed|
    ensures var v := n.views[view];
            && (v.renames > 0 ==> Loads(after, v.dir) == Some(n.renamed[v.renames - 1].state))
            && (v.renames == 0 && first.Known? ==> Loads(after, v.dir) == first.state)
  {
    assert ViewOk(n.inodes, n.renamed, first, n.views[view]);
    assert InOrder(n.views[0], n.views[view]);
    CutReads(n.inodes, after, n.views[view].dir);
  }

  lemma {:induction false} RunInv(m: Machine, run: seq<Step>)
    requires OnDisk(m)
    ensures Inv(After(m, run), Unknown) && After(m, run).inDir == m.inDir
  {
    OnDiskInv(m);
    RunKeepsInv(m, Unknown, run);
    InDirStays(m, run);
  }

  /** A start after the cut reads the state of the last save whose rename the cut kept, if it kept any. */
  predicate ReadsLastKept(n: Machine, view: nat, after: seq<Inode>)
    requires view < |n.views|
  {
    && n.views[view].renames <= |n.renamed|
    && (n.views[view].renames > 0 ==>
          Loads(after, n.views[view].dir) == Some(n.renamed[n.views[view].renames - 1].state))
  }

  /** Where the cut kept no rename, a start reads `first`. */
  predicate ReadsFirst(n: Machine, view: nat, after: seq<Inode>, first: Option<int>)
    requires view < |n.views|
  {
    n.views[view].renames == 0 ==> Loads(after, n.views[view].dir) == first
  }

  lemma {:induction false} CutReadsLastKept(n: Machine, first: First, view: nat, after: seq<Inode>)
    requires Views(n, first) && CutLeaves(n, view, after)
    ensures ReadsLastKept(n, view, after)
    ensures first.Known? ==> ReadsFirst(n, view, after, first.state)
  {
    CutInv(n, first, view, after);
  }

  lemma {:induction false} RunReadsFirst(m: Machine, run: seq<Step>)
    requires OnDisk(m) && NoneCosts(m, run)
    ensures Inv(After(m, run), Known(Loads(m.inodes, m.views[0].dir)))
  {
    OnDiskInv(m);
    RunKeepsInv(m, Known(Loads(m.inodes, m.views[0].dir)), run);
  }

  /**
   * From any disk, whatever saves and starts ran, side by side or cut short, a start after a cut at any moment reads the
   * state of the last save whose rename the cut kept. Where it kept none, and no step cost the previous copy, it reads
   * what a start read at first, from a state that did not parse too.
   */
  lemma {:induction false} EveryCutLeavesAState(m: Machine, run: seq<Step>, view: nat, after: seq<Inode>)
    requires OnDisk(m) && CutLeaves(After(m, run), view, after)
    ensures ReadsLastKept(After(m, run), view, after)
    ensures NoneCosts(m, run) ==> ReadsFirst(After(m, run), view, after, Loads(m.inodes, m.views[0].dir))
  {
    RunInv(m, run);
    CutReadsLastKept(After(m, run), Unknown, view, after);
    if NoneCosts(m, run) {
      RunReadsFirst(m, run);
      CutReadsLastKept(After(m, run), Known(Loads(m.inodes, m.views[0].dir)), view, after);
    }
  }

  /** Every cut of the machine that keeps no rename reads the same as a start did at first. */
  ghost predicate KeepsFirst(m: Machine, n: Machine) {
    && m.views != []
    && forall i :: 0 <= i < |n.views| && n.views[i].renames == 0 ==> Loads(n.inodes, n.views[i].dir) == Loads(m.inodes, m.views[0].dir)
  }

  lemma {:induction false} CostIsSeen(m: Machine, n: Machine, s: Step)
    requires n.views != [] && Saves(n) && KeepsFirst(m, n) && Costs(n, s)
    ensures !KeepsFirst(m, Do(n, s))
  {
    var slot := n.saves[s.save].slot;
    assert SaveOk(n.inodes, Memory(n).dir, n.saves[s.save]);
    RenamedLoads(n.inodes, Memory(n).dir, slot);
    var k := Do(n, s);
    assert k.views[|n.views|] == Memory(n).(dir := Moved(Memory(n).dir, PrevTmp(slot), Prev));
  }

  lemma {:induction false} InvKeepsFirst(m: Machine, n: Machine)
    requires m.views != [] && Views(n, Known(Loads(m.inodes, m.views[0].dir)))
    ensures KeepsFirst(m, n)
  {
    forall i | 0 <= i < |n.views| && n.views[i].renames == 0
      ensures Loads(n.inodes, n.views[i].dir) == Loads(m.inodes, m.views[0].dir)
    {
      assert ViewOk(n.inodes, n.renamed, Known(Loads(m.inodes, m.views[0].dir)), n.views[i]);
    }
  }

  /** Until a save is renamed over the state, a start reads what it read at first, exactly when no step costs that. */
  lemma {:induction false} ThePreviousIsKeptExactly(m: Machine, run: seq<Step>)
    requires OnDisk(m)
    ensures NoneCosts(m, run) <==> forall i :: 0 <= i <= |run| ==> KeepsFirst(m, After(m, run[..i]))
  {
    OnDiskInv(m);
    if NoneCosts(m, run) {
      forall i | 0 <= i <= |run| ensures KeepsFirst(m, After(m, run[..i])) {
        PrefixCosts(m, run, i);
        RunKeepsInv(m, Known(Loads(m.inodes, m.views[0].dir)), run[..i]);
        InvKeepsFirst(m, After(m, run[..i]));
      }
    } else {
      var i :| 0 <= i < |run| && Costs(After(m, run[..i]), run[i]);
      RunKeepsInv(m, Unknown, run[..i]);
      assert run[..i + 1][..i] == run[..i];
      if KeepsFirst(m, After(m, run[..i])) {
        CostIsSeen(m, After(m, run[..i]), run[i]);
      }
    }
  }

  lemma {:induction false} PrefixCosts(m: Machine, run: seq<Step>, i: nat)
    requires m.views != [] && i <= |run| && NoneCosts(m, run)
    ensures NoneCosts(m, run[..i])
  {
    forall j | 0 <= j < i ensures !Costs(After(m, run[..i][..j]), run[..i][j]) {
      assert run[..i][..j] == run[..j] && run[..i][j] == run[j];
    }
  }

  /** Of the renames a cut keeps, one is that of a save that returned. */
  lemma {:induction false} ReturnedIsKept(returned: set<nat>, renamed: seq<Rename>, kept: nat, save: nat) returns (mine: nat)
    requires ReturnedOk(returned, renamed, kept) && save in returned
    ensures mine < kept <= |renamed| && renamed[mine].save == save
  {
    assert RenamedBy(renamed[..kept], save);
    mine :| 0 <= mine < |renamed[..kept]| && renamed[..kept][mine].save == save;
  }

  lemma {:induction false} ReadsReturned(
    n: Machine, first: First, view: nat, after: seq<Inode>, save: nat) returns (mine: nat, read: nat)
    requires Views(n, first) && CutLeaves(n, view, after)
    requires ReturnedOk(n.returned, n.renamed, n.views[0].renames) && save in n.returned
    ensures mine < n.views[0].renames && mine <= read < |n.renamed| && n.renamed[mine].save == save
    ensures Loads(after, n.views[view].dir) == Some(n.renamed[read].state)
  {
    mine := ReturnedIsKept(n.returned, n.renamed, n.views[0].renames, save);
    CutInv(n, first, view, after);
    read := n.views[view].renames - 1;
  }

  /** After the cut a start reads a state that was renamed over no earlier than the save's own. */
  ghost predicate Survives(n: Machine, view: nat, after: seq<Inode>, save: nat)
    requires view < |n.views|
  {
    exists mine, read :: 0 <= mine <= read < |n.renamed| && n.renamed[mine].save == save
                         && Loads(after, n.views[view].dir) == Some(n.renamed[read].state)
  }

  /**
   * From any disk: a save that returned survives every later cut, so after a first save a start is never empty. The
   * path must have a directory part.
   */
  lemma {:induction false} ReturnedSavesSurvive(m: Machine, run: seq<Step>, view: nat, after: seq<Inode>, save: nat)
    requires OnDisk(m) && m.inDir && CutLeaves(After(m, run), view, after) && save in After(m, run).returned
    ensures Survives(After(m, run), view, after, save)
  {
    RunInv(m, run);
    var mine, read := ReadsReturned(After(m, run), Unknown, view, after, save);
  }

  lemma {:induction false} StepInDir(m: Machine, s: Step)
    requires m.views != []
    ensures Do(m, s).inDir == m.inDir
  {
  }

  lemma {:induction false} InDirStays(m: Machine, run: seq<Step>)
    requires m.views != []
    ensures After(m, run).inDir == m.inDir
  {
    if run != [] {
      InDirStays(m, run[..|run| - 1]);
      StepInDir(After(m, run[..|run| - 1]), run[|run| - 1]);
    }
  }

  // ------------------------------------------------------- which save is read

  /** The first `c` renames are on disk, and the saves numbered from `next` on are none of them. */
  ghost predicate Settled(m: Machine, kept: seq<Rename>, next: nat) {
    && m.views != [] && |kept| <= m.views[0].renames && kept <= m.renamed && next <= m.next
    && forall p :: 0 <= p < |kept| ==> kept[p].save < next
  }

  lemma {:induction false} StepSettled(m: Machine, first: First, s: Step, kept: seq<Rename>, next: nat)
    requires Inv(m, first) && Settled(m, kept, next)
    ensures Settled(Do(m, s), kept, next)
  {
    if s.Restart? {
      if CutLeaves(m, s.view, s.after) {
        assert InOrder(m.views[0], m.views[s.view]);
        assert ViewOk(m.inodes, m.renamed, first, m.views[s.view]);
      }
    } else if s.SyncDir? {
      assert InOrder(m.views[0], m.views[|m.views| - 1]);
    } else {
      KeepsFirstView(m, s);
    }
  }

  lemma {:induction false} KeepsFirstView(m: Machine, s: Step)
    requires m.views != [] && !s.Restart? && !s.SyncDir?
    ensures var n := Do(m, s); n.views[0] == m.views[0] && m.renamed <= n.renamed && m.next <= n.next
  {
  }

  lemma {:induction false} StaysSettled(m: Machine, first: First, run: seq<Step>, kept: seq<Rename>, next: nat)
    requires Inv(m, first) && (first.Known? ==> NoneCosts(m, run)) && Settled(m, kept, next)
    ensures Settled(After(m, run), kept, next)
  {
    if run != [] {
      var front := run[..|run| - 1];
      if first.Known? { FrontCosts(m, run); }
      RunKeepsInv(m, first, front);
      StaysSettled(m, first, front, kept, next);
      StepSettled(After(m, front), first, run[|run| - 1], kept, next);
    }
  }

  /** Only saves that began are among the renames. */
  predicate Numbered(m: Machine) {
    (forall p :: 0 <= p < |m.renamed| ==> m.renamed[p].save < m.next) && forall k :: k in m.saves ==> k < m.next
  }

  lemma {:induction false} StepNumbered(m: Machine, s: Step)
    requires m.views != [] && Numbered(m)
    ensures Numbered(Do(m, s))
  {
  }

  lemma {:induction false} RunNumbered(m: Machine, run: seq<Step>)
    requires m.views != [] && Numbered(m)
    ensures Numbered(After(m, run))
  {
    if run != [] {
      RunNumbered(m, run[..|run| - 1]);
      StepNumbered(After(m, run[..|run| - 1]), run[|run| - 1]);
    }
  }

  /**
   * A state whose save returned before another one began is not read again once that other one returned: `read`, the
   * rename a start finds, comes after `old`.
   */
  lemma {:induction false} NoSupersededState(
    m: Machine, run0: seq<Step>, run1: seq<Step>, view: nat, after: seq<Inode>, older: nat, newer: nat)
    returns (old0: nat, read: nat)
    requires OnDisk(m) && m.inDir
    requires older in After(m, run0).returned && newer >= After(m, run0).next
    requires var n := After(After(m, run0), run1); CutLeaves(n, view, after) && newer in n.returned
    ensures var n := After(After(m, run0), run1);
            && old0 < read < |n.renamed| && n.renamed[old0].save == older
            && Loads(after, n.views[view].dir) == Some(n.renamed[read].state)
  {
    RunInv(m, run0);
    RunNumbered(m, run0);
    old0, read := NextSupersedes(After(m, run0), run1, view, after, older, newer);
  }

  lemma {:induction false} NextSupersedes(
    m0: Machine, run: seq<Step>, view: nat, after: seq<Inode>, older: nat, newer: nat)
    returns (old0: nat, read: nat)
    requires Inv(m0, Unknown) && Numbered(m0) && m0.inDir
    requires older in m0.returned && newer >= m0.next
    requires var n := After(m0, run); CutLeaves(n, view, after) && newer in n.returned
    ensures var n := After(m0, run);
            && old0 < read < |n.renamed| && n.renamed[old0].save == older
            && Loads(after, n.views[view].dir) == Some(n.renamed[read].state)
  {
    var n := After(m0, run);
    var kept: seq<Rename>;
    old0, kept := KeptOf(m0, Unknown, older);
    RunKeepsInv(m0, Unknown, run);
    InDirStays(m0, run);
    StaysSettled(m0, Unknown, run, kept, m0.next);
    assert n.renamed[old0] == kept[old0];
    var mine: nat;
    mine, read := ReadsReturned(n, Unknown, view, after, newer);
    assert forall p :: 0 <= p < |kept| ==> kept[p] == n.renamed[p];
  }

  lemma {:induction false} KeptOf(m0: Machine, first: First, older: nat) returns (old0: nat, kept: seq<Rename>)
    requires Inv(m0, first) && Numbered(m0) && m0.inDir && older in m0.returned
    ensures old0 < |kept| && kept[old0].save == older && Settled(m0, kept, m0.next)
  {
    old0 := ReturnedIsKept(m0.returned, m0.renamed, m0.views[0].renames, older);
    kept := m0.renamed[..m0.views[0].renames];
  }

  // ----------------------------------------------------------- whole saves

  lemma {:induction false} AfterSnoc(m: Machine, run: seq<Step>, s: Step)
    requires m.views != []
    ensures After(m, run + [s]) == Do(After(m, run), s)
  {
    assert (run + [s])[..|run|] == run;
  }

  /** A save in a slot has made its file and synced it. */
  function FileMade(m: Machine, slot: nat, state: int): Machine
    requires m.views != []
  {
    m.(views := m.views + [Memory(m).(dir := Memory(m).dir[Tmp(slot) := |m.inodes|])], inodes := m.inodes + [Inode(Full(state), true)],
       saves := map[m.next := Save(slot, state, Synced)], next := m.next + 1)
  }

  function MakeFile(k: nat, slot: nat, state: int): seq<Step> {
    [Begin(slot, state), Create(k), Write(k), SyncFile(k)]
  }

  lemma {:induction false} BeginCreate(m: Machine, slot: nat, state: int)
    requires m.views != [] && m.saves == map[] && Tmp(slot) !in Memory(m).dir
    ensures Do(Do(m, Begin(slot, state)), Create(m.next))
            == FileMade(m, slot, state).(inodes := m.inodes + [Inode(Torn, false)], saves := map[m.next := Save(slot, state, Created)])
  {
    assert Do(m, Begin(slot, state)) == m.(saves := map[m.next := Save(slot, state, Begun)], next := m.next + 1);
  }

  lemma {:induction false} WriteSync(m: Machine, n: Machine, slot: nat, state: int)
    requires m.views != []
    requires n == FileMade(m, slot, state).(inodes := m.inodes + [Inode(Torn, false)], saves := map[m.next := Save(slot, state, Created)])
    ensures Do(Do(n, Write(m.next)), SyncFile(m.next)) == FileMade(m, slot, state)
  {
    assert TmpInode(n, slot) == Some(|m.inodes|);
    var w := Do(n, Write(m.next));
    assert w.inodes == m.inodes + [Inode(Full(state), false)];
  }

  lemma {:induction false} TwoSteps(m: Machine, run: seq<Step>, a: Step, b: Step)
    requires m.views != []
    ensures After(m, run + [a, b]) == Do(Do(After(m, run), a), b)
  {
    assert run + [a, b] == run + [a] + [b];
    AfterSnoc(m, run, a);
    AfterSnoc(m, run + [a], b);
  }

  lemma {:induction false} MakesFile(m: Machine, slot: nat, state: int)
    requires m.views != [] && m.saves == map[] && Tmp(slot) !in Memory(m).dir
    ensures After(m, MakeFile(m.next, slot, state)) == FileMade(m, slot, state)
  {
    var k := m.next;
    FourSteps(m, Begin(slot, state), Create(k), Write(k), SyncFile(k));
    BeginCreate(m, slot, state);
    WriteSync(m, Do(Do(m, Begin(slot, state)), Create(k)), slot, state);
  }

  lemma {:induction false} FourSteps(m: Machine, a: Step, b: Step, c: Step, d: Step)
    requires m.views != []
    ensures After(m, [a, b, c, d]) == Do(Do(Do(Do(m, a), b), c), d)
  {
    TwoSteps(m, [], a, b);
    TwoSteps(m, [] + [a, b], c, d);
    assert [] + [a, b] + [c, d] == [a, b, c, d];
  }

  /** Some slot is not in use under any temporary name. */
  lemma {:induction false} SlotBound(names: set<Name>) returns (bound: nat)
    ensures forall n :: n in names && (n.Tmp? || n.PrevTmp?) ==> n.slot < bound
  {
    bound := 0;
    if names != {} {
      var n :| n in names;
      bound := SlotBound(names - {n});
      if (n.Tmp? || n.PrevTmp?) && n.slot >= bound { bound := n.slot + 1; }
    }
  }

  lemma {:induction false} FreeSlot(m: Machine) returns (slot: nat)
    requires m.views != []
    ensures Tmp(slot) !in Memory(m).dir && PrevTmp(slot) !in Memory(m).dir
  {
    slot := SlotBound(Memory(m).dir.Keys);
  }

  // ------------------------------------------- when a returned save survives

  function BareSave(k: nat, slot: nat, state: int): seq<Step> {
    MakeFile(k, slot, state) + [LinkPrev(k, false), Publish(k)] + [SyncDir(k)]
  }

  lemma {:induction false} BareSaveEnds(m: Machine, slot: nat, state: int)
    requires m.views != [] && !m.inDir && m.renamed == []
    ensures var k := m.next;
            var n := Do(Do(Do(FileMade(m, slot, state), LinkPrev(k, false)), Publish(k)), SyncDir(k));
            n.views[0] == m.views[0] && n.inodes == m.inodes + [Inode(Full(state), true)] && k in n.returned
            && n.renamed == [Rename(k, state)] && |n.views| > 0
  {
    var k, f := m.next, FileMade(m, slot, state);
    var l := Do(f, LinkPrev(k, false));
    assert l == f.(saves := map[k := Save(slot, state, Ready)]);
    var p := Do(l, Publish(k));
    assert At(p, k, Published) && !p.inDir && p.renamed == [Rename(k, state)];
  }

  lemma {:induction false} BareSaveIs(m: Machine, slot: nat, state: int)
    requires m.views != [] && m.saves == map[] && Tmp(slot) !in Memory(m).dir
    ensures var k := m.next;
            After(m, BareSave(k, slot, state)) == Do(Do(Do(FileMade(m, slot, state), LinkPrev(k, false)), Publish(k)), SyncDir(k))
  {
    var k, make := m.next, MakeFile(m.next, slot, state);
    MakesFile(m, slot, state);
    TwoSteps(m, make, LinkPrev(k, false), Publish(k));
    AfterSnoc(m, make + [LinkPrev(k, false), Publish(k)], SyncDir(k));
  }

  /** Without a directory part nothing syncs the directory: from every such disk a save that returned can be gone. */
  lemma {:induction false} ABareNameCanLoseASave(m: Machine) returns (run: seq<Step>)
    requires OnDisk(m) && !m.inDir
    ensures var n := After(m, run);
            m.next in n.returned && CutLeaves(n, 0, n.inodes) && !Survives(n, 0, n.inodes, m.next)
  {
    var was := Loads(m.inodes, m.views[0].dir);
    var state := if was == Some(7) then 8 else 7;
    var slot := FreeSlot(m);
    run := BareSave(m.next, slot, state);
    BareSaveIs(m, slot, state);
    BareSaveEnds(m, slot, state);
    var n := After(m, run);
    assert Loads(n.inodes, m.views[0].dir) == was by { WiderReads(m.inodes, Inode(Full(state), true), m.views[0].dir); }
  }

  lemma {:induction false} WiderReads(inodes: seq<Inode>, inode: Inode, dir: map<Name, nat>)
    requires SyncedNames(inodes, dir)
    ensures Loads(inodes + [inode], dir) == Loads(inodes, dir)
  {
  }

  ghost predicate AllSurvive(m: Machine)
    requires m.views != []
  {
    forall run, view, after, save ::
      CutLeaves(After(m, run), view, after) && save in After(m, run).returned ==> Survives(After(m, run), view, after, save)
  }

  /** A save that returned survives every cut of every run exactly when the path has a directory part. */
  lemma {:induction false} ReturnedSavesSurviveExactly(m: Machine)
    requires OnDisk(m)
    ensures AllSurvive(m) <==> m.inDir
  {
    if m.inDir {
      forall run, view, after, save | CutLeaves(After(m, run), view, after) && save in After(m, run).returned
        ensures Survives(After(m, run), view, after, save)
      {
        ReturnedSavesSurvive(m, run, view, after, save);
      }
    } else {
      var run := ABareNameCanLoseASave(m);
      var n := After(m, run);
      assert CutLeaves(n, 0, n.inodes) && m.next in n.returned && !Survives(n, 0, n.inodes, m.next);
    }
  }

  // --------------------------------------------- when a bad state costs more

  /** A file that does not parse is set aside at each start. */
  predicate SetsAside(run: seq<Step>) {
    forall i :: 0 <= i < |run| && (run[i].Restart? || run[i].Reopen?) ==> run[i].moved
  }

  predicate ParsesOrNone(m: Machine)
    requires m.views != []
  {
    !HasBadState(m.inodes, Memory(m).dir)
  }

  /** A state in memory that parses is followed by others that do. */
  lemma {:induction false} StepParses(m: Machine, first: First, s: Step)
    requires Inv(m, first) && ParsesOrNone(m) && (s.Restart? || s.Reopen? ==> s.moved)
    ensures ParsesOrNone(Do(m, s))
  {
    if s.Publish? {
      PublishParses(m, s);
    } else if s.RenamePrev? || s.LinkPrev? || s.Abort? {
      KeepsState(m, s);
    } else if s.Create? || s.Write? || s.SyncFile? {
      LastView(m.views, m.inodes, m.renamed, first);
      FileKeepsState(m, s);
    } else if s.Restart? || s.Reopen? {
      StartParses(m, s);
    }
  }

  lemma {:induction false} StartParses(m: Machine, s: Step)
    requires m.views != [] && ParsesOrNone(m) && (s.Restart? || s.Reopen?) && s.moved
    ensures ParsesOrNone(Do(m, s))
  {
  }

  lemma {:induction false} PublishParses(m: Machine, s: Step)
    requires m.views != [] && Saves(m) && ParsesOrNone(m) && s.Publish?
    ensures ParsesOrNone(Do(m, s))
  {
    if At(m, s.save, Ready) { assert SaveOk(m.inodes, Memory(m).dir, m.saves[s.save]); }
  }

  lemma {:induction false} KeepsState(m: Machine, s: Step)
    requires m.views != [] && ParsesOrNone(m) && (s.RenamePrev? || s.LinkPrev? || s.Abort?)
    ensures ParsesOrNone(Do(m, s))
  {
  }

  lemma {:induction false} FileKeepsState(m: Machine, s: Step)
    requires m.views != [] && ParsesOrNone(m) && (s.Create? || s.Write? || s.SyncFile?)
    requires SyncedNames(m.inodes, Memory(m).dir) && Private(Memory(m).dir, Memory(m).dir)
    ensures ParsesOrNone(Do(m, s))
  {
  }

  lemma {:induction false} ParsingCostsNothing(m: Machine, first: First, run: seq<Step>)
    requires Inv(m, first) && first.Known? && SetsAside(run) && (ParsesOrNone(m) || first.state.None?)
    ensures Inv(After(m, run), first)
    ensures ParsesOrNone(m) ==> ParsesOrNone(After(m, run))
  {
    if run != [] {
      var front, s := run[..|run| - 1], run[|run| - 1];
      assert forall i :: 0 <= i < |front| ==> front[i] == run[i];
      ParsingCostsNothing(m, first, front);
      NothingToCost(After(m, front), first, s);
      StepKeepsInv(After(m, front), first, s);
      if ParsesOrNone(m) { StepParses(After(m, front), first, s); }
    }
  }

  /** No view a cut may leave has a state that does not parse. */
  predicate AllParse(views: seq<View>, inodes: seq<Inode>) {
    forall i :: 0 <= i < |views| ==> !HasBadState(inodes, views[i].dir)
  }

  lemma {:induction false} FilesParse(m: Machine, first: First, s: Step, i: nat)
    requires Views(m, first) && AllParse(m.views, m.inodes) && (s.Create? || s.Write? || s.SyncFile?) && i < |m.views|
    ensures !HasBadState(Do(m, s).inodes, m.views[i].dir)
  {
    assert InOrder(m.views[i], m.views[|m.views| - 1]);
    assert ViewOk(m.inodes, m.renamed, first, m.views[i]);
  }

  lemma {:induction false} CutParses(m: Machine, first: First, s: Step)
    requires Views(m, first) && AllParse(m.views, m.inodes) && (s.Restart? || s.Reopen?)
    ensures AllParse(Do(m, s).views, Do(m, s).inodes)
  {
    if s.Restart? && CutLeaves(m, s.view, s.after) {
      assert ViewOk(m.inodes, m.renamed, first, m.views[s.view]);
      CutReads(m.inodes, s.after, m.views[s.view].dir);
    }
  }

  lemma {:induction false} OtherViews(m: Machine, s: Step)
    requires m.views != [] && !s.Restart? && !s.Reopen?
    ensures var n := Do(m, s);
            && (n.views == m.views || n.views == [Memory(m)] || (|n.views| == |m.views| + 1 && n.views[..|m.views|] == m.views))
            && (!s.Create? && !s.Write? && !s.SyncFile? ==> n.inodes == m.inodes)
  {
  }

  lemma {:induction false} StepAllParses(m: Machine, first: First, s: Step)
    requires Inv(m, first) && AllParse(m.views, m.inodes)
    ensures AllParse(Do(m, s).views, Do(m, s).inodes)
  {
    if s.Restart? || s.Reopen? {
      CutParses(m, first, s);
    } else {
      var n := Do(m, s);
      OtherViews(m, s);
      StepParses(m, first, s);
      forall i | 0 <= i < |n.views| ensures !HasBadState(n.inodes, n.views[i].dir) {
        if i < |n.views| - 1 {
          assert n.views[i] == n.views[..|m.views|][i] == m.views[i];
          if s.Create? || s.Write? || s.SyncFile? { FilesParse(m, first, s, i); }
        }
      }
    }
  }

  /** Where the state parsed or was absent at first, or there was nothing to lose, no start has to set anything aside. */
  lemma {:induction false} NothingBadCostsNothing(m: Machine, first: First, run: seq<Step>)
    requires Inv(m, first) && first.Known? && (AllParse(m.views, m.inodes) || first.state.None?)
    ensures Inv(After(m, run), first)
    ensures AllParse(m.views, m.inodes) ==> AllParse(After(m, run).views, After(m, run).inodes)
  {
    if run != [] {
      var front, s := run[..|run| - 1], run[|run| - 1];
      NothingBadCostsNothing(m, first, front);
      NothingToCost(After(m, front), first, s);
      StepKeepsInv(After(m, front), first, s);
      if AllParse(m.views, m.inodes) { StepAllParses(After(m, front), first, s); }
    }
  }

  lemma {:induction false} NothingToCost(m: Machine, first: First, s: Step)
    requires Inv(m, first) && first.Known? && (ParsesOrNone(m) || first.state.None?)
    ensures !Costs(m, s)
  {
    LastView(m.views, m.inodes, m.renamed, first);
  }

  /** The machine once a first start has read the disk, and set a state that does not parse aside or failed to. */
  function FirstStart(m: Machine, stamp: int, moved: bool): Machine
    requires m.views != []
  {
    Do(m, Restart(0, m.inodes, stamp, moved))
  }

  lemma {:induction false} StartedInv(m: Machine, stamp: int, moved: bool)
    requires OnDisk(m)
    ensures Inv(FirstStart(m, stamp, moved), Known(Loads(m.inodes, m.views[0].dir)))
    ensures moved || !HasBadState(m.inodes, m.views[0].dir) ==> ParsesOrNone(FirstStart(m, stamp, moved))
    ensures !HasBadState(m.inodes, m.views[0].dir) ==> AllParse(FirstStart(m, stamp, moved).views, m.inodes)
    ensures FirstStart(m, stamp, moved).inodes == m.inodes
    ensures !moved ==> FirstStart(m, stamp, moved) == m
  {
    OnDiskInv(m);
    StepKeepsInv(m, Known(Loads(m.inodes, m.views[0].dir)), Restart(0, m.inodes, stamp, moved));
    assert m.renamed[..0] == [] && [m.views[0]] == m.views;
  }

  function StuckSave(k: nat, slot: nat, state: int): seq<Step> {
    MakeFile(k, slot, state) + [LinkPrev(k, true), RenamePrev(k, true)]
  }

  lemma {:induction false} StuckLinks(m: Machine, slot: nat, state: int)
    requires m.views != [] && Current in Memory(m).dir && PrevTmp(slot) !in Memory(m).dir
    ensures var n, dir := Do(FileMade(m, slot, state), LinkPrev(m.next, true)), Memory(m).dir;
            && At(n, m.next, Linked) && n.saves[m.next].slot == slot && n.inodes == m.inodes + [Inode(Full(state), true)]
            && Memory(n) == Memory(m).(dir := dir[Tmp(slot) := |m.inodes|][PrevTmp(slot) := dir[Current]])
  {
  }

  lemma {:induction false} StuckLoads(m: Machine, slot: nat, state: int)
    requires m.views != [] && SyncedNames(m.inodes, Memory(m).dir) && OverGood(m.inodes, Memory(m).dir)
    requires Tmp(slot) !in Memory(m).dir && PrevTmp(slot) !in Memory(m).dir
    ensures var dir := Memory(m).dir[Tmp(slot) := |m.inodes|][PrevTmp(slot) := Memory(m).dir[Current]];
            Loads(m.inodes + [Inode(Full(state), true)], Moved(dir, PrevTmp(slot), Prev)) == None
  {
    var dir := Memory(m).dir[Tmp(slot) := |m.inodes|][PrevTmp(slot) := Memory(m).dir[Current]];
    var inodes := m.inodes + [Inode(Full(state), true)];
    assert LinkOk(inodes, dir, slot) && OverGood(inodes, dir);
    RenamedLoads(inodes, dir, slot);
  }

  lemma {:induction false} StuckSaveIs(m: Machine, slot: nat, state: int)
    requires m.views != [] && m.saves == map[] && Tmp(slot) !in Memory(m).dir
    ensures After(m, StuckSave(m.next, slot, state))
            == Do(Do(FileMade(m, slot, state), LinkPrev(m.next, true)), RenamePrev(m.next, true))
  {
    MakesFile(m, slot, state);
    TwoSteps(m, MakeFile(m.next, slot, state), LinkPrev(m.next, true), RenamePrev(m.next, true));
  }

  /**
   * Where a bad state cannot be set aside and there is a good previous copy, the next save links the one over the other
   * before its own rename: a cut between the two leaves nothing that parses.
   */
  lemma {:induction false} AStuckBadStateCostsThePrevious(m: Machine) returns (run: seq<Step>)
    requires OnDisk(m) && OverGood(m.inodes, m.views[0].dir)
    ensures SetsAside(run)
    ensures var n := After(m, run); Memory(n).renames == 0 && Loads(n.inodes, Memory(n).dir) == None
  {
    var slot := FreeSlot(m);
    run := StuckSave(m.next, slot, 6);
    StuckSaveIs(m, slot, 6);
    StuckLinks(m, slot, 6);
    StuckLoads(m, slot, 6);
  }

  /** No run from the machine comes to a cut that keeps no rename and reads something else than the first start. */
  ghost predicate NeverCosts(m: Machine, started: Machine)
    requires started.views != []
  {
    forall run :: KeepsFirst(m, After(started, run))
  }

  /** Nor does one in which every later start sets a bad state aside. */
  ghost predicate NeverCostsSettingAside(m: Machine, started: Machine)
    requires started.views != []
  {
    forall run :: SetsAside(run) ==> KeepsFirst(m, After(started, run))
  }

  lemma {:induction false} StuckBreaks(m: Machine)
    requires OnDisk(m) && OverGood(m.inodes, m.views[0].dir)
    ensures !NeverCosts(m, m) && !NeverCostsSettingAside(m, m)
  {
    var run := AStuckBadStateCostsThePrevious(m);
    var n := After(m, run);
    assert n.views[|n.views| - 1].renames == 0;
    assert !KeepsFirst(m, n);
  }

  /** A cut undoes a set-aside, which nothing syncs, and the next start cannot repeat it. */
  lemma {:induction false} ACutUndoesASetAside(m: Machine, stamp: int, moved: bool)
    requires OnDisk(m)
    ensures Do(FirstStart(m, stamp, moved), Restart(0, m.inodes, stamp, false)) == m
  {
    assert m.renamed[..0] == [] && [m.views[0]] == m.views;
  }

  lemma {:induction false} UndoneBreaks(m: Machine, stamp: int, moved: bool)
    requires OnDisk(m) && OverGood(m.inodes, m.views[0].dir)
    ensures !NeverCosts(m, FirstStart(m, stamp, moved))
  {
    StuckBreaks(m);
    ACutUndoesASetAside(m, stamp, moved);
    var started, undo := FirstStart(m, stamp, moved), [Restart(0, m.inodes, stamp, false)];
    var run :| !KeepsFirst(m, After(m, run));
    assert After(started, undo) == m by {
      assert undo[..0] == [];
      assert After(started, undo[..0]) == started;
    }
    AfterConcat(started, undo, run);
    assert !KeepsFirst(m, After(started, undo + run));
  }

  lemma {:induction false} AfterConcat(m: Machine, a: seq<Step>, b: seq<Step>)
    requires m.views != []
    ensures After(m, a + b) == After(After(m, a), b)
  {
    if b == [] {
      assert a + b == a;
    } else {
      AfterConcat(m, a, b[..|b| - 1]);
      assert (a + b)[..|a + b| - 1] == a + b[..|b| - 1];
    }
  }

  /**
   * A first start is safe, whatever its set-aside came to and whatever runs after it, exactly when it read a state that
   * parses or none, or there was no good previous copy to lose: then, until a save is renamed over the state, every
   * later start reads what this one did.
   */
  lemma {:induction false} AFirstStartIsSafeExactly(m: Machine, stamp: int, moved: bool)
    requires OnDisk(m)
    ensures NeverCosts(m, FirstStart(m, stamp, moved)) <==> !OverGood(m.inodes, m.views[0].dir)
  {
    if OverGood(m.inodes, m.views[0].dir) {
      UndoneBreaks(m, stamp, moved);
    } else {
      var first, started := Loads(m.inodes, m.views[0].dir), FirstStart(m, stamp, moved);
      StartedInv(m, stamp, moved);
      forall run ensures KeepsFirst(m, After(started, run)) {
        NothingBadCostsNothing(started, Known(first), run);
        InvKeepsFirst(m, After(started, run));
      }
    }
  }

  /**
   * Where every later start sets a bad state aside, a first start is safe exactly when it did so too or there was no good
   * previous copy to lose.
   */
  lemma {:induction false} AStartIsSafeExactly(m: Machine, stamp: int, moved: bool)
    requires OnDisk(m)
    ensures NeverCostsSettingAside(m, FirstStart(m, stamp, moved)) <==> moved || !OverGood(m.inodes, m.views[0].dir)
  {
    var first := Loads(m.inodes, m.views[0].dir);
    var started := FirstStart(m, stamp, moved);
    StartedInv(m, stamp, moved);
    if moved || !OverGood(m.inodes, m.views[0].dir) {
      forall run | SetsAside(run) ensures KeepsFirst(m, After(started, run)) {
        ParsingCostsNothing(started, Known(first), run);
        InvKeepsFirst(m, After(started, run));
      }
    } else {
      StuckBreaks(m);
    }
  }

  // -------------------------------------------------------------- recovering

  predicate OnlyStarts(run: seq<Step>) {
    forall i :: 0 <= i < |run| ==> run[i].Restart? || run[i].Reopen?
  }

  predicate NoRename(m: Machine) {
    forall i :: 0 <= i < |m.views| ==> m.views[i].renames == 0
  }

  lemma {:induction false} StartRenamesNothing(m: Machine, s: Step)
    requires m.views != [] && NoRename(m) && (s.Restart? || s.Reopen?)
    ensures NoRename(Do(m, s))
  {
  }

  lemma {:induction false} StartsRenameNothing(m: Machine, run: seq<Step>)
    requires m.views != [] && NoRename(m) && OnlyStarts(run)
    ensures NoRename(After(m, run))
  {
    if run != [] {
      StartsRenameNothing(m, run[..|run| - 1]);
      StartRenamesNothing(After(m, run[..|run| - 1]), run[|run| - 1]);
    }
  }

  /**
   * Starts may follow each other with cuts in between, whether they set a bad state aside or fail to and whatever of that
   * a cut keeps: each reads what the first did.
   */
  lemma {:induction false} RecoveryRepeats(m: Machine, run: seq<Step>, view: nat, after: seq<Inode>)
    requires OnDisk(m) && OnlyStarts(run) && CutLeaves(After(m, run), view, after)
    ensures Loads(after, After(m, run).views[view].dir) == Loads(m.inodes, m.views[0].dir)
  {
    StartsRenameNothing(m, run);
    assert NoneCosts(m, run);
    EveryCutLeavesAState(m, run, view, after);
  }
}
