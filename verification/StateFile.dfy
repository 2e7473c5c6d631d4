/**
  The state file (src/model.rs, `FedState::save` and `load_state`): ordered file-system steps, concurrent saves, and a
  power cut between any two steps. The directory reaches the disk in order, so a cut leaves some earlier view of it;
  a file that was not synced is then anything.
*/
module StateFile {
  import opened Wrappers

  /** The state, its previous copy, the temporary names of a save, and a bad state set aside. */
  datatype Name = Current | Prev | Tmp(slot: nat) | PrevTmp(slot: nat) | Bad(stamp: int)

  /** A state that parses, or bytes that do not. */
  datatype Data = Full(state: int) | Torn

  datatype Inode = Inode(data: Data, synced: bool)

  /** The directory at some moment, and how many renames over the state it has seen. */
  datatype View = View(dir: map<Name, nat>, renames: nat)

  datatype Stage = Begun | Created | Written | Synced | Linked | Ready | Published

  datatype Save = Save(slot: nat, state: int, stage: Stage)

  datatype Rename = Rename(save: nat, state: int)

  /**
   * `views` are what a cut may leave of the directory, the oldest on disk and the last in memory; `saves` the running
   * ones by number, `renamed` those that replaced the state, in order, and `returned` those that reported success.
   * `inDir` is false for a path without a directory part, which no save syncs.
   */
  datatype Machine = Machine(
    views: seq<View>, inodes: seq<Inode>, saves: map<nat, Save>, next: nat, renamed: seq<Rename>, returned: set<nat>,
    inDir: bool)

  function Memory(m: Machine): View
    requires m.views != []
  {
    m.views[|m.views| - 1]
  }

  function Read(inodes: seq<Inode>, dir: map<Name, nat>, name: Name): Option<Data> {
    if name in dir && dir[name] < |inodes| then Some(inodes[dir[name]].data) else None
  }

  /** What a start reads: the state, else its previous copy, else an empty one (None). */
  function Loads(inodes: seq<Inode>, dir: map<Name, nat>): Option<int> {
    match Read(inodes, dir, Current)
    case Some(Full(s)) => Some(s)
    case _ =>
      match Read(inodes, dir, Prev)
      case Some(Full(s)) => Some(s)
      case _ => None
  }

  datatype Step =
    | Begin(slot: nat, state: int)
    | Create(save: nat)
    | Write(save: nat)
    | SyncFile(save: nat)
    | LinkPrev(save: nat, ok: bool)
    | RenamePrev(save: nat, ok: bool)
    | Publish(save: nat)
    | SyncDir(save: nat)
    | Abort(save: nat, tidy: bool)
    | Restart(view: nat, after: seq<Inode>, stamp: int, moved: bool)
    | Reopen(stamp: int, moved: bool)

  predicate At(m: Machine, save: nat, stage: Stage) {
    save in m.saves && m.saves[save].stage == stage
  }

  function Staged(m: Machine, save: nat, stage: Stage): Machine
    requires save in m.saves
  {
    m.(saves := m.saves[save := m.saves[save].(stage := stage)])
  }

  /** The directory changes in memory. */
  function Changed(m: Machine, dir: map<Name, nat>): Machine
    requires m.views != []
  {
    m.(views := m.views + [Memory(m).(dir := dir)])
  }

  function TmpInode(m: Machine, slot: nat): Option<nat>
    requires m.views != []
  {
    if Tmp(slot) in Memory(m).dir && Memory(m).dir[Tmp(slot)] < |m.inodes| then Some(Memory(m).dir[Tmp(slot)]) else None
  }

  /** A rename of one of two links to the same file does nothing. */
  function Moved(dir: map<Name, nat>, a: Name, b: Name): map<Name, nat>
    requires a in dir
  {
    if b in dir && dir[a] == dir[b] then dir else (dir - {a})[b := dir[a]]
  }

  /** A start after a cut: an earlier view, files that were synced as they were, no save running. */
  predicate CutLeaves(m: Machine, view: nat, after: seq<Inode>) {
    && view < |m.views| && |after| == |m.inodes|
    && forall i :: 0 <= i < |after| && m.inodes[i].synced ==> after[i] == m.inodes[i]
  }

  predicate HasBadState(inodes: seq<Inode>, dir: map<Name, nat>) {
    Read(inodes, dir, Current) == Some(Torn)
  }

  function SetAside(dir: map<Name, nat>, stamp: int): map<Name, nat>
    requires Current in dir
  {
    (dir - {Current})[Bad(stamp) := dir[Current]]
  }

  function AfterCut(m: Machine, view: nat, after: seq<Inode>, stamp: int, moved: bool): Machine
    requires CutLeaves(m, view, after)
  {
    var v := m.views[view];
    var n := m.(views := [v], inodes := after, saves := map[],
                renamed := if v.renames <= |m.renamed| then m.renamed[..v.renames] else m.renamed);
    if HasBadState(after, v.dir) && moved then Changed(n, SetAside(v.dir, stamp)) else n
  }

  /** A start of this process again, without a cut: the directory and the files are as they are in memory, at risk still. */
  function Reopened(m: Machine, stamp: int, moved: bool): Machine
    requires m.views != []
  {
    var n := m.(saves := map[]);
    if HasBadState(m.inodes, Memory(m).dir) && moved then Changed(n, SetAside(Memory(m).dir, stamp)) else n
  }

  function Do(m: Machine, s: Step): Machine
    requires m.views != []
    ensures Do(m, s).views != []
  {
    var dir := Memory(m).dir;
    match s
    case Begin(slot, state) =>
      if forall i :: i in m.saves ==> m.saves[i].slot != slot
      then m.(saves := m.saves[m.next := Save(slot, state, Begun)], next := m.next + 1) else m
    case Create(k) =>
      if !At(m, k, Begun) then m
      else
        var slot, i := m.saves[k].slot, TmpInode(m, m.saves[k].slot);
        if i.Some? then Staged(m, k, Created).(inodes := m.inodes[i.value := Inode(Torn, false)])
        else Changed(Staged(m, k, Created), dir[Tmp(slot) := |m.inodes|]).(inodes := m.inodes + [Inode(Torn, false)])
    case Write(k) =>
      if !At(m, k, Created) || TmpInode(m, m.saves[k].slot).None? then m
      else Staged(m, k, Written).(inodes := m.inodes[TmpInode(m, m.saves[k].slot).value := Inode(Full(m.saves[k].state), false)])
    case SyncFile(k) =>
      if !At(m, k, Written) || TmpInode(m, m.saves[k].slot).None? then m
      else
        var i := TmpInode(m, m.saves[k].slot).value;
        Staged(m, k, Synced).(inodes := m.inodes[i := m.inodes[i].(synced := true)])
    case LinkPrev(k, ok) =>
      if !At(m, k, Synced) then m
      else
        var link := PrevTmp(m.saves[k].slot);
        if ok && Current in dir && link !in dir then Changed(Staged(m, k, Linked), dir[link := dir[Current]])
        else Staged(m, k, Ready)
    case RenamePrev(k, ok) =>
      if !At(m, k, Linked) || PrevTmp(m.saves[k].slot) !in dir then m
      else
        var link := PrevTmp(m.saves[k].slot);
        Changed(Staged(m, k, Ready), if ok then Moved(dir, link, Prev) else dir - {link})
    case Publish(k) =>
      if !At(m, k, Ready) || Tmp(m.saves[k].slot) !in dir then m
      else
        var n := Staged(m, k, Published);
        n.(views := m.views + [View(Moved(dir, Tmp(m.saves[k].slot), Current), Memory(m).renames + 1)],
           renamed := m.renamed + [Rename(k, m.saves[k].state)])
    case SyncDir(k) =>
      if !At(m, k, Published) then m
      else m.(views := if m.inDir then [Memory(m)] else m.views, saves := m.saves - {k}, returned := m.returned + {k})
    case Abort(k, tidy) =>
      if k !in m.saves then m
      else
        var n := m.(saves := m.saves - {k});
        if tidy && (At(m, k, Begun) || At(m, k, Created) || At(m, k, Written)) then Changed(n, dir - {Tmp(m.saves[k].slot)}) else n
    case Restart(view, after, stamp, moved) =>
      if CutLeaves(m, view, after) then AfterCut(m, view, after, stamp, moved) else m
    case Reopen(stamp, moved) => Reopened(m, stamp, moved)
  }

  predicate Starts(m: Machine, s: Step) {
    (s.Restart? && CutLeaves(m, s.view, s.after)) || s.Reopen?
  }

  /** The directory and the files that a start reads. */
  function SeenDir(m: Machine, s: Step): map<Name, nat>
    requires m.views != [] && Starts(m, s)
  {
    if s.Restart? then m.views[s.view].dir else Memory(m).dir
  }

  function SeenFiles(m: Machine, s: Step): seq<Inode>
    requires Starts(m, s)
  {
    if s.Restart? then s.after else m.inodes
  }

  function After(m: Machine, run: seq<Step>): Machine
    requires m.views != []
    ensures After(m, run).views != []
  {
    if run == [] then m else Do(After(m, run[..|run| - 1]), run[|run| - 1])
  }

  // ------------------------------------------------------------ the program

  /** The steps of a save numbered `k`, in order. */
  function SaveSteps(k: nat, slot: nat, state: int, linkOk: bool, prevOk: bool): (steps: seq<Step>)
    ensures |steps| == 8
  {
    [Begin(slot, state), Create(k), Write(k), SyncFile(k), LinkPrev(k, linkOk), RenamePrev(k, prevOk), Publish(k), SyncDir(k)]
  }

  /** The call of a save that errs and ends it, if any; the previous copy is best effort. */
  predicate Fatal(i: nat) {
    i == 1 || i == 2 || i == 3 || i == 6 || i == 7
  }

  /** What a save that ends at its `fails`-th call did: it removes a file it did not finish, and no other. */
  function SaveRun(k: nat, steps: seq<Step>, fails: nat): seq<Step> {
    if Fatal(fails) && fails < |steps| then steps[..fails] + [Abort(k, fails <= 3)] else steps
  }

  class StateDir {
    var m: Machine

    ghost predicate Valid()
      reads this
    {
      m.views != []
    }

    method Take(s: Step, ghost from: Machine, ghost run: seq<Step>)
      requires Valid() && from.views != [] && m == After(from, run)
      modifies this
      ensures Valid() && m == After(from, run + [s])
    {
      assert (run + [s])[..|run|] == run;
      m := Do(m, s);
    }

    /** The next step, or the way out when this call errs. */
    method TakeNext(k: nat, steps: seq<Step>, i: nat, fails: nat, ghost from: Machine) returns (ok: bool)
      requires Valid() && i < |steps| && from.views != [] && m == After(from, steps[..i])
      modifies this
      ensures Valid() && (ok <==> !(Fatal(i) && fails == i))
      ensures ok ==> m == After(from, steps[..i + 1])
      ensures !ok ==> m == After(from, SaveRun(k, steps, fails))
    {
      ok := !(Fatal(i) && fails == i);
      assert steps[..i + 1] == steps[..i] + [steps[i]];
      Take(if ok then steps[i] else Abort(k, i <= 3), from, steps[..i]);
    }

    /** The file is made, written and synced. */
    method WriteFile(k: nat, steps: seq<Step>, fails: nat, ghost from: Machine) returns (ok: bool)
      requires Valid() && |steps| == 8 && from.views != [] && m == After(from, steps[..1])
      modifies this
      ensures Valid() && (ok <==> !(1 <= fails <= 3))
      ensures ok ==> m == After(from, steps[..4])
      ensures !ok ==> m == After(from, SaveRun(k, steps, fails))
    {
      ok := TakeNext(k, steps, 1, fails, from);
      if !ok { return; }
      ok := TakeNext(k, steps, 2, fails, from);
      if !ok { return; }
      ok := TakeNext(k, steps, 3, fails, from);
    }

    /** The state is linked as the previous copy, then replaced, then the directory synced. */
    method Replace(k: nat, steps: seq<Step>, fails: nat, ghost from: Machine) returns (ok: bool)
      requires Valid() && |steps| == 8 && from.views != [] && m == After(from, steps[..4])
      modifies this
      ensures Valid() && (ok <==> fails != 6 && fails != 7)
      ensures ok ==> m == After(from, steps)
      ensures !ok ==> m == After(from, SaveRun(k, steps, fails))
    {
      assert steps[..8] == steps;
      ok := TakeNext(k, steps, 4, fails, from);
      ok := TakeNext(k, steps, 5, fails, from);
      ok := TakeNext(k, steps, 6, fails, from);
      if !ok { return; }
      ok := TakeNext(k, steps, 7, fails, from);
    }

    /** One save; a call that errs ends it. */
    method Save(slot: nat, state: int, linkOk: bool, prevOk: bool, fails: nat) returns (ok: bool)
      requires Valid()
      modifies this
      ensures Valid()
      ensures m == After(old(m), SaveRun(old(m).next, SaveSteps(old(m).next, slot, state, linkOk, prevOk), fails))
      ensures ok <==> !Fatal(fails)
    {
      ghost var from := m;
      var k := m.next;
      var steps := SaveSteps(k, slot, state, linkOk, prevOk);
      assert steps[..0] == [];
      ok := TakeNext(k, steps, 0, fails, from);
      ok := WriteFile(k, steps, fails, from);
      if !ok { return; }
      ok := Replace(k, steps, fails, from);
    }

    /** A start, after a cut or not: a state that does not parse is set aside for good, and the previous copy read. */
    method Load(start: Step) returns (state: Option<int>, recovered: bool)
      requires Valid() && Starts(m, start)
      modifies this
      ensures Valid() && m == Do(old(m), start)
      ensures state == Loads(SeenFiles(old(m), start), SeenDir(old(m), start))
      ensures recovered <==> HasBadState(SeenFiles(old(m), start), SeenDir(old(m), start))
    {
      var files, dir := SeenFiles(m, start), SeenDir(m, start);
      m := Do(m, start);
      recovered := false;
      match Read(files, dir, Current) {
        case Some(Full(s)) => return Some(s), false;
        case Some(Torn) => recovered := true;
        case None =>
      }
      match Read(files, dir, Prev) {
        case Some(Full(s)) => state := Some(s);
        case _ => state := None;
      }
    }
  }
}
