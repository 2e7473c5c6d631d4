/** The record of a distributed volume (src/model.rs, `DistVolume` and what it holds). Times are milliseconds. */
module Volumes {
  import opened Wrappers

  datatype LegState = Created | Failed | Lost

  /** `uri` is the drive URI of its export, `member` its member of the head's array. */
  datatype Leg = Leg(
    node: string, volumeId: Option<string>, state: LegState, message: Option<string>,
    uri: Option<string>, member: Option<string>, epoch: Option<nat>)

  datatype Assembly = SingleLeg | Pending | Assembled | Degraded | Clone

  /** A leg being replaced: `leg` is the new one, rebuilding, and the one on `from` leaves when that is done. */
  datatype Replacement = Replacement(from: string, leg: Leg)

  /** A dual-attach window; `epoch` is the volume's when it was last opened. */
  datatype Window = Window(target: string, epoch: nat, openedAt: int, expiresAt: int)

  datatype Volume = Volume(
    name: string, legs: seq<Leg>, assembly: Assembly, head: Option<string>, arrayId: Option<string>,
    replacing: Option<Replacement>, nextReleg: Option<int>, nextAssemble: Option<int>,
    epoch: nat, fenced: bool, window: Option<Window>)

  /** Legs mirrored by an array on the head. */
  predicate Mirrored(v: Volume) {
    v.assembly == Assembled || v.assembly == Degraded
  }

  predicate Due(t: Option<int>, now: int) {
    t.None? || t.value <= now
  }
}
