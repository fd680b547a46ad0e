/**
 * Arrays over whole runs: what stopping an array means for every later reassembly.
 * A reboot reassembles arrays from the superblocks, under any md names.
 */
module RaidRuns {
  import opened GoStrings
  import opened ProcFiles
  import opened Machines
  import opened Raid
  import opened EtcFiles

  datatype Op =
    | Create(md: string, level: string, devices: seq<string>, ok: bool)
    | AddDisk(md: string, disk: string, ok: bool)
    | RemoveDisk(md: string, disk: string, ok: bool)
    | MountVolume(md: string, fsType: string, mountPoint: string, ok: bool)
    | UnmountVolume(mountPoint: string, ok: bool)
    | WipeVolume(md: string, ok: bool)
    | WipeDisk(device: string, ok: bool)
    | Stop(md: string, ok: bool)
    | Reboot

  /** Each reassembled array is made of disks that carry its uuid (by Inv of the new world). */
  ghost predicate Reassembled(w: World, w': World) {
    && w'.disks == w.disks && w'.nextUuid == w.nextUuid
    && forall md :: md in w'.arrays ==> w'.arrays[md].members != {}
  }

  ghost predicate Step(op: Op, w: World, w': World, fileIO: bool) {
    && Inv(w) && Inv(w')
    && match op {
         case Create(md, level, devices, ok) => CreateSpec(w, w', md, level, devices, ok)
         case AddDisk(md, disk, ok) => AddSpec(w, w', md, disk, ok)
         case RemoveDisk(md, disk, ok) => RemoveSpec(w, w', md, disk, ok)
         case MountVolume(md, fs, mp, ok) => MountSpec(w, w', md, fs, mp, ok, fileIO)
         case UnmountVolume(mp, ok) => UnmountSpec(w, w', mp, ok, fileIO)
         case WipeVolume(md, ok) => WipeFsSpec(w, w', md, ok, fileIO)
         case WipeDisk(device, ok) => WipeDiskSpec(w, w', device, ok, fileIO)
         case Stop(md, ok) => StopSpec(w, w', md, ok) && StopFiles(w, w', md, fileIO)
         case Reboot => Reassembled(w, w')
       }
  }

  ghost predicate Run(ws: seq<World>, ops: seq<Op>, fileIO: bool) {
    |ws| == |ops| + 1 && forall i :: 0 <= i < |ops| ==> Step(ops[i], ws[i], ws[i + 1], fileIO)
  }

  predicate AddsTo(op: Op, w: World, disk: string, uuid: nat) {
    op.AddDisk? && op.ok && op.disk == disk && op.md in w.arrays && w.arrays[op.md].uuid == uuid
  }

  /** No disk and no array knows the uuid any more. */
  ghost predicate Extinct(w: World, uuid: nat) {
    && uuid < w.nextUuid
    && (forall d :: !Carries(w, d, uuid))
    && (forall md :: md in w.arrays ==> w.arrays[md].uuid != uuid)
  }

  /** A used uuid gets onto a disk only by adding the disk to the array that has it. */
  lemma {:induction false} NewCarrier(op: Op, w: World, w': World, fileIO: bool, disk: string, uuid: nat)
    requires Step(op, w, w', fileIO) && uuid < w.nextUuid && Carries(w', disk, uuid)
    ensures Carries(w, disk, uuid) || AddsTo(op, w, disk, uuid)
  {
  }

  lemma {:induction false} UuidsGrow(op: Op, w: World, w': World, fileIO: bool)
    requires Step(op, w, w', fileIO)
    ensures w.nextUuid <= w'.nextUuid
  {
  }

  /** An array with a used uuid either was there or was reassembled from disks carrying it. */
  lemma {:induction false} NewArray(op: Op, w: World, w': World, fileIO: bool, md: string, uuid: nat)
    requires Step(op, w, w', fileIO) && uuid < w.nextUuid
    requires md in w'.arrays && w'.arrays[md].uuid == uuid
    ensures (exists a :: a in w.arrays && w.arrays[a].uuid == uuid) || exists d :: Carries(w, d, uuid)
  {
    match op {
      case Reboot =>
        var d :| d in w'.arrays[md].members;
        assert Carries(w, d, uuid);
      case Create(m, _, devices, ok) =>
        assert md in w.arrays && w.arrays[md].uuid == uuid;
      case _ =>
        assert md in w.arrays && w.arrays[md].uuid == uuid;
    }
  }

  /** Once no disk and no array has the uuid, none ever has it again. */
  lemma {:induction false} ExtinctForever(ws: seq<World>, ops: seq<Op>, fileIO: bool, uuid: nat, k: nat)
    requires Run(ws, ops, fileIO) && Extinct(ws[0], uuid) && k < |ws|
    ensures Extinct(ws[k], uuid)
  {
    if k > 0 {
      ExtinctForever(ws, ops, fileIO, uuid, k - 1);
      var op, w, w' := ops[k - 1], ws[k - 1], ws[k];
      UuidsGrow(op, w, w', fileIO);
      forall d | Carries(w', d, uuid)
        ensures false
      {
        NewCarrier(op, w, w', fileIO, d, uuid);
      }
      forall md | md in w'.arrays && w'.arrays[md].uuid == uuid
        ensures false
      {
        NewArray(op, w, w', fileIO, md, uuid);
      }
    }
  }

  /** After a successful Stop a member carries the superblock iff its clean-up failed. */
  lemma {:induction false} StopCleansExactly(w: World, w': World, fileIO: bool, md: string)
    requires Step(Stop(md, true), w, w', fileIO)
    ensures var u := w.arrays[md].uuid;
            && (forall d :: d in w.arrays[md].members ==> (Carries(w', d, u) <==> !Cleaned(w, w', d)))
            && (forall d :: d !in w.arrays[md].members ==> (Carries(w', d, u) <==> Carries(w, d, u)))
            && (forall a :: a in w'.arrays ==> w'.arrays[a].uuid != u)
  {
    forall a | a in w'.arrays
      ensures w'.arrays[a].uuid != w.arrays[md].uuid
    {
      assert a in w.arrays && a != md;
    }
    CarriedAfterStop(w, w', md);
  }

  lemma {:induction false} CarriedAfterStop(w: World, w': World, md: string)
    requires Inv(w) && StopSpec(w, w', md, true)
    ensures var u := w.arrays[md].uuid;
            && (forall d :: d in w.arrays[md].members ==> (Carries(w', d, u) <==> !Cleaned(w, w', d)))
            && (forall d :: d !in w.arrays[md].members ==> (Carries(w', d, u) <==> Carries(w, d, u)))
  {
  }

  /** When the members could not be listed, Stop reports success and every superblock stays. */
  lemma {:induction false} UnlistedStopErasesNothing(w: World, w': World, fileIO: bool, md: string)
    requires Step(Stop(md, true), w, w', fileIO) && !Did(w, w', Detail(md))
    ensures w'.disks == w.disks && forall d :: !WipeTried(w, w', d)
    ensures forall d :: d in w.arrays[md].members ==> Carries(w', d, w.arrays[md].uuid)
  {
  }

  function UnlistedLog(md: string): seq<Event> {
    [Event(CatMounts, false), Event(Detail(md), false), Event(StopMd(md), true)]
  }

  lemma {:induction false} UnlistedTrail(w: World, w': World, md: string)
    requires w'.log == w.log + UnlistedLog(md)
    ensures Did(w, w', StopMd(md)) && !Did(w, w', Detail(md)) && !Did(w, w', Cmd.CatMounts)
    ensures forall d :: !WipeTried(w, w', d) && !Cleaned(w, w', d)
    ensures Since(w, w') == UnlistedLog(md)
  {
    assert Since(w, w') == UnlistedLog(md);
    assert UnlistedLog(md)[2] in UnlistedLog(md);
  }

  lemma {:induction false} UnlistedOrder(w: World, w': World, md: string)
    requires Since(w, w') == UnlistedLog(md) && !Did(w, w', Cmd.CatMounts)
    ensures StopOrder(w, w', md, true)
  {
    var s := UnlistedLog(md);
    assert s[1] in s[..2];
    assert After(s, Event(Detail(md), false), IsStop);
  }

  lemma {:induction false} UnlistedSpec(w: World, w': World, md: string)
    requires md in w.arrays && w.log <= w'.log
    requires w' == w.(arrays := w.arrays - {md}, conf := w'.conf, log := w'.log)
    requires Did(w, w', StopMd(md)) && !Did(w, w', Detail(md))
    requires forall d :: !WipeTried(w, w', d) && !Cleaned(w, w', d)
    ensures StopSpec(w, w', md, true)
  {
  }

  /** Such an end state of Stop is possible for every array, the commands in its order. */
  lemma {:induction false} UnlistedStopExists(w: World, md: string, fileIO: bool) returns (w': World)
    requires Inv(w) && md in w.arrays && !Mounted(w.mounts, md)
    ensures Step(Stop(md, true), w, w', fileIO) && !Did(w, w', Detail(md))
    ensures StopOrder(w, w', md, true) && w'.conf == ConfRemoveText(w.conf, md)
  {
    w' := w.(arrays := w.arrays - {md}, conf := ConfRemoveText(w.conf, md), log := w.log + UnlistedLog(md));
    UnlistedTrail(w, w', md);
    UnlistedOrder(w, w', md);
    UnlistedSpec(w, w', md);
    UnlistedFiles(w, w', md, fileIO);
    ArrayGone(w, w', md);
  }

  lemma {:induction false} UnlistedFiles(w: World, w': World, md: string, fileIO: bool)
    requires w'.mounts == w.mounts && w'.fstab == w.fstab && !Did(w, w', Cmd.CatMounts)
    ensures StopFiles(w, w', md, fileIO)
  {
  }

  lemma {:induction false} ArrayGone(w: World, w': World, md: string)
    requires Inv(w) && w' == w.(arrays := w.arrays - {md}, conf := w'.conf, log := w'.log)
    ensures Inv(w')
  {
  }

  /** If the stop command failed, no disk was touched. */
  lemma {:induction false} FailedStopTouchesNothing(w: World, w': World, fileIO: bool, md: string)
    requires Step(Stop(md, false), w, w', fileIO)
    ensures w'.disks == w.disks && w'.arrays == w.arrays
    ensures forall d :: !WipeTried(w, w', d)
  {
  }

  /** A disk that carries the array's superblock when Stop begins and was not cleaned as a member. */
  ghost predicate Leftover(w: World, w': World, md: string, d: string)
    requires md in w.arrays
  {
    Carries(w, d, w.arrays[md].uuid) && (d in w.arrays[md].members ==> !Cleaned(w, w', d))
  }

  lemma {:induction false} LeftoverCarries(w: World, w': World, fileIO: bool, md: string)
    requires Step(Stop(md, true), w, w', fileIO)
    ensures forall d :: Leftover(w, w', md, d) <==> Carries(w', d, w.arrays[md].uuid)
  {
    StopCleansExactly(w, w', fileIO, md);
  }

  /** The uuid dies with the array exactly when no superblock was left over. */
  lemma {:induction false} StopExtinguishes(w: World, w': World, fileIO: bool, md: string)
    requires Step(Stop(md, true), w, w', fileIO)
    ensures Extinct(w', w.arrays[md].uuid) <==> forall d :: !Leftover(w, w', md, d)
  {
    StopCleansExactly(w, w', fileIO, md);
    LeftoverCarries(w, w', fileIO, md);
  }

  lemma {:induction false} RunTail(ws: seq<World>, ops: seq<Op>, fileIO: bool)
    requires Run(ws, ops, fileIO) && ops != []
    ensures Run(ws[1..], ops[1..], fileIO)
  {
    forall i | 0 <= i < |ops[1..]|
      ensures Step(ops[1..][i], ws[1..][i], ws[1..][i + 1], fileIO)
    {
      assert Step(ops[i + 1], ws[i + 1], ws[i + 2], fileIO);
    }
  }

  /**
   * A stopped array of which no superblock is left over never comes back, over any further
   * run with any reboots.
   */
  lemma {:induction false} StoppedArrayStaysGone(ws: seq<World>, ops: seq<Op>, fileIO: bool, md: string, k: nat)
    requires Run(ws, ops, fileIO) && ops != [] && ops[0] == Stop(md, true)
    requires Step(ops[0], ws[0], ws[1], fileIO)
    requires forall d :: !Leftover(ws[0], ws[1], md, d)
    requires 1 <= k < |ws|
    ensures Extinct(ws[k], ws[0].arrays[md].uuid)
  {
    StopExtinguishes(ws[0], ws[1], fileIO, md);
    RunTail(ws, ops, fileIO);
    ExtinctForever(ws[1..], ops[1..], fileIO, ws[0].arrays[md].uuid, k - 1);
  }

  /** Disk by disk: a cleaned member rejoins the old array only if somebody adds it again. */
  lemma {:induction false} CleanDiskStaysOut(ws: seq<World>, ops: seq<Op>, fileIO: bool, disk: string, uuid: nat,
        k: nat)
    requires Run(ws, ops, fileIO) && k < |ws|
    requires uuid < ws[0].nextUuid && !Carries(ws[0], disk, uuid) && Inv(ws[0])
    requires forall i :: 0 <= i < k ==> !AddsTo(ops[i], ws[i], disk, uuid)
    ensures uuid < ws[k].nextUuid && !Carries(ws[k], disk, uuid)
    ensures forall md :: md in ws[k].arrays && ws[k].arrays[md].uuid == uuid ==> disk !in ws[k].arrays[md].members
  {
    if k > 0 {
      CleanDiskStaysOut(ws, ops, fileIO, disk, uuid, k - 1);
      UuidsGrow(ops[k - 1], ws[k - 1], ws[k], fileIO);
      if Carries(ws[k], disk, uuid) {
        NewCarrier(ops[k - 1], ws[k - 1], ws[k], fileIO, disk, uuid);
      }
    }
  }

  ghost function Carriers(w: World, uuid: nat): set<string> {
    set d | d in w.disks && w.disks[d] == uuid
  }

  /** A superblock left on any disk lets a reboot bring the array back under any free name. */
  lemma {:induction false} LeftoverRevives(w: World, uuid: nat, disk: string, name: string) returns (w': World)
    requires Inv(w) && Carries(w, disk, uuid) && ValidMDDevice(name) && !Carries(w, name, uuid)
    ensures forall fileIO :: Step(Reboot, w, w', fileIO)
    ensures name in w'.arrays && w'.arrays[name] == Array(uuid, Carriers(w, uuid))
  {
    w' := w.(arrays := map[name := Array(uuid, Carriers(w, uuid))], mounts := []);
    assert disk in w'.arrays[name].members;
  }

  ghost predicate HasArray(w: World, uuid: nat) {
    exists md :: md in w.arrays && w.arrays[md].uuid == uuid
  }

  /** A reboot brings the array back under the given name. */
  ghost predicate CanReturn(w: World, uuid: nat, name: string, fileIO: bool) {
    exists w' :: Step(Reboot, w, w', fileIO) && name in w'.arrays && w'.arrays[name].uuid == uuid
  }

  /** Some run, of any operations and reboots, leads to a state with the array. */
  ghost predicate ReturnsInSomeRun(w: World, uuid: nat, fileIO: bool) {
    exists ws, ops :: Run(ws, ops, fileIO) && ws[0] == w && HasArray(ws[|ws| - 1], uuid)
  }

  // ---- A name that no disk has -----------------------------------------------

  lemma {:induction false} LengthBound(ds: set<string>) returns (n: nat)
    ensures forall d :: d in ds ==> |d| <= n
  {
    n := 0;
    if ds != {} {
      var d :| d in ds;
      var m := LengthBound(ds - {d});
      n := if |d| <= m then m else |d|;
    }
  }

  lemma {:induction false} FreeName(w: World) returns (name: string)
    ensures ValidMDDevice(name) && name !in w.disks
  {
    var n := LengthBound(w.disks.Keys);
    var zeros := seq(n + 1, _ => '0');
    name := "/dev/md" + zeros;
    assert forall i :: 0 <= i < |zeros| ==> zeros[i] == '0';
    assert name[7..] == zeros;
  }

  /** Without a superblock or an array of the uuid no run brings it back. */
  lemma {:induction false} NoReturn(w: World, uuid: nat, fileIO: bool)
    requires Extinct(w, uuid)
    ensures !ReturnsInSomeRun(w, uuid, fileIO)
    ensures forall name :: !CanReturn(w, uuid, name, fileIO)
  {
    forall ws, ops | Run(ws, ops, fileIO) && ws[0] == w
      ensures !HasArray(ws[|ws| - 1], uuid)
    {
      ExtinctForever(ws, ops, fileIO, uuid, |ws| - 1);
    }
    forall w' | Step(Reboot, w, w', fileIO)
      ensures !HasArray(w', uuid)
    {
      RebootRun(w, w', fileIO);
      ExtinctForever([w, w'], [Reboot], fileIO, uuid, 1);
    }
  }

  lemma {:induction false} RebootRun(w: World, w': World, fileIO: bool)
    requires Step(Reboot, w, w', fileIO)
    ensures Run([w, w'], [Reboot], fileIO)
  {
  }

  lemma {:induction false} CarrierReturns(w: World, uuid: nat, disk: string, name: string, fileIO: bool)
    requires Inv(w) && Carries(w, disk, uuid) && ValidMDDevice(name) && !Carries(w, name, uuid)
    ensures CanReturn(w, uuid, name, fileIO) && ReturnsInSomeRun(w, uuid, fileIO)
  {
    var v := LeftoverRevives(w, uuid, disk, name);
    assert Step(Reboot, w, v, fileIO);
    RebootRun(w, v, fileIO);
    assert HasArray([w, v][1], uuid);
  }

  /**
   * After a successful Stop the array can come back, by the next reboot under any valid name
   * that is not itself such a disk, or in any later run, exactly when a superblock is left over.
   */
  lemma {:induction false} StopIsFinalIff(w: World, w': World, fileIO: bool, md: string)
    requires Step(Stop(md, true), w, w', fileIO)
    ensures ReturnsInSomeRun(w', w.arrays[md].uuid, fileIO) <==> exists d :: Leftover(w, w', md, d)
    ensures forall name :: ValidMDDevice(name) && !Leftover(w, w', md, name) ==>
              (CanReturn(w', w.arrays[md].uuid, name, fileIO) <==> exists d :: Leftover(w, w', md, d))
  {
    var u := w.arrays[md].uuid;
    StopExtinguishes(w, w', fileIO, md);
    LeftoverCarries(w, w', fileIO, md);
    if d :| Leftover(w, w', md, d) {
      var free := FreeName(w');
      CarrierReturns(w', u, d, free, fileIO);
      forall name | ValidMDDevice(name) && !Leftover(w, w', md, name)
        ensures CanReturn(w', u, name, fileIO)
      {
        CarrierReturns(w', u, d, name, fileIO);
      }
    } else {
      NoReturn(w', u, fileIO);
    }
  }

  /** When the members could not be listed, the array can always come back. */
  lemma {:induction false} UnlistedStopIsNotFinal(w: World, w': World, fileIO: bool, md: string)
    requires Step(Stop(md, true), w, w', fileIO) && !Did(w, w', Detail(md)) && w.arrays[md].members != {}
    ensures ReturnsInSomeRun(w', w.arrays[md].uuid, fileIO)
  {
    var d :| d in w.arrays[md].members;
    UnlistedStopErasesNothing(w, w', fileIO, md);
    LeftoverCarries(w, w', fileIO, md);
    assert Leftover(w, w', md, d);
    StopIsFinalIff(w, w', fileIO, md);
  }

  /** A disk taken out with RemoveDisk keeps the superblock, so its array outlives every Stop. */
  lemma {:induction false} RemovedDiskBringsArrayBack(w: World, w1: World, w2: World, fileIO: bool, md: string,
        disk: string)
    requires Step(RemoveDisk(md, disk, true), w, w1, fileIO) && Step(Stop(md, true), w1, w2, fileIO)
    ensures ReturnsInSomeRun(w2, w.arrays[md].uuid, fileIO)
  {
    RemovedDiskStillCarries(w, w1, md, disk);
    assert Leftover(w1, w2, md, disk);
    StopIsFinalIff(w1, w2, fileIO, md);
  }

  lemma {:induction false} RemovedDiskStillCarries(w: World, w1: World, md: string, disk: string)
    requires Inv(w) && RemoveSpec(w, w1, md, disk, true)
    ensures w1.disks == w.disks && md in w1.arrays && w1.arrays[md].uuid == w.arrays[md].uuid
    ensures Carries(w1, disk, w1.arrays[md].uuid) && disk !in w1.arrays[md].members
  {
  }
}
