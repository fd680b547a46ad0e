/**
 * Mounted volumes and their fstab lines over runs of the filesystem operations, when every
 * array keeps one mount point of its own (`own`) and /etc files can be read and written.
 */
module Volumes {
  import opened GoStrings
  import opened EtcFiles
  import opened ProcFiles
  import opened Machines
  import opened Raid

  type Owners = map<string, string>

  predicate OwnPath(path: string) {
    HasPrefix(path, "/") && NoSpace(path) && !ValidMDDevice(path)
  }

  /** One mount point per array, without white space, none of them another array's default. */
  ghost predicate OwnersOk(own: Owners) {
    && (forall md :: md in own ==> ValidMDDevice(md) && OwnPath(own[md]))
    && (forall a, b :: a in own && b in own && own[a] == own[b] ==> a == b)
    && (forall md, other :: ValidMDDevice(md) && other in own && other != md ==> own[other] != DefaultMountPoint(md))
  }

  /** The table holds each array at most once, at its own mount point, and nothing else there. */
  ghost predicate TableOk(own: Owners, ms: seq<Mount>) {
    && (forall m :: m in ms && m.dev in own ==> m.mountPoint == Mangle(own[m.dev]))
    && (forall m, md :: m in ms && md in own && m.mountPoint == Mangle(own[md]) ==> m.dev in own)
    && (forall m, md :: m in ms && md in own ==> m.dev != own[md] && m.mountPoint != md)
    && OnceEach(own, ms)
  }

  ghost predicate OnceEach(own: Owners, ms: seq<Mount>) {
    forall i, j :: 0 <= i < j < |ms| && ms[i].dev in own ==> ms[i].dev != ms[j].dev
  }

  lemma {:induction false} RemovedOnceEach(own: Owners, ms: seq<Mount>, target: string)
    requires OnceEach(own, ms)
    ensures OnceEach(own, RemoveLast(ms, target))
  {
    if ms != [] && !UmountMatches(ms[|ms| - 1], target) {
      var front, last := ms[..|ms| - 1], ms[|ms| - 1];
      RemovedOnceEach(own, front, target);
      forall i | 0 <= i < |RemoveLast(front, target)| && RemoveLast(front, target)[i].dev in own
        ensures RemoveLast(front, target)[i].dev != last.dev
      {
        assert RemoveLast(front, target)[i] in front;
      }
    }
  }

  /** A umount of anything leaves a table of this kind. */
  lemma {:induction false} RemovedTable(own: Owners, ms: seq<Mount>, target: string)
    requires TableOk(own, ms)
    ensures TableOk(own, RemoveLast(ms, target))
    ensures forall other :: Mounted(RemoveLast(ms, target), other) ==> Mounted(ms, other)
  {
    RemovedOnceEach(own, ms, target);
  }

  /** A line whose source is a managed array names the array's own mount point. */
  ghost predicate LinesOk(own: Owners, t: string) {
    && Terminated(t)
    && LinesOwned(own, Lines(t))
  }

  /** Every mounted volume has a line for its mount point. */
  ghost predicate Recorded(own: Owners, ms: seq<Mount>, t: string) {
    forall md :: md in own && Mounted(ms, md) ==> HasLineAt(t, own[md])
  }

  ghost predicate VolInv(own: Owners, w: World) {
    Inv(w) && TableOk(own, w.mounts) && LinesOk(own, w.fstab) && Recorded(own, w.mounts, w.fstab)
  }

  // ---- fstab edits -----------------------------------------------------------

  lemma {:induction false} RemoveKeepsLines(own: Owners, t: string, mp: string)
    requires LinesOk(own, t)
    ensures LinesOk(own, FstabRemoveText(t, mp)) && !HasLineAt(FstabRemoveText(t, mp), mp)
    ensures forall other :: other != mp && HasLineAt(t, other) ==> HasLineAt(FstabRemoveText(t, mp), other)
  {
    RemoveIsFilter(t, mp);
    RemoveKeepsTermination(t, mp);
    assert Fields("") == [];
    assert forall l :: l in Lines(FstabRemoveText(t, mp)) ==> l in Lines(t) || l == "";
    forall other | other != mp && HasLineAt(t, other)
      ensures HasLineAt(FstabRemoveText(t, mp), other)
    {
      var l :| l in Lines(t) && MountsAt(l, other);
      assert !MountsAt(l, mp);
    }
  }

  lemma {:induction false} AddKeepsLines(own: Owners, t: string, md: string, src: string, fsType: string)
    requires OwnersOk(own) && LinesOk(own, t) && md in own && SourceFor(src, md) && NoSpace(fsType)
    ensures var t' := FstabAddText(t, FstabEntry(src, own[md], fsType));
            LinesOk(own, t') && HasLineAt(t', own[md])
            && forall other :: HasLineAt(t, other) ==> HasLineAt(t', other)
  {
    var e := FstabEntry(src, own[md], fsType);
    EntryNoBreak(src, own[md], fsType);
    AddIsAppendIfAbsent(t, e);
    AddKeepsTermination(t, e);
    if HasEntry(t, e) {
      EntryIsLine(t, src, own[md], fsType);
    } else {
      TerminatedLastLine(t);
      EntryFields(src, own[md], fsType);
      UuidNotOwned(own, src, md);
      AppendKeepsLines(own, Lines(t), Lines(FstabAddText(t, e)), e, own[md]);
    }
  }

  predicate LinesOwned(own: Owners, ls: seq<string>) {
    forall l :: l in ls && |Fields(l)| >= 2 && Fields(l)[0] in own ==> Fields(l)[1] == own[Fields(l)[0]]
  }

  lemma {:induction false} AppendKeepsLines(own: Owners, ls: seq<string>, ls': seq<string>, e: string, mp: string)
    requires ls != [] && ls[|ls| - 1] == "" && ls' == ls[..|ls| - 1] + [e, ""]
    requires LinesOwned(own, ls) && MountsAt(e, mp)
    requires Fields(e)[0] in own ==> Fields(e)[1] == own[Fields(e)[0]]
    ensures LinesOwned(own, ls')
    ensures exists l :: l in ls' && MountsAt(l, mp)
    ensures forall l :: l in ls ==> l in ls'
  {
    assert forall l :: l in ls' <==> l in ls[..|ls| - 1] || l == e || l == "";
    assert ls == ls[..|ls| - 1] + [""];
    assert forall l :: l in ls <==> l in ls[..|ls| - 1] || l == "";
    assert Fields("") == [];
    assert e in ls';
  }

  lemma {:induction false} EntryNoBreak(src: string, mp: string, fsType: string)
    requires NoSpace(src) && NoSpace(mp) && NoSpace(fsType)
    ensures '\n' !in FstabEntry(src, mp, fsType)
  {
  }

  lemma {:induction false} UuidNotOwned(own: Owners, src: string, md: string)
    requires OwnersOk(own) && SourceFor(src, md)
    ensures src in own ==> src == md
  {
    if src in own {
      assert src[..7] == "/dev/md" && src[0] == '/';
      assert HasPrefix(src, "UUID=") ==> src[0] == 'U';
    }
  }

  // ---- The mount table -------------------------------------------------------

  /** Among the managed volumes, umount of a device or of its mount point hits that one only. */
  lemma {:induction false} MatchesOwn(own: Owners, ms: seq<Mount>, md: string, target: string)
    requires OwnersOk(own) && TableOk(own, ms) && md in own && (target == md || target == own[md])
    ensures forall m :: m in ms ==> (UmountMatches(m, target) <==> m.dev == md)
  {
    DeviceUnmangled(md);
    forall m | m in ms && m.mountPoint == Mangle(own[md])
      ensures m.dev == md
    {
      MangleInjective(own[m.dev], own[md]);
    }
  }

  lemma {:induction false} NoneLeft(ms: seq<Mount>, target: string, md: string)
    requires forall m :: m in ms ==> (UmountMatches(m, target) <==> m.dev == md)
    requires forall i, j :: 0 <= i < j < |ms| && ms[i].dev == md ==> ms[i].dev != ms[j].dev
    ensures !Mounted(RemoveLast(ms, target), md)
    ensures forall other :: other != md ==> (Mounted(RemoveLast(ms, target), other) <==> Mounted(ms, other))
  {
    if ms != [] {
      var front, last := ms[..|ms| - 1], ms[|ms| - 1];
      assert last in ms && ms == front + [last];
      if UmountMatches(last, target) {
        forall m | m in front
          ensures m.dev != md
        {
          var i :| 0 <= i < |front| && front[i] == m;
          assert ms[i] == m;
        }
      } else {
        NoneLeft(front, target, md);
      }
    }
  }

  lemma {:induction false} TakeDownVolume(own: Owners, ms: seq<Mount>, md: string, target: string)
    requires OwnersOk(own) && TableOk(own, ms) && md in own && (target == md || target == own[md])
    ensures TableOk(own, RemoveLast(ms, target))
    ensures !Mounted(RemoveLast(ms, target), md)
    ensures forall other :: other != md ==> (Mounted(RemoveLast(ms, target), other) <==> Mounted(ms, other))
  {
    RemovedTable(own, ms, target);
    MatchesOwn(own, ms, md, target);
    NoneLeft(ms, target, md);
  }

  lemma {:induction false} DeviceUnmangled(md: string)
    requires ValidMDDevice(md)
    ensures Mangle(md) == md
  {
    ValidDeviceChars(md);
    MangleUnchanged(md);
  }

  // ---- The operations --------------------------------------------------------

  lemma {:induction false} MountKeeps(own: Owners, w: World, w': World, md: string, fsType: string, ok: bool)
    requires OwnersOk(own) && VolInv(own, w) && Inv(w') && md in own
    requires MountSpec(w, w', md, fsType, own[md], ok, true)
    ensures VolInv(own, w')
    ensures ok ==> Mounted(w'.mounts, md) && HasLineAt(w'.fstab, own[md])
  {
    if ok {
      var asked := Did(w, w', Blkid(md));
      ValidDeviceChars(md);
      SourceIsToken(w', md, asked);
      AddKeepsLines(own, w.fstab, md, SourceOf(w', md, asked), fsType);
      MountedTable(own, w.mounts, NewMount(fsType, md, own[md]));
      NewlyRecorded(own, w, w', md, NewMount(fsType, md, own[md]));
    }
  }

  lemma {:induction false} NewlyRecorded(own: Owners, w: World, w': World, md: string, m: Mount)
    requires Recorded(own, w.mounts, w.fstab) && md in own && m.dev == md && w'.mounts == w.mounts + [m]
    requires HasLineAt(w'.fstab, own[md]) && forall other :: HasLineAt(w.fstab, other) ==> HasLineAt(w'.fstab, other)
    ensures Recorded(own, w'.mounts, w'.fstab) && Mounted(w'.mounts, md)
  {
    assert m in w'.mounts;
  }

  lemma {:induction false} MountedTable(own: Owners, ms: seq<Mount>, m: Mount)
    requires OwnersOk(own) && TableOk(own, ms) && m.dev in own && m.mountPoint == Mangle(own[m.dev])
    requires forall n :: n in ms ==> !(n.dev == m.dev && n.mountPoint == m.mountPoint)
    ensures TableOk(own, ms + [m]) && m in ms + [m]
  {
    forall md | md in own
      ensures m.dev != own[md] && m.mountPoint != md
    {
      MountPointNotDevice(own, m.dev, md);
    }
  }

  lemma {:induction false} MountPointNotDevice(own: Owners, a: string, b: string)
    requires OwnersOk(own) && a in own && b in own
    ensures own[b] != a && Mangle(own[a]) != b
  {
    DeviceUnmangled(b);
    if Mangle(own[a]) == Mangle(b) {
      MangleInjective(own[a], b);
    }
  }

  lemma {:induction false} UnmountKeeps(own: Owners, w: World, w': World, md: string, ok: bool)
    requires OwnersOk(own) && VolInv(own, w) && Inv(w') && md in own
    requires UnmountSpec(w, w', own[md], ok, true)
    ensures VolInv(own, w')
    ensures ok ==> !Mounted(w'.mounts, md) && !HasLineAt(w'.fstab, own[md])
  {
    if ok {
      TakeDownVolume(own, w.mounts, md, own[md]);
      RemoveKeepsLines(own, w.fstab, own[md]);
    }
  }

  /** What /proc/mounts reports of a mounted volume: its mount point, escaped. */
  lemma {:induction false} ReportedTarget(own: Owners, w: World, md: string)
    requires OwnersOk(own) && VolInv(own, w) && md in own
    ensures MountTarget(w, md) == if Mounted(w.mounts, md) then Mangle(own[md]) else ""
  {
    ValidDeviceChars(md);
    MangleNoSpace(own[md]);
    FindMountPointExact(w.mounts, md);
  }

  /** A mounted volume whose mount point is what the table shows for md. */
  predicate VictimOf(own: Owners, w: World, md: string, b: string) {
    md in own && b in own && own[b] == Mangle(own[md]) && Mounted(w.mounts, b)
  }

  /** Dropping the lines of a path keeps the volumes recorded iff none of them is mounted there. */
  lemma {:induction false} DroppedLines(own: Owners, w: World, w': World, path: string)
    requires OwnersOk(own) && VolInv(own, w) && Inv(w') && TableOk(own, w'.mounts)
    requires w'.fstab == FstabRemoveText(w.fstab, path)
    requires forall b :: b in own && Mounted(w'.mounts, b) ==> Mounted(w.mounts, b)
    ensures VolInv(own, w') <==> forall b :: b in own && own[b] == path ==> !Mounted(w'.mounts, b)
  {
    RemoveKeepsLines(own, w.fstab, path);
  }

  lemma {:induction false} FirstTargetOwned(own: Owners, ls: seq<string>, md: string)
    requires LinesOwned(own, ls) && md in own
    ensures FirstTarget(ls, md) == "" || FirstTarget(ls, md) == own[md]
  {
    if ls != [] {
      assert ls[0] in ls;
      FirstTargetOwned(own, ls[1..], md);
    }
  }

  lemma {:induction false} FallbackOwned(own: Owners, w: World, md: string)
    requires OwnersOk(own) && VolInv(own, w) && md in own
    ensures FallbackTarget(w, md) == own[md] || FallbackTarget(w, md) == DefaultMountPoint(md)
    ensures forall other :: other in own && other != md ==> own[other] != FallbackTarget(w, md)
  {
    FirstTargetOwned(own, Lines(w.fstab), md);
  }

  /**
   * Deleting a filesystem drops the line of a mounted volume in two cases only: the volume is
   * mounted, /proc/mounts could not be read, and the assumed mount point is the real one; or
   * the volume was taken down, and the escaped form of its mount point is the mount point of
   * another one.
   */
  lemma {:induction false} WipeKeepsIff(own: Owners, w: World, w': World, md: string, ok: bool)
    requires OwnersOk(own) && VolInv(own, w) && Inv(w') && md in own && WipeFsSpec(w, w', md, ok, true)
    ensures VolInv(own, w') <==> !WipeStrands(own, w, w', md)
  {
    ReportedTarget(own, w, md);
    if Did(w, w', Cmd.CatMounts) && Mounted(w.mounts, md) {
      MangleNotEmpty(own, md);
      if Did(w, w', Umount(md)) {
        TakeDownVolume(own, w.mounts, md, md);
        DroppedLines(own, w, w', Mangle(own[md]));
        assert forall b :: b in own && own[b] == Mangle(own[md]) && Mounted(w'.mounts, b) <==> b != md && VictimOf(own, w, md, b);
      }
    } else {
      FallbackOwned(own, w, md);
      DroppedLines(own, w, w', FallbackTarget(w, md));
    }
  }

  ghost predicate WipeStrands(own: Owners, w: World, w': World, md: string) {
    && md in own && Mounted(w.mounts, md)
    && if Did(w, w', Cmd.CatMounts) then Did(w, w', Umount(md)) && exists b :: b != md && VictimOf(own, w, md, b)
       else FallbackTarget(w, md) == own[md]
  }

  lemma {:induction false} MangleNotEmpty(own: Owners, md: string)
    requires OwnersOk(own) && md in own
    ensures Mangle(own[md]) != ""
  {
    assert own[md][0] == '/';
  }

  /** Such a run exists whenever the array is mounted at its default and recorded by uuid. */
  lemma {:induction false} UnreadableMountsStrand(own: Owners, w: World, md: string) returns (w': World)
    requires OwnersOk(own) && VolInv(own, w) && md in own && Mounted(w.mounts, md)
    requires own[md] == DefaultMountPoint(md) && FirstTarget(Lines(w.fstab), md) == ""
    ensures WipeFsSpec(w, w', md, false, true) && WipeFsOrder(w, w', md, false)
    ensures Mounted(w'.mounts, md) && !HasLineAt(w'.fstab, own[md])
  {
    // The kernel refuses to wipe the mounted array, so nothing else happens.
    w' := w.(fstab := FstabRemoveText(w.fstab, own[md]),
             log := w.log + [Event(CatMounts, false), Event(Wipefs(md), false)]);
    assert Since(w, w') == [Event(CatMounts, false), Event(Wipefs(md), false)];
    RemoveKeepsLines(own, w.fstab, own[md]);
  }

  ghost predicate StopStrands(own: Owners, w: World, w': World, md: string) {
    && md in own && Mounted(w.mounts, md) && Did(w, w', Cmd.CatMounts) && !Did(w, w', Umount(Mangle(own[md])))
    && exists b :: VictimOf(own, w, md, b)
  }

  /**
   * Stopping a mounted array that was seen drops the lines of what /proc/mounts shows for it
   * even if the umount failed, so the volumes stay recorded iff none is mounted there or it
   * was really taken down. For a mount point that is shown as it is, that is the array's own.
   */
  lemma {:induction false} StopKeepsIff(own: Owners, w: World, w': World, md: string, ok: bool)
    requires OwnersOk(own) && VolInv(own, w) && Inv(w') && md in own
    requires StopSpec(w, w', md, ok) && StopFiles(w, w', md, true)
    ensures VolInv(own, w') <==> !StopStrands(own, w, w', md)
  {
    ReportedTarget(own, w, md);
    if Did(w, w', Cmd.CatMounts) && Mounted(w.mounts, md) {
      MangleNotEmpty(own, md);
      var shown := Mangle(own[md]);
      RemovedTable(own, w.mounts, shown);
      DroppedLines(own, w, w', shown);
      if Did(w, w', Umount(shown)) {
        forall b | b in own && own[b] == shown
          ensures !Mounted(w'.mounts, b)
        {
          TakeDownVolume(own, w.mounts, b, shown);
        }
      } else {
        assert forall b :: b in own && own[b] == shown && Mounted(w'.mounts, b) <==> VictimOf(own, w, md, b);
      }
    }
  }

  /** A mount point that is shown as it is has no other victim than the volume itself. */
  lemma {:induction false} PlainVictim(own: Owners, w: World, md: string, b: string)
    requires OwnersOk(own) && md in own && '\\' !in own[md] && '#' !in own[md]
    ensures VictimOf(own, w, md, b) <==> b == md && Mounted(w.mounts, md)
  {
    MangleUnchanged(own[md]);
  }

  // ---- Runs ------------------------------------------------------------------

  datatype VolOp =
    | MountVolume(md: string, fsType: string, ok: bool)
    | UnmountVolume(md: string, ok: bool)
    | WipeVolume(md: string, ok: bool)
    | StopVolume(md: string, ok: bool)

  /** One operation on a managed array, whichever of its commands fail. */
  ghost predicate VolStep(own: Owners, op: VolOp, w: World, w': World) {
    && op.md in own && Inv(w')
    && match op {
         case MountVolume(md, fsType, ok) => MountSpec(w, w', md, fsType, own[md], ok, true)
         case UnmountVolume(md, ok) => UnmountSpec(w, w', own[md], ok, true)
         case WipeVolume(md, ok) => WipeFsSpec(w, w', md, ok, true)
         case StopVolume(md, ok) => StopSpec(w, w', md, ok) && StopFiles(w, w', md, true)
       }
  }

  /** The operation leaves a volume mounted and drops its line. */
  ghost predicate Strands(own: Owners, op: VolOp, w: World, w': World) {
    match op
    case WipeVolume(md, _) => WipeStrands(own, w, w', md)
    case StopVolume(md, _) => StopStrands(own, w, w', md)
    case _ => false
  }

  ghost predicate UnmountLeavesNone(own: Owners, op: VolOp, w': World) {
    op.UnmountVolume? && op.ok && op.md in own ==> !Mounted(w'.mounts, op.md) && !HasLineAt(w'.fstab, own[op.md])
  }

  lemma {:induction false} StepKeepsIff(own: Owners, op: VolOp, w: World, w': World)
    requires OwnersOk(own) && VolInv(own, w) && VolStep(own, op, w, w')
    ensures VolInv(own, w') <==> !Strands(own, op, w, w')
    ensures UnmountLeavesNone(own, op, w')
  {
    match op {
      case MountVolume(md, fsType, ok) => MountKeeps(own, w, w', md, fsType, ok);
      case UnmountVolume(md, ok) => UnmountKeeps(own, w, w', md, ok);
      case WipeVolume(md, ok) => WipeKeepsIff(own, w, w', md, ok);
      case StopVolume(md, ok) => StopKeepsIff(own, w, w', md, ok);
    }
  }

  ghost predicate VolRun(own: Owners, ws: seq<World>, ops: seq<VolOp>) {
    |ws| == |ops| + 1 && forall i :: 0 <= i < |ops| ==> VolStep(own, ops[i], ws[i], ws[i + 1])
  }

  ghost predicate AllRecorded(own: Owners, ws: seq<World>, k: nat) {
    k < |ws| && forall i :: 0 <= i <= k ==> VolInv(own, ws[i])
  }

  ghost predicate NoneStrands(own: Owners, ws: seq<World>, ops: seq<VolOp>, k: nat) {
    k <= |ops| < |ws| && forall i :: 0 <= i < k ==> !Strands(own, ops[i], ws[i], ws[i + 1])
  }

  lemma {:induction false} RecordedStep(own: Owners, ws: seq<World>, k: nat)
    requires 0 < k < |ws|
    ensures AllRecorded(own, ws, k) <==> AllRecorded(own, ws, k - 1) && VolInv(own, ws[k])
  {
  }

  lemma {:induction false} StrandsStep(own: Owners, ws: seq<World>, ops: seq<VolOp>, k: nat)
    requires 0 < k <= |ops| < |ws|
    ensures NoneStrands(own, ws, ops, k)
            <==> NoneStrands(own, ws, ops, k - 1) && !Strands(own, ops[k - 1], ws[k - 1], ws[k])
  {
  }

  lemma {:induction false} RunStep(own: Owners, ws: seq<World>, ops: seq<VolOp>, i: nat)
    requires OwnersOk(own) && VolRun(own, ws, ops) && i < |ops| && AllRecorded(own, ws, i)
    ensures VolInv(own, ws[i + 1]) <==> !Strands(own, ops[i], ws[i], ws[i + 1])
    ensures UnmountLeavesNone(own, ops[i], ws[i + 1])
  {
    assert VolInv(own, ws[i]);
    assert VolStep(own, ops[i], ws[i], ws[i + 1]);
    StepKeepsIff(own, ops[i], ws[i], ws[i + 1]);
  }

  /**
   * Over any run with any command failures, each mounted volume has its line in every state
   * exactly when no step strands a volume; a successful unmount leaves neither mount nor line.
   */
  lemma {:induction false} VolumesStayRecorded(own: Owners, ws: seq<World>, ops: seq<VolOp>, k: nat)
    requires OwnersOk(own) && VolRun(own, ws, ops) && VolInv(own, ws[0]) && k < |ws|
    ensures AllRecorded(own, ws, k) <==> NoneStrands(own, ws, ops, k)
    ensures k < |ops| && AllRecorded(own, ws, k) ==> UnmountLeavesNone(own, ops[k], ws[k + 1])
  {
    if k > 0 {
      VolumesStayRecorded(own, ws, ops, k - 1);
      RecordedStep(own, ws, k);
      StrandsStep(own, ws, ops, k);
      if AllRecorded(own, ws, k - 1) {
        RunStep(own, ws, ops, k - 1);
      }
    }
    if k < |ops| && AllRecorded(own, ws, k) {
      RunStep(own, ws, ops, k);
    }
  }
}
