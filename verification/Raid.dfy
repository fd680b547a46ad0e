/**
 * The RAID and filesystem manager (raid.go): each operation is the source's fixed order of
 * fallible commands, proved against what it does to superblocks, arrays, mounts and files.
 */
module Raid {
  import opened GoStrings
  import opened EtcFiles
  import opened ProcFiles
  import opened Machines

  // ---- Specifications --------------------------------------------------------

  /** A superblock or signature wipe of the device succeeded. */
  predicate Cleaned(w: World, w': World, dev: string) {
    Did(w, w', ZeroSuperblock(dev)) || Did(w, w', Wipefs(dev))
  }

  predicate WipeTried(w: World, w': World, dev: string) {
    Tried(w, w', ZeroSuperblock(dev)) || Tried(w, w', Wipefs(dev))
  }

  /** What a scan of /proc/mounts reports for the device. */
  function MountTarget(w: World, dev: string): string {
    FirstTarget(Lines(MountsText(w.mounts)), dev)
  }

  /** Superblocks only disappear, exactly where a wipe succeeded. */
  ghost predicate DisksWiped(w: World, w': World) {
    && (forall d :: d in w'.disks ==> d in w.disks && w'.disks[d] == w.disks[d])
    && (forall d :: d in w.disks ==> (d in w'.disks <==> !Cleaned(w, w', d)))
  }

  ghost predicate NoArrayLine(conf: string, md: string) {
    forall l :: l in Lines(conf) ==> !ArrayLineOf(l, md)
  }

  /** Stop: nothing is touched unless the array stopped; then the members are wiped. */
  ghost predicate StopSpec(w: World, w': World, md: string, ok: bool) {
    && w.log <= w'.log && w'.nextUuid == w.nextUuid
    && (ok <==> Did(w, w', StopMd(md)))
    && (!ok ==> w'.disks == w.disks && w'.arrays == w.arrays && forall d :: !WipeTried(w, w', d))
    && (ok ==> md in w.arrays && w'.arrays == w.arrays - {md})
    && DisksWiped(w, w')
    && (forall d :: d in w.disks && d !in w'.disks ==> ok && d in w.arrays[md].members)
    && (ok && Did(w, w', Detail(md)) ==> forall d :: d in w.arrays[md].members ==>
          Tried(w, w', ZeroSuperblock(d)) && Tried(w, w', Wipefs(d)))
    && (ok && !Did(w, w', Detail(md)) ==> w'.disks == w.disks && forall d :: !WipeTried(w, w', d))
  }

  /** The files after Stop: the line goes even when the umount failed. */
  ghost predicate StopFiles(w: World, w': World, md: string, fileIO: bool) {
    Released(w, w', StopTarget(w, w', md), fileIO)
  }

  ghost predicate Released(w: World, w': World, target: string, fileIO: bool) {
    && (target == "" ==> w'.mounts == w.mounts && w'.fstab == w.fstab)
    && (target != "" ==>
          && w'.mounts == (if Did(w, w', Umount(target)) then RemoveLast(w.mounts, target) else w.mounts)
          && (fileIO ==> w'.fstab == FstabRemoveText(w.fstab, target)))
  }

  predicate Supported(level: string) {
    level in ["0", "1", "5", "6", "10", "linear"]
  }

  function MinDisks(level: string): nat {
    if level == "5" then 3 else if level == "6" || level == "10" then 4 else 2
  }

  predicate CreateArgsOk(md: string, level: string, devices: seq<string>) {
    && ValidMDDevice(md) && Supported(level) && |devices| >= MinDisks(level)
    && forall d :: d in devices ==> ValidDevice(d)
  }

  /** Create: on success a new array with an unused uuid, written on every given disk. */
  ghost predicate CreateSpec(w: World, w': World, md: string, level: string, devices: seq<string>, ok: bool) {
    && w.log <= w'.log && w'.mounts == w.mounts && w'.fstab == w.fstab
    && (ok ==> CreateArgsOk(md, level, devices) && CanCreate(w, md, devices))
    && (var v := if ok then Created(w, md, devices) else w;
        (w'.disks == v.disks || w'.disks == v.disks - {md}) && w'.arrays == v.arrays && w'.nextUuid == v.nextUuid)
  }

  /** Stale signatures are wiped from the new array, after it was made. */
  ghost predicate CreateOrder(w: World, w': World, md: string, level: string, devices: seq<string>, ok: bool) {
    if ok then
      Tried(w, w', Wipefs(md)) && After(Since(w, w'), Event(CreateMd(md, level, devices), true), IsErase)
    else NoneOf(Since(w, w'), IsErase)
  }

  /**
   * mdadm.conf after registering an array: its ARRAY line is added unless its uuid is there;
   * when the scan and the files work, the uuid is there afterwards.
   */
  ghost predicate Registered(conf: string, conf': string, md: string, uuid: nat, scanned: bool, fileIO: bool) {
    && (conf' == conf
        || exists line :: PrintedArray(line, md, uuid)
             && (conf' == PersistText(conf, line, md) || (!fileIO && conf' == conf + line + "\n")))
    && (scanned && fileIO ==> Contains(conf', "UUID=" + UuidText(uuid)))
  }

  ghost predicate AddSpec(w: World, w': World, md: string, disk: string, ok: bool) {
    && w.log <= w'.log
    && (ok ==> md in w.arrays && !Busy(w, disk) && ValidDevice(disk))
    && w' == (if ok then Added(w, md, disk) else w).(log := w'.log)
  }

  ghost predicate RemoveSpec(w: World, w': World, md: string, disk: string, ok: bool) {
    && w.log <= w'.log
    && (ok ==> md in w.arrays && disk in w.arrays[md].members)
    && w' == (if ok then Detached(w, md, disk) else w).(log := w'.log)
  }

  /** Every event of the later command comes after one of the first command. */
  predicate Ordered(s: seq<Event>, first: Cmd, later: Cmd) {
    s == [] || (Ordered(s[..|s| - 1], first, later)
                && (s[|s| - 1].cmd == later ==> exists e :: e in s[..|s| - 1] && e.cmd == first))
  }

  predicate InOrder(w: World, w': World, first: Cmd, later: Cmd) {
    Ordered(Since(w, w'), first, later)
  }

  /**
   * What holds when WipeDisk has reached wipefs: no mount source is the disk or one of its
   * partitions, and no array with such a member is mounted; each was told to stop before
   * the wipe and has left mdadm.conf.
   */
  ghost predicate WipeGuard(w: World, w': World, device: string, fileIO: bool) {
    && NoSource(w, device)
    && (forall md :: HasMemberOn(w, md, device) ==> !Mounted(w.mounts, md) && ToldToStop(w, w', md, device, fileIO))
  }

  predicate NoSource(w: World, device: string) {
    forall m :: m in w.mounts ==> !HasPrefix(m.dev, device)
  }

  /** Each stop directly follows a read of the mount table; if that worked, the array was not mounted. */
  ghost predicate StopsChecked(w: World, s: seq<Event>) {
    forall i :: 0 <= i < |s| && s[i].cmd.StopMd? ==>
      i >= 1 && s[i - 1].cmd == CatMounts && (s[i - 1].ok ==> !Mounted(w.mounts, s[i].cmd.md))
  }

  /** The array was told to stop right after the mount table had been read. */
  predicate SeenFree(s: seq<Event>, md: string) {
    exists i :: 1 <= i < |s| && s[i].cmd == StopMd(md) && s[i - 1] == Event(CatMounts, true)
  }

  /** WipeDisk has reached wipefs: the two reads come first, and what the second found was stopped. */
  ghost predicate WipeReached(w: World, w': World, device: string, fileIO: bool) {
    var s := Since(w, w');
    && |s| >= 2 && s[0].cmd == CatMounts && s[1].cmd == CatMdstat
    && (s[0].ok ==> NoSource(w, device))
    && StopsChecked(w, s)
    && (s[1].ok ==> forall md :: HasMemberOn(w, md, device) ==> ToldToStop(w, w', md, device, fileIO))
    && (!s[1].ok ==> forall md :: !Tried(w, w', StopMd(md)))
  }

  /** The array was told to stop before the wipe and has left mdadm.conf. */
  ghost predicate ToldToStop(w: World, w': World, md: string, device: string, fileIO: bool) {
    && Tried(w, w', StopMd(md)) && InOrder(w, w', StopMd(md), Wipefs(device))
    && (fileIO ==> NoArrayLine(w'.conf, md))
  }

  ghost predicate WipeDiskSpec(w: World, w': World, device: string, ok: bool, fileIO: bool) {
    && w.log <= w'.log && w'.mounts == w.mounts && w'.fstab == w.fstab && w'.nextUuid == w.nextUuid
    && (Tried(w, w', Wipefs(device)) ==> WipeReached(w, w', device, fileIO))
    && (ok <==> Did(w, w', Wipefs(device)))
    && (ok ==> device !in w'.disks)
    && (forall d :: d in w'.disks ==> d in w.disks && w'.disks[d] == w.disks[d])
    && (forall d :: d in w.disks && d != device ==> d in w'.disks)
    && (forall md :: md in w'.arrays ==> md in w.arrays && w'.arrays[md] == w.arrays[md])
    && (forall md :: md in w.arrays && md !in w'.arrays ==> HasMemberOn(w, md, device))
  }

  /** Every later event comes after the first one. */
  predicate After(s: seq<Event>, first: Event, later: Cmd -> bool) {
    forall i :: 0 <= i < |s| && later(s[i].cmd) ==> first in s[..i]
  }

  predicate IsErase(c: Cmd) {
    c.ZeroSuperblock? || c.Wipefs?
  }

  predicate IsStop(c: Cmd) {
    c.StopMd?
  }

  predicate IsMount(c: Cmd) {
    c.MountFs?
  }

  predicate IsMountOrAsk(c: Cmd) {
    c.MountFs? || c.Blkid?
  }

  predicate IsMkfs(c: Cmd) {
    c.Mkfs?
  }

  predicate NoneOf(s: seq<Event>, kind: Cmd -> bool) {
    forall i :: 0 <= i < |s| ==> !kind(s[i].cmd)
  }

  function StopTarget(w: World, w': World, md: string): string {
    if Did(w, w', Cmd.CatMounts) then MountTarget(w, md) else ""
  }

  /** The order of Stop: unmount and list the members, then stop, then erase. */
  ghost predicate StopOrder(w: World, w': World, md: string, ok: bool) {
    && (StopTarget(w, w', md) != "" ==>
          exists done :: After(Since(w, w'), Event(Umount(StopTarget(w, w', md)), done), IsStop))
    && (exists listed :: After(Since(w, w'), Event(Detail(md), listed), IsStop))
    && (if ok then After(Since(w, w'), Event(StopMd(md), true), IsErase) else NoneOf(Since(w, w'), IsErase))
  }

  // ---- The commands of Stop --------------------------------------------------

  /** Read the mount table and, if it shows a mount point, unmount that. */
  function ReleaseCmds(target: string): seq<Cmd> {
    [Cmd.CatMounts] + if target == "" then [] else [Umount(target)]
  }

  function MemberCmds(members: seq<string>): seq<Cmd> {
    if members == [] then []
    else MemberCmds(members[..|members| - 1]) + EraseCmds(members[|members| - 1])
  }

  function EraseCmds(d: string): seq<Cmd> {
    [ZeroSuperblock(d), Wipefs(d), Partprobe(d)]
  }

  /**
   * The commands of Stop, all of them and in this order, whatever fails: the mount is looked
   * up and taken down, the members are listed, `--stop` is tried, and after its success each
   * listed member is erased.
   */
  ghost predicate StopRan(w: World, w': World, md: string, members: seq<string>, ok: bool) {
    && Ran(w, w', ReleaseCmds(StopTarget(w, w', md)) + [Detail(md), StopMd(md)] + if ok then MemberCmds(members) else [])
    && (if Did(w, w', Detail(md))
        then md in w.arrays && (forall d :: d in w.arrays[md].members ==> d in members)
             && forall d :: d in members ==> d in w.arrays[md].members || d == md + ":"
        else members == [])
  }

  predicate MountPointOk(mountPoint: string) {
    HasPrefix(mountPoint, "/") && !ContainsAny(mountPoint, "\n\r\0\"'`")
  }

  lemma {:induction false} MountPointOkIff(mountPoint: string)
    ensures MountPointOk(mountPoint) <==>
              mountPoint != "" && mountPoint[0] == '/' && forall i :: 0 <= i < |mountPoint| ==> !Unquotable(mountPoint[i])
  {
    UnquotableIff(mountPoint);
  }

  /** The source field that fstabAdd writes for a device. */
  predicate SourceFor(src: string, device: string) {
    Token(src) && (src == device || HasPrefix(src, "UUID="))
  }

  /** The filesystem's uuid as blkid reports it, or the device when blkid failed. */
  function SourceOf(w: World, device: string, asked: bool): string {
    if asked && device in w.fsUuid then "UUID=" + w.fsUuid[device] else device
  }

  lemma {:induction false} SourceIsToken(w: World, device: string, asked: bool)
    requires Inv(w) && Token(device)
    ensures SourceFor(SourceOf(w, device, asked), device)
  {
  }

  predicate AddedLine(w: World, w': World, md: string, fsType: string, mountPoint: string) {
    w'.fstab == FstabAddText(w.fstab, FstabEntry(SourceOf(w', md, Did(w, w', Blkid(md))), mountPoint, fsType))
  }

  /** Mounting: either nothing changed, or the mount is there and its line was added. */
  ghost predicate MountSpec(w: World, w': World, md: string, fsType: string, mountPoint: string, ok: bool, fileIO: bool) {
    && w.log <= w'.log
    && w'.disks == w.disks && w'.arrays == w.arrays && w'.nextUuid == w.nextUuid
    && (!ok ==> w'.mounts == w.mounts && w'.fstab == w.fstab)
    && (ok ==>
          && ValidMDDevice(md) && MountPointOk(mountPoint) && CanMount(w, fsType, md, mountPoint)
          && w'.mounts == w.mounts + [NewMount(fsType, md, mountPoint)]
          && (fileIO ==> AddedLine(w, w', md, fsType, mountPoint)))
  }

  ghost predicate UnmountSpec(w: World, w': World, mountPoint: string, ok: bool, fileIO: bool) {
    && w.log <= w'.log
    && w'.disks == w.disks && w'.arrays == w.arrays && w'.nextUuid == w.nextUuid
    && (!ok ==> w'.mounts == w.mounts && w'.fstab == w.fstab)
    && (ok ==>
          && CanUmount(w.mounts, mountPoint) && w'.mounts == RemoveLast(w.mounts, mountPoint)
          && (fileIO ==> w'.fstab == FstabRemoveText(w.fstab, mountPoint)))
  }

  function DefaultMountPoint(md: string): string {
    "/srv/nas/" + TrimPrefix(md, "/dev/")
  }

  lemma {:induction false} DefaultUnderSrv(name: string)
    ensures DefaultMountPoint("/dev/" + name) == "/srv/nas/" + name
  {
    assert ("/dev/" + name)[|"/dev/"|..] == name;
  }

  /** The mount point assumed for an array that is not reported as mounted. */
  function FallbackTarget(w: World, md: string): string {
    var fm := FirstTarget(Lines(w.fstab), md);
    if fm != "" then fm else DefaultMountPoint(md)
  }

  /** Deleting a filesystem: three cases by what the scan of /proc/mounts said. */
  ghost predicate WipeFsSpec(w: World, w': World, md: string, ok: bool, fileIO: bool) {
    var target := if Did(w, w', Cmd.CatMounts) then MountTarget(w, md) else "";
    && w.log <= w'.log && w'.arrays == w.arrays && w'.nextUuid == w.nextUuid
    && (w'.disks == w.disks || w'.disks == w.disks - {md})
    && (!ValidMDDevice(md) ==> !ok && w' == w)
    && (ValidMDDevice(md) && target != "" && !Did(w, w', Umount(md)) ==>
          !ok && w'.mounts == w.mounts && w'.fstab == w.fstab)
    && (ValidMDDevice(md) && target != "" && Did(w, w', Umount(md)) ==>
          && w'.mounts == RemoveLast(w.mounts, md) && CanUmount(w.mounts, md)
          && (fileIO ==> w'.fstab == FstabRemoveText(w.fstab, target)))
    && (ValidMDDevice(md) && target == "" ==>
          && w'.mounts == w.mounts
          && (fileIO ==> w'.fstab == FstabRemoveText(w.fstab, FallbackTarget(w, md))))
  }

  /** It reports success exactly when wipefs succeeded, never before a mounted array is down. */
  ghost predicate WipeFsOrder(w: World, w': World, md: string, ok: bool) {
    && (ok <==> Did(w, w', Wipefs(md)))
    && (ok ==> md !in w'.disks)
    && (StopTarget(w, w', md) != "" ==> After(Since(w, w'), Event(Umount(md), true), IsErase))
  }

  // ---- The scanning and editing loops ----------------------------------------

  method FirstTargetOf(text: string, device: string) returns (target: string)
    ensures target == FirstTarget(Lines(text), device)
  {
    var ls := Lines(text);
    var i := 0;
    while i < |ls|
      invariant 0 <= i <= |ls|
      invariant FirstTarget(ls, device) == FirstTarget(ls[i..], device)
    {
      var f := Fields(ls[i]);
      if |f| >= 2 && f[0] == device {
        return f[1];
      }
      i := i + 1;
    }
    return "";
  }

  method AnySource(text: string, device: string) returns (found: bool)
    ensures found == AnySourceWithPrefix(Lines(text), device)
  {
    var ls := Lines(text);
    var i := 0;
    while i < |ls|
      invariant 0 <= i <= |ls|
      invariant AnySourceWithPrefix(ls, device) == AnySourceWithPrefix(ls[i..], device)
    {
      var f := Fields(ls[i]);
      if |f| >= 1 && (f[0] == device || HasPrefix(f[0], device)) {
        return true;
      }
      i := i + 1;
    }
    return false;
  }

  method AnyTokenOf(fields: seq<string>, base: string) returns (found: bool)
    ensures found == AnyMemberToken(fields, base)
  {
    var j := 0;
    while j < |fields|
      invariant 0 <= j <= |fields|
      invariant forall k :: 0 <= k < j ==> !MemberToken(fields[k], base)
    {
      var f := fields[j];
      var i := IndexOf(f, '[');
      if i > 0 {
        var mb := f[..i];
        if mb == base || HasPrefix(mb, base) {
          assert MemberToken(fields[j], base);
          return true;
        }
      }
      j := j + 1;
    }
    return false;
  }

  method ScanLineOf(line: string, base: string) returns (arrays: seq<string>)
    ensures arrays == ScanLine(line, base)
  {
    if !HasPrefix(line, "md") {
      return [];
    }
    var name := Split(line, ' ')[0];
    var found := AnyTokenOf(Fields(line), base);
    return if found then ["/dev/" + name] else [];
  }

  method ScanForDisk(text: string, base: string) returns (arrays: seq<string>)
    ensures arrays == ScanMdstat(Lines(text), base)
  {
    var ls := Lines(text);
    arrays := [];
    var i := 0;
    while i < |ls|
      invariant 0 <= i <= |ls|
      invariant arrays + ScanMdstat(ls[i..], base) == ScanMdstat(ls, base)
    {
      ScanStep(ls, i, base);
      var found := ScanLineOf(ls[i], base);
      Associate(arrays, found, ScanMdstat(ls[i + 1..], base));
      arrays := arrays + found;
      i := i + 1;
    }
    assert ls[|ls|..] == [];
  }

  /** One line of `mdadm --detail`: a device named last, other than the array, not seen yet. */
  method NoteDevice(l: string, md: string, devs: seq<string>, seen: map<string, bool>)
    returns (devs': seq<string>, seen': map<string, bool>)
    requires forall d :: d in seen <==> d in devs
    ensures devs' == if NamesDevice(l, md) && LastField(l) !in devs then devs + [LastField(l)] else devs
    ensures forall d :: d in seen' <==> d in devs'
  {
    devs', seen' := devs, seen;
    var f := Fields(l);
    if |f| > 0 {
      var last := f[|f| - 1];
      if HasPrefix(last, "/dev/") && last != md && last !in seen {
        seen' := seen[last := true];
        devs' := devs + [last];
      }
    }
  }

  method ScanDetail(text: string, md: string) returns (devs: seq<string>)
    ensures devs == MembersIn(Lines(text), md)
  {
    var ls := Lines(text);
    devs := [];
    var seen: map<string, bool> := map[];
    var i := 0;
    while i < |ls|
      invariant 0 <= i <= |ls|
      invariant devs == MembersIn(ls[..i], md)
      invariant forall d :: d in seen <==> d in devs
    {
      MembersStep(ls, i, md);
      devs, seen := NoteDevice(ls[i], md, devs, seen);
      i := i + 1;
    }
    assert ls[..|ls|] == ls;
  }

  method ConfWithout(text: string, md: string) returns (out: string)
    ensures out == ConfRemoveText(text, md)
  {
    var ls := Lines(text);
    var kept: seq<string> := [];
    var i := 0;
    while i < |ls|
      invariant 0 <= i <= |ls|
      invariant kept == Reject(ls[..i], OfArray(md))
    {
      RejectStep(ls, i, OfArray(md));
      if !(HasPrefix(TrimSpace(ls[i]), "ARRAY") && Contains(ls[i], md)) {
        kept := kept + [ls[i]];
      }
      i := i + 1;
    }
    assert ls[..|ls|] == ls;
    return Unlines(kept);
  }

  method FstabWithout(text: string, mountPoint: string) returns (out: string)
    ensures out == FstabRemoveText(text, mountPoint)
  {
    var ls := Lines(text);
    var kept: seq<string> := [];
    var i := 0;
    while i < |ls|
      invariant 0 <= i <= |ls|
      invariant kept == Reject(ls[..i], AtMount(mountPoint))
    {
      RejectStep(ls, i, AtMount(mountPoint));
      var f := Fields(ls[i]);
      if !(|f| >= 2 && f[1] == mountPoint) {
        kept := kept + [ls[i]];
      }
      i := i + 1;
    }
    assert ls[..|ls|] == ls;
    return Unlines(kept);
  }

  method EntryPresent(text: string, entry: string) returns (found: bool)
    ensures found == HasEntry(text, entry)
  {
    var ls := Lines(text);
    var i := 0;
    while i < |ls|
      invariant 0 <= i <= |ls|
      invariant !EntryAmong(ls[..i], entry)
    {
      EntryAmongStep(ls, i, entry);
      if TrimSpace(ls[i]) == entry {
        EntryAmongPrefix(ls, i + 1, entry);
        return true;
      }
      i := i + 1;
    }
    assert ls[..|ls|] == ls;
    return false;
  }

  method KeyOf(line: string, md: string) returns (key: string)
    ensures key == ConfKey(Fields(line), md)
  {
    var toks := Fields(line);
    var i := 0;
    while i < |toks|
      invariant 0 <= i <= |toks|
      invariant ConfKey(toks, md) == ConfKey(toks[i..], md)
    {
      if HasPrefix(toks[i], "UUID=") {
        return toks[i];
      }
      i := i + 1;
    }
    return md;
  }

  // ---- Log bookkeeping -------------------------------------------------------

  lemma {:induction false} NothingYet(w: World)
    ensures forall c :: !Did(w, w, c) && !Tried(w, w, c)
  {
    assert Since(w, w) == [];
  }

  lemma {:induction false} SameLog(w: World, v: World, v': World)
    requires v.log == v'.log
    ensures forall c :: Did(w, v', c) <==> Did(w, v, c)
    ensures forall c :: Tried(w, v', c) <==> Tried(w, v, c)
  {
    assert Since(w, v') == Since(w, v);
  }

  lemma {:induction false} LogStep(w: World, v: World, cmd: Cmd, ok: bool, v': World)
    requires w.log <= v.log && v'.log == v.log + [Event(cmd, ok)]
    ensures w.log <= v'.log
    ensures forall c :: Did(w, v', c) <==> Did(w, v, c) || (c == cmd && ok)
    ensures forall c :: Tried(w, v', c) <==> Tried(w, v, c) || c == cmd
  {
    var s, s' := Since(w, v), Since(w, v');
    assert s' == s + [Event(cmd, ok)];
    assert forall e :: e in s' <==> e in s || e == Event(cmd, ok);
  }

  predicate BothTried(w: World, w': World, d: string) {
    Tried(w, w', ZeroSuperblock(d)) && Tried(w, w', Wipefs(d))
  }

  /** Since v only clean-up commands were run. */
  ghost predicate OnlyWipes(w: World, v: World, v': World) {
    forall c: Cmd :: !c.ZeroSuperblock? && !c.Wipefs? && !c.Partprobe? ==> (Did(w, v', c) <==> Did(w, v, c))
  }

  /** One step of the clean-up of the disk d. */
  ghost predicate MemberStep(w: World, v: World, v': World, d: string) {
    && v.log <= v'.log && w.log <= v'.log && DisksWiped(w, v') && OnlyWipes(w, v, v')
    && v' == v.(disks := v'.disks, fsUuid := v'.fsUuid, log := v'.log)
    && (forall x :: x in v.disks && x != d ==> x in v'.disks)
    && (forall c :: Tried(w, v, c) ==> Tried(w, v', c))
  }

  lemma {:induction false} MemberSteps(w: World, a: World, b: World, c: World, d: string)
    requires MemberStep(w, a, b, d) && MemberStep(w, b, c, d)
    ensures MemberStep(w, a, c, d)
  {
  }

  /** The first i members have been treated, and no other disk touched. */
  ghost predicate MembersDone(w: World, u: World, v: World, members: seq<string>, i: nat) {
    && i <= |members| && w.log <= v.log && u.log <= v.log && DisksWiped(w, v) && OnlyWipes(w, u, v)
    && v == u.(disks := v.disks, fsUuid := v.fsUuid, log := v.log)
    && (forall d :: d in w.disks && d !in v.disks ==> d in members)
    && (forall j :: 0 <= j < i ==> BothTried(w, v, members[j]))
  }

  lemma {:induction false} MemberDone(w: World, u: World, v: World, v': World, members: seq<string>, i: nat)
    requires i < |members| && MembersDone(w, u, v, members, i)
    requires MemberStep(w, v, v', members[i]) && BothTried(w, v', members[i])
    ensures MembersDone(w, u, v', members, i + 1)
  {
  }

  lemma {:induction false} WipeStep(w: World, v: World, cmd: Cmd, ok: bool, d: string, v': World)
    requires w.log <= v.log && DisksWiped(w, v)
    requires cmd == ZeroSuperblock(d) || cmd == Wipefs(d) || cmd == Partprobe(d)
    requires v'.log == v.log + [Event(cmd, ok)]
    requires v'.disks == if ok && !cmd.Partprobe? then v.disks - {d} else v.disks
    ensures w.log <= v'.log && DisksWiped(w, v') && OnlyWipes(w, v, v') && Tried(w, v', cmd)
    ensures forall c :: Tried(w, v, c) ==> Tried(w, v', c)
  {
    LogStep(w, v, cmd, ok, v');
    forall x | x in w.disks
      ensures x in v'.disks <==> !Cleaned(w, v', x)
    {
      assert Cleaned(w, v', x) <==> Cleaned(w, v, x) || (x == d && ok && !cmd.Partprobe?);
    }
  }

  lemma {:induction false} StopSoFar(w: World, u: World, x: World, md: string, listed: bool, ok: bool)
    requires w.log <= u.log && x.log == u.log + [Event(Detail(md), listed), Event(StopMd(md), ok)]
    requires forall c: Cmd :: Tried(w, u, c) ==> c.CatMounts? || c.Umount?
    ensures forall c: Cmd :: Tried(w, x, c) ==> c.CatMounts? || c.Umount? || c.Detail? || c.StopMd?
    ensures forall c: Cmd :: c.CatMounts? || c.Umount? ==> (Did(w, x, c) <==> Did(w, u, c))
    ensures Did(w, x, Detail(md)) <==> listed
    ensures Did(w, x, StopMd(md)) <==> ok
  {
    var v := u.(log := u.log + [Event(Detail(md), listed)]);
    LogStep(w, u, Detail(md), listed, v);
    LogStep(w, v, StopMd(md), ok, x);
    DidTried(w, u);
  }

  lemma {:induction false} NoWipeYet(w: World, x: World)
    requires forall c: Cmd :: Tried(w, x, c) ==> !c.ZeroSuperblock? && !c.Wipefs?
    ensures forall d :: !WipeTried(w, x, d) && !Cleaned(w, x, d)
  {
    DidTried(w, x);
  }

  /** The world once `mdadm --stop` has been tried. */
  ghost predicate Halted(w: World, u: World, x: World, md: string, members: seq<string>, listed: bool, ok: bool) {
    && w.log <= u.log && x.log == u.log + [Event(Detail(md), listed), Event(StopMd(md), ok)]
    && x == u.(arrays := x.arrays, conf := x.conf, log := x.log)
    && x.arrays == (if ok then u.arrays - {md} else u.arrays)
    && (ok ==> md in u.arrays)
    && (forall c: Cmd :: c.CatMounts? || c.Umount? ==> (Did(w, x, c) <==> Did(w, u, c)))
    && (Did(w, x, Detail(md)) <==> listed)
    && (Did(w, x, StopMd(md)) <==> ok)
    && (forall d :: !WipeTried(w, x, d) && !Cleaned(w, x, d))
    && (listed ==> md in u.arrays && forall d :: d in u.arrays[md].members ==> d in members)
    && (!listed ==> members == [])
    && (forall d :: d in members ==> md in u.arrays && (d in u.arrays[md].members || d == md + ":"))
  }

  lemma {:induction false} HaltConcludes(w: World, u: World, x: World, md: string, members: seq<string>, listed: bool,
        ok: bool)
    requires w.log <= u.log && x.log == u.log + [Event(Detail(md), listed), Event(StopMd(md), ok)]
    requires forall c: Cmd :: Tried(w, u, c) ==> c.CatMounts? || c.Umount?
    requires x == u.(arrays := x.arrays, conf := x.conf, log := x.log)
    requires x.arrays == (if ok then u.arrays - {md} else u.arrays) && (ok ==> md in u.arrays)
    requires listed ==> md in u.arrays && forall d :: d in u.arrays[md].members ==> d in members
    requires !listed ==> members == []
    requires forall d :: d in members ==> md in u.arrays && (d in u.arrays[md].members || d == md + ":")
    ensures Halted(w, u, x, md, members, listed, ok)
  {
    StopSoFar(w, u, x, md, listed, ok);
    NoWipeYet(w, x);
  }

  /** What --detail and --stop do when they do not fail by themselves. */
  predicate HaltWorks(u: World, md: string, listed: bool, ok: bool, works: Cmd -> bool) {
    && (works(Detail(md)) && md in u.arrays ==> listed)
    && (ok ==> md in u.arrays && !Mounted(u.mounts, md))
    && (works(StopMd(md)) && md in u.arrays && !Mounted(u.mounts, md) ==> ok)
  }

  /** The same for Stop: the mount point found is taken down, and then the array goes. */
  ghost predicate StopWorks(w: World, w': World, md: string, ok: bool, works: Cmd -> bool) {
    && ReleaseWorks(w, w', md, works)
    && (works(Detail(md)) && md in w.arrays ==> Did(w, w', Detail(md)))
    && (ok ==> md in w.arrays && !Mounted(w'.mounts, md))
    && (works(StopMd(md)) && md in w.arrays && !Mounted(w'.mounts, md) ==> ok)
  }

  lemma {:induction false} RanTwo(w: World, w': World, x: Cmd, xOk: bool, y: Cmd, yOk: bool)
    ensures w'.log == w.log + [Event(x, xOk), Event(y, yOk)] ==> Ran(w, w', [x, y])
  {
    if w'.log == w.log + [Event(x, xOk), Event(y, yOk)] {
      assert Since(w, w') == [Event(x, xOk), Event(y, yOk)];
    }
  }

  lemma {:induction false} RanThree(a: World, b: World, c: World, d: World, x: Cmd, y: Cmd, z: Cmd)
    ensures Ran(a, b, [x]) && Ran(b, c, [y]) && Ran(c, d, [z]) ==> Ran(a, d, [x, y, z])
  {
    RanThen(a, b, c, [x], [y]);
    RanThen(a, c, d, [x] + [y], [z]);
    assert [x] + [y] + [z] == [x, y, z];
  }

  lemma {:induction false} MemberRan(u: World, v: World, v': World, members: seq<string>, i: nat)
    requires i < |members|
    ensures Ran(u, v, MemberCmds(members[..i])) && Ran(v, v', EraseCmds(members[i])) ==>
              Ran(u, v', MemberCmds(members[..i + 1]))
  {
    RanThen(u, v, v', MemberCmds(members[..i]), EraseCmds(members[i]));
    assert members[..i + 1][..i] == members[..i];
  }

  /** The worlds of a Stop: at the start, with the mount released, after `--stop`, and at the end. */
  ghost predicate StopStages(w: World, u: World, x: World, w': World, md: string, members: seq<string>,
                             listed: bool, ok: bool) {
    && Halted(w, u, x, md, members, listed, ok) && u.arrays == w.arrays && w'.mounts == u.mounts
    && Ran(w, u, ReleaseCmds(StopTarget(w, u, md))) && Ran(x, w', if ok then MemberCmds(members) else [])
    && (Did(w, w', Detail(md)) <==> listed)
    && (forall c: Cmd :: c.CatMounts? || c.Umount? ==> (Did(w, w', c) <==> Did(w, u, c)))
  }

  predicate UmountWorks(w: World, u: World, target: string, works: Cmd -> bool) {
    target != "" && works(Umount(target)) && CanUmount(w.mounts, target) ==> Did(w, u, Umount(target))
  }

  /** What the first part of Stop does when nothing fails by itself. */
  ghost predicate ReleaseWorks(w: World, u: World, md: string, works: Cmd -> bool) {
    && (works(Cmd.CatMounts) ==> Did(w, u, Cmd.CatMounts))
    && UmountWorks(w, u, StopTarget(w, u, md), works)
  }

  lemma {:induction false} StopScript(w: World, u: World, x: World, w': World, md: string, members: seq<string>,
        listed: bool, ok: bool)
    ensures StopStages(w, u, x, w', md, members, listed, ok) ==> StopRan(w, w', md, members, ok)
  {
    if StopStages(w, u, x, w', md, members, listed, ok) {
      StagesRan(w, u, x, w', md, members, listed, ok);
    }
  }

  lemma {:induction false} StagesRan(w: World, u: World, x: World, w': World, md: string, members: seq<string>,
        listed: bool, ok: bool)
    requires StopStages(w, u, x, w', md, members, listed, ok)
    ensures StopRan(w, w', md, members, ok)
  {
    assert StopTarget(w, w', md) == StopTarget(w, u, md);
    var a, b, c := ReleaseCmds(StopTarget(w, u, md)), [Detail(md), StopMd(md)], if ok then MemberCmds(members) else [];
    RanTwo(u, x, Detail(md), listed, StopMd(md), ok);
    RanThen(w, u, x, a, b);
    RanThen(w, x, w', a + b, c);
  }

  ghost predicate PartsWork(w: World, u: World, md: string, listed: bool, ok: bool, works: Cmd -> bool) {
    ReleaseWorks(w, u, md, works) && HaltWorks(u, md, listed, ok, works)
  }

  lemma {:induction false} StopWorked(w: World, u: World, x: World, w': World, md: string, members: seq<string>,
        listed: bool, ok: bool, works: Cmd -> bool)
    ensures StopStages(w, u, x, w', md, members, listed, ok) && PartsWork(w, u, md, listed, ok, works) ==>
              StopWorks(w, w', md, ok, works)
  {
  }

  /** The members after the clean-up loop, which is run only if the array was stopped. */
  ghost predicate EraseDone(w: World, x: World, w': World, members: seq<string>, stopped: bool) {
    && w.log <= w'.log && x.log <= w'.log && DisksWiped(w, w') && OnlyWipes(w, x, w')
    && w' == x.(disks := w'.disks, fsUuid := w'.fsUuid, log := w'.log)
    && (!stopped || members == [] ==> w' == x)
    && (forall d :: d in w.disks && d !in w'.disks ==> d in members)
    && (stopped ==> forall d :: d in members ==> BothTried(w, w', d))
    && Ran(x, w', if stopped then MemberCmds(members) else [])
  }

  /** What is known when the members have been dealt with. */
  ghost predicate StopParts(w: World, u: World, x: World, w': World, md: string, members: seq<string>,
                            listed: bool, ok: bool, fileIO: bool) {
    && Inv(w) && ValidMDDevice(md) && Halted(w, u, x, md, members, listed, ok)
    && u == w.(mounts := u.mounts, fstab := u.fstab, log := u.log)
    && (forall c: Cmd :: Tried(w, u, c) ==> c.CatMounts? || c.Umount?)
    && StopFiles(w, u, md, fileIO) && EraseDone(w, x, w', members, ok)
    && (StopTarget(w, u, md) != "" ==> Tried(w, u, Umount(StopTarget(w, u, md))))
    && Ran(w, u, ReleaseCmds(StopTarget(w, u, md)))
  }

  lemma {:induction false} StopEnds(w: World, u: World, x: World, w': World, md: string, members: seq<string>,
        listed: bool, ok: bool, fileIO: bool, works: Cmd -> bool)
    ensures StopParts(w, u, x, w', md, members, listed, ok, fileIO) ==>
              StopSpec(w, w', md, ok) && StopFiles(w, w', md, fileIO) && StopOrder(w, w', md, ok)
              && StopRan(w, w', md, members, ok)
              && (PartsWork(w, u, md, listed, ok, works) ==> StopWorks(w, w', md, ok, works))
  {
    if StopParts(w, u, x, w', md, members, listed, ok, fileIO) {
      StopSpecEnds(w, u, x, w', md, members, listed, ok, fileIO);
      StopOrderEnds(w, u, x, w', md, members, listed, ok, fileIO);
      StopFilesEnd(w, u, x, w', md, members, listed, ok, fileIO);
      StopStaged(w, u, x, w', md, members, listed, ok, fileIO);
      StopScript(w, u, x, w', md, members, listed, ok);
      StopWorked(w, u, x, w', md, members, listed, ok, works);
    }
  }

  lemma {:induction false} StopSpecEnds(w: World, u: World, x: World, w': World, md: string, members: seq<string>,
        listed: bool, ok: bool, fileIO: bool)
    requires StopParts(w, u, x, w', md, members, listed, ok, fileIO)
    ensures StopSpec(w, w', md, ok)
  {
    if ok {
      StopConcludes(w, x, w', md, members, listed);
    } else {
      NotStopped(w, u, x, md);
    }
  }

  lemma {:induction false} StopOrderEnds(w: World, u: World, x: World, w': World, md: string, members: seq<string>,
        listed: bool, ok: bool, fileIO: bool)
    requires StopParts(w, u, x, w', md, members, listed, ok, fileIO)
    ensures StopOrder(w, w', md, ok)
  {
    StopOrdered(w, u, x, w', md, members, listed, ok);
  }

  lemma {:induction false} StopFilesEnd(w: World, u: World, x: World, w': World, md: string, members: seq<string>,
        listed: bool, ok: bool, fileIO: bool)
    requires StopParts(w, u, x, w', md, members, listed, ok, fileIO)
    ensures StopFiles(w, w', md, fileIO)
  {
    StopFilesKept(w, u, w', md, fileIO);
  }

  lemma {:induction false} StopStaged(w: World, u: World, x: World, w': World, md: string, members: seq<string>,
        listed: bool, ok: bool, fileIO: bool)
    requires StopParts(w, u, x, w', md, members, listed, ok, fileIO)
    ensures StopStages(w, u, x, w', md, members, listed, ok)
  {
  }

  lemma {:induction false} AfterSplit(s: seq<Event>, t: seq<Event>, first: Event, later: Cmd -> bool)
    requires first in s && NoneOf(s, later)
    ensures After(s + t, first, later)
  {
    forall i | |s| <= i < |s + t|
      ensures first in (s + t)[..i]
    {
      assert (s + t)[..i] == s + t[..i - |s|];
    }
  }

  lemma {:induction false} NoneTried(w: World, u: World, kind: Cmd -> bool)
    requires forall c :: Tried(w, u, c) ==> !kind(c)
    ensures NoneOf(Since(w, u), kind)
  {
    var s := Since(w, u);
    forall i | 0 <= i < |s|
      ensures !kind(s[i].cmd)
    {
      assert s[i] in s;
      assert Tried(w, u, s[i].cmd);
    }
  }

  lemma {:induction false} EventTried(w: World, v: World, cmd: Cmd) returns (ok: bool)
    requires Tried(w, v, cmd)
    ensures Event(cmd, ok) in Since(w, v)
  {
    var e :| e in Since(w, v) && e.cmd == cmd;
    ok := e.ok;
  }

  lemma {:induction false} CreateOrdered(w: World, v: World, u: World, w': World, md: string, level: string,
        devices: seq<string>, wiped: bool)
    requires v.log == w.log + [Event(CreateMd(md, level, devices), true)]
    requires u.log == v.log + [Event(Wipefs(md), wiped)] && u.log <= w'.log
    ensures CreateOrder(w, w', md, level, devices, true)
  {
    var c, e, t := Event(CreateMd(md, level, devices), true), Event(Wipefs(md), wiped), Since(u, w');
    assert Since(w, w') == [c] + ([e] + t);
    AfterSplit([c], [e] + t, c, IsErase);
    assert Since(w, w')[1] == e;
  }

  /** Earlier events of other commands do not matter. */
  lemma {:induction false} ScanSince(w: World, u: World, w': World, s: seq<Event>, c: Cmd)
    requires u.log == w.log + s && u.log <= w'.log && forall i :: 0 <= i < |s| ==> s[i].cmd != c
    ensures Did(w, w', c) <==> Did(u, w', c)
  {
    assert Since(w, w') == s + Since(u, w');
  }

  lemma {:induction false} CreateTrail(w: World, v: World, u: World, w': World, md: string, level: string,
        devices: seq<string>, wiped: bool)
    requires v.log == w.log + [Event(CreateMd(md, level, devices), true)]
    requires u.log == v.log + [Event(Wipefs(md), wiped)] && u.log <= w'.log
    ensures w.log <= w'.log && CreateOrder(w, w', md, level, devices, true)
    ensures Did(w, w', DetailScan(md)) == Did(u, w', DetailScan(md))
  {
    CreateOrdered(w, v, u, w', md, level, devices, wiped);
    ScanSince(w, u, w', [Event(CreateMd(md, level, devices), true), Event(Wipefs(md), wiped)], DetailScan(md));
  }

  lemma {:induction false} AsLogged(w: World, v: World, w': World, c: Cmd)
    requires w.log <= v.log && Did(w, v, c) && v.log <= w'.log
    ensures w.log <= w'.log && Did(w, w', c)
  {
    assert Since(w, w') == Since(w, v) + Since(v, w');
  }

  lemma {:induction false} SinceLog(w: World, w': World, s: seq<Event>)
    requires w'.log == w.log + s
    ensures Since(w, w') == s
  {
    assert (w.log + s)[|w.log|..] == s;
  }

  function MountEvents(md: string, mountPoint: string, fsType: string, asked: bool): seq<Event> {
    [Event(Mkdir(mountPoint), true), Event(MountFs(fsType, md, mountPoint), true), Event(Blkid(md), asked)]
  }

  lemma {:induction false} AskedIn(md: string, mountPoint: string, fsType: string, asked: bool)
    ensures Event(Blkid(md), true) in MountEvents(md, mountPoint, fsType, asked) <==> asked
    ensures NoneOf(MountEvents(md, mountPoint, fsType, asked), IsMkfs)
  {
    var s := MountEvents(md, mountPoint, fsType, asked);
    if asked {
      assert s[2] == Event(Blkid(md), true);
    } else {
      forall e | e in s
        ensures e != Event(Blkid(md), true)
      {
      }
    }
  }

  lemma {:induction false} MountLog(w: World, x: World, w': World, md: string, mountPoint: string, fsType: string,
        asked: bool)
    requires x.log == w.log + [Event(Mkdir(mountPoint), true)] + [Event(MountFs(fsType, md, mountPoint), true)]
    requires w'.log == x.log + [Event(Blkid(md), asked)]
    ensures Did(w, w', Blkid(md)) <==> asked
    ensures NoneOf(Since(w, w'), IsMkfs)
  {
    var a, b := [Event(Mkdir(mountPoint), true)], [Event(MountFs(fsType, md, mountPoint), true)];
    var c := [Event(Blkid(md), asked)];
    Associate(w.log + a, b, c);
    Associate(w.log, a, b + c);
    assert a + (b + c) == MountEvents(md, mountPoint, fsType, asked);
    SinceLog(w, w', MountEvents(md, mountPoint, fsType, asked));
    AskedIn(md, mountPoint, fsType, asked);
  }

  /** What mounting did after mkfs, seen from the beginning. */
  lemma {:induction false} MountFrom(w: World, u: World, v: World, w': World, md: string, fsType: string,
        mountPoint: string, ok: bool, fileIO: bool)
    requires Aside(w, u) && v == u.(fsUuid := v.fsUuid, log := u.log + [Event(Mkfs("mkfs." + fsType, md), true)])
    requires MountSpec(v, w', md, fsType, mountPoint, ok, fileIO)
    ensures MountSpec(w, w', md, fsType, mountPoint, ok, fileIO)
  {
    var m := Event(Mkfs("mkfs." + fsType, md), true);
    assert Since(w, v) == Since(w, u) + [m];
    assert Since(w, w') == Since(w, v) + Since(v, w');
    NoAsk(Since(w, u), md);
    assert Event(Blkid(md), true) !in Since(w, v);
  }

  lemma {:induction false} NoAsk(s: seq<Event>, md: string)
    requires NoneOf(s, IsMountOrAsk)
    ensures Event(Blkid(md), true) !in s && NoneOf(s, IsMount)
  {
    forall i | 0 <= i < |s|
      ensures s[i] != Event(Blkid(md), true) && !IsMount(s[i].cmd)
    {
      assert !IsMountOrAsk(s[i].cmd);
    }
  }

  lemma {:induction false} FormatOrdered(w: World, u: World, v: World, w': World, made: Event)
    requires Aside(w, u) && made.cmd.Mkfs?
    requires v.log == u.log + [made] && v.log <= w'.log && (made.ok || w'.log == v.log)
    ensures After(Since(w, w'), Event(made.cmd, true), IsMount)
  {
    var s, t := Since(w, u) + [made], Since(v, w');
    NoAsk(Since(w, u), "");
    assert Since(w, w') == s + t;
    if made.ok {
      AfterSplit(s, t, made, IsMount);
    } else {
      assert t == [];
    }
  }

  lemma {:induction false} NotErased(w: World, x: World, md: string)
    requires forall c: Cmd :: Tried(w, x, c) ==> c.CatMounts? || c.Umount?
    ensures NoneOf(Since(w, x), IsErase) && !Did(w, x, Wipefs(md))
  {
    NoneTried(w, x, IsErase);
    DidTried(w, x);
  }

  lemma {:induction false} WipeFsOrdered(w: World, x: World, w': World, md: string, ok: bool)
    requires w.log <= x.log <= w'.log && (ok ==> md !in w'.disks)
    requires forall c: Cmd :: Tried(w, x, c) ==> c.CatMounts? || c.Umount?
    requires forall e :: e in Since(x, w') ==> e.cmd.Wipefs? || e.cmd.Rmdir?
    requires ok <==> Event(Wipefs(md), true) in Since(x, w')
    requires Did(w, x, Cmd.CatMounts) && MountTarget(w, md) != "" ==> Did(w, x, Umount(md))
    ensures WipeFsOrder(w, w', md, ok)
  {
    var s, t := Since(w, x), Since(x, w');
    assert Since(w, w') == s + t;
    NotErased(w, x, md);
    assert Did(w, w', Cmd.CatMounts) <==> Did(w, x, Cmd.CatMounts);
    if StopTarget(w, x, md) != "" {
      AfterSplit(s, t, Event(Umount(md), true), IsErase);
    }
  }

  lemma {:induction false} StopOrdered(w: World, u: World, x: World, w': World, md: string, members: seq<string>,
        listed: bool, ok: bool)
    requires Halted(w, u, x, md, members, listed, ok) && x.log <= w'.log && (!ok ==> w'.log == x.log)
    requires forall c: Cmd :: Tried(w, u, c) ==> c.CatMounts? || c.Umount?
    requires StopTarget(w, w', md) == StopTarget(w, u, md)
    requires StopTarget(w, u, md) != "" ==> Tried(w, u, Umount(StopTarget(w, u, md)))
    ensures StopOrder(w, w', md, ok)
  {
    var s, d, k, t := Since(w, u), Event(Detail(md), listed), Event(StopMd(md), ok), Since(x, w');
    NoneTried(w, u, IsStop);
    NoneTried(w, u, IsErase);
    SinceAround(w, u, x, w', [d, k]);
    DetailFirst(s, d, k, t);
    if StopTarget(w, u, md) != "" {
      var done := EventTried(w, u, Umount(StopTarget(w, u, md)));
      UnmountFirst(s, Event(Umount(StopTarget(w, u, md)), done), d, k, t);
    }
    EraseLast(s, d, k, t, ok);
  }

  lemma {:induction false} SinceAround(w: World, u: World, x: World, w': World, es: seq<Event>)
    requires w.log <= u.log && x.log == u.log + es && x.log <= w'.log
    ensures Since(w, w') == Since(w, u) + es + Since(x, w')
  {
    assert w'.log == x.log + w'.log[|x.log|..];
    assert (u.log + es)[|w.log|..] == u.log[|w.log|..] + es;
  }

  lemma {:induction false} UnmountFirst(s: seq<Event>, um: Event, d: Event, k: Event, t: seq<Event>)
    requires um in s && NoneOf(s, IsStop)
    ensures After(s + [d, k] + t, um, IsStop)
  {
    AfterSplit(s, [d, k] + t, um, IsStop);
    assert s + [d, k] + t == s + ([d, k] + t);
  }

  lemma {:induction false} DetailFirst(s: seq<Event>, d: Event, k: Event, t: seq<Event>)
    requires NoneOf(s, IsStop) && d.cmd.Detail?
    ensures After(s + [d, k] + t, d, IsStop)
  {
    AfterSplit(s + [d], [k] + t, d, IsStop);
    assert s + [d, k] + t == (s + [d]) + ([k] + t);
  }

  lemma {:induction false} EraseLast(s: seq<Event>, d: Event, k: Event, t: seq<Event>, ok: bool)
    requires NoneOf(s, IsErase) && d.cmd.Detail? && k.cmd.StopMd? && (!ok ==> t == [])
    ensures if ok then After(s + [d, k] + t, k, IsErase) else NoneOf(s + [d, k] + t, IsErase)
  {
    if ok {
      AfterSplit(s + [d, k], t, k, IsErase);
    }
  }

  lemma {:induction false} NotStopped(w: World, u: World, x: World, md: string)
    requires w.log <= u.log && u == w.(mounts := u.mounts, fstab := u.fstab, log := u.log)
    requires exists members, listed :: Halted(w, u, x, md, members, listed, false)
    ensures StopSpec(w, x, md, false)
  {
  }

  lemma {:induction false} StopFilesKept(w: World, u: World, x: World, md: string, fileIO: bool)
    requires StopFiles(w, u, md, fileIO) && x.mounts == u.mounts && x.fstab == u.fstab
    requires forall c: Cmd :: c.CatMounts? || c.Umount? ==> (Did(w, x, c) <==> Did(w, u, c))
    ensures StopFiles(w, x, md, fileIO)
  {
  }

  lemma {:induction false} NothingMoreWiped(w: World, x: World, w': World)
    requires w'.log == x.log && forall d :: !WipeTried(w, x, d)
    ensures forall d :: !WipeTried(w, w', d)
  {
    SameLog(w, x, w');
    forall d
      ensures !WipeTried(w, w', d)
    {
      assert !WipeTried(w, x, d);
    }
  }

  lemma {:induction false} StopConcludes(w: World, x: World, w': World, md: string, members: seq<string>, listed: bool)
    requires Inv(w) && ValidMDDevice(md) && md in w.arrays
    requires w.log <= w'.log && w'.nextUuid == w.nextUuid && w'.arrays == w.arrays - {md}
    requires DisksWiped(w, w') && OnlyWipes(w, x, w')
    requires Did(w, x, StopMd(md)) && (Did(w, x, Detail(md)) <==> listed)
    requires listed ==> forall d :: d in w.arrays[md].members ==> d in members
    requires !listed ==> w'.disks == w.disks && w'.log == x.log && forall d :: !WipeTried(w, x, d)
    requires forall d :: d in members ==> d in w.arrays[md].members || d == md + ":"
    requires forall d :: d in w.disks && d !in w'.disks ==> d in members
    requires forall d :: d in members ==> BothTried(w, w', d)
    ensures StopSpec(w, w', md, true)
  {
    if !listed {
      NothingMoreWiped(w, x, w');
    }
    forall d | d in w.disks
      ensures d != md + ":"
    {
      ValidDeviceChars(d);
      assert (md + ":")[|md|] == ':';
    }
  }

  lemma {:induction false} DidTried(w: World, v: World)
    ensures forall c :: Did(w, v, c) ==> Tried(w, v, c)
  {
  }

  predicate HasMemberOn(w: World, md: string, device: string) {
    md in w.arrays && exists d :: d in w.arrays[md].members && HasPrefix(d, device)
  }

  predicate OfDisk(w: World, device: string, arrays: seq<string>) {
    forall md :: md in w.arrays && HasMemberOn(w, md, device) ==> md in arrays
  }

  predicate SameButLog(w: World, v: World) {
    v == w.(log := v.log)
  }

  /** Only listed arrays have gone. */
  ghost predicate ArraysShrunk(w: World, v: World, arrays: seq<string>) {
    && (forall md :: md in v.arrays ==> md in w.arrays && v.arrays[md] == w.arrays[md])
    && (forall md :: md in w.arrays && md !in v.arrays ==> md in arrays)
  }

  ghost predicate Handled(w: World, v: World, md: string, fileIO: bool) {
    Tried(w, v, StopMd(md)) && (fileIO ==> NoArrayLine(v.conf, md))
  }

  ghost predicate HandledUpto(w: World, v: World, arrays: seq<string>, n: nat, fileIO: bool) {
    n <= |arrays| && forall j :: 0 <= j < n ==> Handled(w, v, arrays[j], fileIO)
  }

  ghost predicate StopsOnly(w: World, v: World, arrays: seq<string>) {
    forall md :: Tried(w, v, StopMd(md)) ==> md in arrays
  }

  /** The first n arrays have been told to stop; u is the world before the loop. */
  ghost predicate Stopping(w: World, u: World, v: World, device: string, arrays: seq<string>, n: nat, fileIO: bool) {
    && w.log <= v.log && u.log <= v.log && !Tried(w, v, Wipefs(device)) && ArraysShrunk(w, v, arrays)
    && v == w.(arrays := v.arrays, conf := v.conf, log := v.log)
    && StopsChecked(w, Since(w, v)) && StopsOnly(w, v, arrays)
    && HandledUpto(w, v, arrays, n, fileIO)
  }

  /** What stopping one more array does; free tells that no mount of it was seen. */
  ghost predicate OneStopped(w: World, v: World, v': World, device: string, md: string, free: bool, fileIO: bool) {
    && v.log <= v'.log && !Tried(w, v', Wipefs(device))
    && v' == v.(arrays := v'.arrays, conf := v'.conf, log := v'.log)
    && (v'.arrays == v.arrays || v'.arrays == v.arrays - {md})
    && (StopsChecked(w, Since(w, v)) ==> StopsChecked(w, Since(w, v')))
    && (forall x :: Tried(w, v', StopMd(x)) ==> Tried(w, v, StopMd(x)) || x == md)
    && (free ==> Handled(w, v', md, fileIO))
    && (forall other :: Handled(w, v, other, fileIO) ==> Handled(w, v', other, fileIO))
  }

  lemma {:induction false} StoppingNext(w: World, u: World, v: World, v': World, device: string, arrays: seq<string>,
        i: nat, free: bool, fileIO: bool)
    requires i < |arrays| && Stopping(w, u, v, device, arrays, i, fileIO)
    requires OneStopped(w, v, v', device, arrays[i], free, fileIO)
    ensures Stopping(w, u, v', device, arrays, if free then i + 1 else i, fileIO)
  {
  }

  lemma {:induction false} CheckedRead(w: World, s: seq<Event>, read: bool)
    requires StopsChecked(w, s)
    ensures StopsChecked(w, s + [Event(CatMounts, read)])
  {
  }

  lemma {:induction false} CheckedStop(w: World, s: seq<Event>, read: bool, md: string, stopped: bool)
    requires StopsChecked(w, s) && (read ==> !Mounted(w.mounts, md))
    ensures StopsChecked(w, s + [Event(CatMounts, read), Event(StopMd(md), stopped)])
  {
  }

  lemma {:induction false} OnlyRead(w: World, u: World, v: World, read: bool)
    requires w.log <= u.log && v.log == u.log + [Event(CatMounts, read)]
    ensures StopsChecked(w, Since(w, u)) ==> StopsChecked(w, Since(w, v))
  {
    assert Since(w, v) == Since(w, u) + [Event(CatMounts, read)];
    if StopsChecked(w, Since(w, u)) {
      CheckedRead(w, Since(w, u), read);
    }
  }

  lemma {:induction false} ReadThenStop(w: World, u: World, x: World, read: bool, md: string, stopped: bool)
    requires w.log <= u.log && x.log == u.log + [Event(CatMounts, read)] + [Event(StopMd(md), stopped)]
    requires read ==> !Mounted(w.mounts, md)
    ensures StopsChecked(w, Since(w, u)) ==> StopsChecked(w, Since(w, x))
  {
    assert Since(w, x) == Since(w, u) + [Event(CatMounts, read), Event(StopMd(md), stopped)];
    if StopsChecked(w, Since(w, u)) {
      CheckedStop(w, Since(w, u), read, md, stopped);
    }
  }

  lemma {:induction false} BeforeStops(w: World, u: World, device: string, arrays: seq<string>, r0: bool, r1: bool,
        fileIO: bool)
    requires SameButLog(w, u) && u.log == w.log + [Event(CatMounts, r0), Event(CatMdstat, r1)]
    ensures Stopping(w, u, u, device, arrays, 0, fileIO)
  {
    TwoReads(w, u, r0, r1);
  }

  lemma {:induction false} TwoReads(w: World, u: World, r0: bool, r1: bool)
    requires u.log == w.log + [Event(CatMounts, r0), Event(CatMdstat, r1)]
    ensures StopsChecked(w, Since(w, u)) && forall c :: Tried(w, u, c) ==> c.CatMounts? || c.CatMdstat?
  {
    assert Since(w, u) == [Event(CatMounts, r0), Event(CatMdstat, r1)];
  }

  lemma {:induction false} CheckedTail(w: World, s: seq<Event>, t: seq<Event>)
    requires StopsChecked(w, s) && NoneOf(t, IsStop)
    ensures StopsChecked(w, s + t)
  {
    forall i | 0 <= i < |s + t| && (s + t)[i].cmd.StopMd?
      ensures i < |s|
    {
    }
  }

  lemma {:induction false} OrderStep(w: World, v: World, cmd: Cmd, ok: bool, v': World, first: Cmd, later: Cmd)
    requires w.log <= v.log && v'.log == v.log + [Event(cmd, ok)]
    requires InOrder(w, v, first, later) && (cmd == later ==> Tried(w, v, first))
    ensures InOrder(w, v', first, later)
  {
    var s, s' := Since(w, v), Since(w, v');
    assert s' == s + [Event(cmd, ok)];
    assert s'[..|s'| - 1] == s;
  }

  lemma {:induction false} UntriedOrdered(s: seq<Event>, first: Cmd, later: Cmd)
    requires forall e :: e in s ==> e.cmd != later
    ensures Ordered(s, first, later)
  {
    if s != [] {
      UntriedOrdered(s[..|s| - 1], first, later);
    }
  }

  lemma {:induction false} NoArrayLineKept(conf: string, md: string, other: string)
    requires NoArrayLine(conf, other)
    ensures NoArrayLine(ConfRemoveText(conf, md), other)
  {
    RejectedTextLines(conf, OfArray(md));
    assert TrimSpace("") == "";
  }

  /** Removing one array's lines from mdadm.conf brings no other array's lines back. */
  lemma {:induction false} HandledKept(w: World, u: World, v: World, md: string, other: string, fileIO: bool)
    requires forall c :: Tried(w, u, c) ==> Tried(w, v, c)
    requires v.conf == u.conf || v.conf == ConfRemoveText(u.conf, md)
    requires Handled(w, u, other, fileIO)
    ensures Handled(w, v, other, fileIO)
  {
    if fileIO {
      NoArrayLineKept(u.conf, md, other);
    }
  }

  lemma {:induction false} AllHandledKept(w: World, u: World, v: World, md: string, fileIO: bool)
    requires forall c :: Tried(w, u, c) ==> Tried(w, v, c)
    requires v.conf == u.conf || v.conf == ConfRemoveText(u.conf, md)
    ensures forall other :: Handled(w, u, other, fileIO) ==> Handled(w, v, other, fileIO)
  {
    forall other | Handled(w, u, other, fileIO)
      ensures Handled(w, v, other, fileIO)
    {
      HandledKept(w, u, v, md, other, fileIO);
    }
  }

  /** The final part of WipeDisk: superblock, signatures, partition table. */
  lemma {:induction false} WipeTail(w: World, x: World, y: World, z: World, w': World, device: string, md: string,
        zeroed: bool, ok: bool, probed: bool)
    requires w.log <= x.log && !Tried(w, x, Wipefs(device)) && Tried(w, x, StopMd(md))
    requires y.log == x.log + [Event(ZeroSuperblock(device), zeroed)]
    requires z.log == y.log + [Event(Wipefs(device), ok)]
    requires w'.log == if ok then z.log + [Event(Partprobe(device), probed)] else z.log
    ensures Tried(w, w', StopMd(md)) && InOrder(w, w', StopMd(md), Wipefs(device))
  {
    UntriedOrdered(Since(w, x), StopMd(md), Wipefs(device));
    LogStep(w, x, ZeroSuperblock(device), zeroed, y);
    OrderStep(w, x, ZeroSuperblock(device), zeroed, y, StopMd(md), Wipefs(device));
    LogStep(w, y, Wipefs(device), ok, z);
    OrderStep(w, y, Wipefs(device), ok, z, StopMd(md), Wipefs(device));
    if !ok {
      SameLog(w, z, w');
    } else {
      LogStep(w, z, Partprobe(device), probed, w');
      OrderStep(w, z, Partprobe(device), probed, w', StopMd(md), Wipefs(device));
    }
  }

  /** What the log says after the last commands of WipeDisk. */
  ghost predicate Erased(w: World, x: World, w': World, device: string, ok: bool) {
    && w.log <= x.log <= w'.log && NoneOf(Since(x, w'), IsStop)
    && (ok <==> Did(w, w', Wipefs(device)))
    && (forall md :: Tried(w, x, StopMd(md)) ==>
          Tried(w, w', StopMd(md)) && InOrder(w, w', StopMd(md), Wipefs(device)))
  }

  lemma {:induction false} WipeReachedNow(w: World, x: World, w': World, device: string, arrays: seq<string>,
        r0: bool, r1: bool, ok: bool, fileIO: bool)
    requires w.log + [Event(CatMounts, r0), Event(CatMdstat, r1)] <= x.log
    requires Erased(w, x, w', device, ok) && x.conf == w'.conf
    requires StopsChecked(w, Since(w, x)) && StopsOnly(w, x, arrays)
    requires r0 ==> NoSource(w, device)
    requires r1 ==> OfDisk(w, device, arrays) && forall md :: md in arrays ==> Handled(w, x, md, fileIO)
    requires !r1 ==> arrays == []
    ensures WipeReached(w, w', device, fileIO)
  {
    var s, t := Since(w, x), Since(x, w');
    assert Since(w, w') == s + t;
    CheckedTail(w, s, t);
    assert s[0] == x.log[|w.log|] == Event(CatMounts, r0);
    assert s[1] == x.log[|w.log| + 1] == Event(CatMdstat, r1);
    forall md | Tried(w, w', StopMd(md))
      ensures Tried(w, x, StopMd(md))
    {
      StopTriedBefore(s, t, md);
    }
  }

  lemma {:induction false} StopTriedBefore(s: seq<Event>, t: seq<Event>, md: string)
    requires NoneOf(t, IsStop) && exists e :: e in s + t && e.cmd == StopMd(md)
    ensures exists e :: e in s && e.cmd == StopMd(md)
  {
    forall i | 0 <= i < |t|
      ensures t[i].cmd != StopMd(md)
    {
      assert !IsStop(t[i].cmd);
    }
  }

  lemma {:induction false} WipeDiskConcludes(w: World, x: World, w': World, device: string, arrays: seq<string>,
        ok: bool, fileIO: bool)
    requires x == w.(arrays := x.arrays, conf := x.conf, log := x.log) && ArraysShrunk(w, x, arrays)
    requires forall md :: md in arrays ==> HasMemberOn(w, md, device)
    requires w' == x.(disks := w'.disks, fsUuid := w'.fsUuid, log := w'.log)
    requires w'.disks == x.disks || w'.disks == x.disks - {device}
    requires ok ==> device !in w'.disks
    requires Erased(w, x, w', device, ok) && WipeReached(w, w', device, fileIO)
    ensures WipeDiskSpec(w, w', device, ok, fileIO)
  {
  }

  lemma {:induction false} NoStopInTail(x: World, y: World, z: World, w': World, device: string, zeroed: bool,
        ok: bool, probed: bool)
    requires y.log == x.log + [Event(ZeroSuperblock(device), zeroed)]
    requires z.log == y.log + [Event(Wipefs(device), ok)]
    requires w'.log == if ok then z.log + [Event(Partprobe(device), probed)] else z.log
    ensures x.log <= w'.log && NoneOf(Since(x, w'), IsStop)
  {
    assert Since(x, w') == [Event(ZeroSuperblock(device), zeroed), Event(Wipefs(device), ok)]
                         + if ok then [Event(Partprobe(device), probed)] else [];
  }

  lemma {:induction false} WipeTailLog(w: World, x: World, y: World, z: World, w': World, device: string,
        zeroed: bool, ok: bool, probed: bool)
    requires w.log <= x.log && !Tried(w, x, Wipefs(device))
    requires y.log == x.log + [Event(ZeroSuperblock(device), zeroed)]
    requires z.log == y.log + [Event(Wipefs(device), ok)]
    requires w'.log == if ok then z.log + [Event(Partprobe(device), probed)] else z.log
    ensures Erased(w, x, w', device, ok)
  {
    DidTried(w, x);
    LogStep(w, x, ZeroSuperblock(device), zeroed, y);
    LogStep(w, y, Wipefs(device), ok, z);
    NoStopInTail(x, y, z, w', device, zeroed, ok, probed);
    if !ok {
      SameLog(w, z, w');
    } else {
      LogStep(w, z, Partprobe(device), probed, w');
    }
    forall md | Tried(w, x, StopMd(md))
      ensures Tried(w, w', StopMd(md)) && InOrder(w, w', StopMd(md), Wipefs(device))
    {
      WipeTail(w, x, y, z, w', device, md, zeroed, ok, probed);
    }
  }

  predicate SupportedFs(fsType: string) {
    fsType in ["ext4", "ext3", "btrfs", "xfs"]
  }

  function MkfsPackage(fsType: string): string {
    if fsType == "btrfs" then "btrfs-progs" else if fsType == "xfs" then "xfsprogs" else "e2fsprogs"
  }

  /** The filesystems that can be made, and which package has each tool. */
  lemma {:induction false} FilesystemTable(fsType: string)
    ensures SupportedFs(fsType) <==> fsType == "ext4" || fsType == "ext3" || fsType == "btrfs" || fsType == "xfs"
    ensures fsType == "ext4" || fsType == "ext3" ==> MkfsPackage(fsType) == "e2fsprogs"
    ensures MkfsPackage("btrfs") == "btrfs-progs" && MkfsPackage("xfs") == "xfsprogs"
  {
    assert "ext4"[0] == 'e' && "ext3"[0] == 'e' && "btrfs"[0] == 'b' && "xfs"[0] == 'x';
  }

  /** Nothing of the world has changed and nothing was mounted. */
  predicate Aside(w: World, v: World) {
    w.log <= v.log && v == w.(log := v.log) && NoneOf(Since(w, v), IsMountOrAsk)
  }

  /** Found at once, or after one attempt to install it, or (with an update) after two. */
  predicate ToolTrail(s: seq<Event>, tool: string, pkg: string, ok: bool) {
    || (ok && s == [Event(HasTool(tool), true)])
    || (|s| >= 4 && s[0] == Event(HasTool(tool), false) && s[1].cmd == AptInstall(pkg) && s[2].cmd == HasTool(tool)
        && (if s[2].ok then |s| == 4 else |s| == 5 && s[3].cmd == AptInstall(pkg))
        && s[|s| - 1] == Event(HasTool(tool), ok))
  }

  lemma {:induction false} TrailIs(s0: seq<Event>, s1: seq<Event>, tool: string, pkg: string, h1: bool, ok: bool)
    requires s0 == [Event(HasTool(tool), false)]
    requires |s1| == (if h1 then 2 else 3) && s1[0].cmd == AptInstall(pkg) && s1[1] == Event(HasTool(tool), h1)
    requires h1 || s1[2].cmd == AptInstall(pkg)
    ensures ToolTrail(s0 + s1 + [Event(HasTool(tool), ok)], tool, pkg, ok)
  {
  }

  lemma {:induction false} AsideStep(w: World, v: World, e: Event, v': World)
    requires Aside(w, v) && !IsMountOrAsk(e.cmd) && v' == v.(log := v.log + [e])
    ensures Aside(w, v') && Since(w, v') == Since(w, v) + [e]
  {
    assert Since(w, v') == Since(w, v) + [e];
  }

  lemma {:induction false} WipeFsConcludes(w: World, x: World, w': World, md: string, target: string, ok: bool,
        fileIO: bool)
    requires ValidMDDevice(md) && w.log <= x.log && x.log <= w'.log
    requires w' == x.(disks := w'.disks, fsUuid := w'.fsUuid, log := w'.log)
    requires forall e :: e in Since(x, w') ==> e.cmd.Wipefs? || e.cmd.Rmdir?
    requires x.arrays == w.arrays && x.nextUuid == w.nextUuid
    requires x.disks == w.disks && (w'.disks == x.disks || w'.disks == x.disks - {md})
    requires target == if Did(w, x, Cmd.CatMounts) then MountTarget(w, md) else ""
    requires target != "" ==> Did(w, x, Umount(md)) && x.mounts == RemoveLast(w.mounts, md) && CanUmount(w.mounts, md)
    requires target != "" && fileIO ==> x.fstab == FstabRemoveText(w.fstab, target)
    requires target == "" ==> x.mounts == w.mounts
    requires target == "" && fileIO ==> x.fstab == FstabRemoveText(w.fstab, FallbackTarget(w, md))
    ensures WipeFsSpec(w, w', md, ok, fileIO)
  {
    assert Since(w, w') == Since(w, x) + Since(x, w');
    forall c: Cmd | c.CatMounts? || c.Umount?
      ensures Did(w, w', c) <==> Did(w, x, c)
    {
      assert Event(c, true) !in Since(x, w');
    }
  }

  // ---- When the operations succeed -------------------------------------------

  /** No command fails by itself; what the kernel refuses still does. */
  ghost predicate AllWork(works: Cmd -> bool) {
    forall c :: works(c)
  }

  /** update-initramfs is run exactly when mdadm.conf has grown. */
  function InitramfsCmds(w: World, w': World): seq<Cmd> {
    if w'.conf == w.conf then [] else [UpdateInitramfs]
  }

  function PersistCmds(w: World, w': World, md: string): seq<Cmd> {
    [DetailScan(md)] + InitramfsCmds(w, w')
  }

  /** What a successful Create runs. */
  predicate CreateRan(w: World, w': World, md: string, level: string, devices: seq<string>) {
    Ran(w, w', [CreateMd(md, level, devices)] + ([Wipefs(md)] + PersistCmds(w, w', md)))
  }

  lemma {:induction false} CreateScript(w: World, v: World, w': World, md: string, level: string, devices: seq<string>)
    requires Ran(w, v, [CreateMd(md, level, devices)]) && v.conf == w.conf
    requires Ran(v, w', [Wipefs(md)] + PersistCmds(v, w', md))
    ensures CreateRan(w, w', md, level, devices)
  {
    RanThen(w, v, w', [CreateMd(md, level, devices)], [Wipefs(md)] + PersistCmds(v, w', md));
  }

  function MountCmds(md: string, fsType: string, mountPoint: string): seq<Cmd> {
    [Mkdir(mountPoint), MountFs(fsType, md, mountPoint), Blkid(md)]
  }

  lemma {:induction false} ShownIfMounted(w: World, md: string)
    requires Inv(w)
    ensures ValidMDDevice(md) ==> (MountTarget(w, md) != "" <==> Mounted(w.mounts, md))
    ensures Mounted(w.mounts, md) ==> CanUmount(w.mounts, md)
  {
    if ValidMDDevice(md) {
      ValidDeviceChars(md);
      FindMountPointExact(w.mounts, md);
    }
    if Mounted(w.mounts, md) {
      var m :| m in w.mounts && m.dev == md;
      assert UmountMatches(m, md);
    }
  }

  /** Whether the array is held once its last mount is gone. */
  predicate HeldAfter(w: World, md: string) {
    IsMember(w, md) || Mounted(RemoveLast(w.mounts, md), md)
  }

  lemma {:induction false} TakenDown(w: World, v: World, md: string)
    requires v.arrays == w.arrays
    ensures v.mounts == RemoveLast(w.mounts, md) || (v.mounts == w.mounts && !Mounted(w.mounts, md)) ==>
              (Busy(v, md) <==> HeldAfter(w, md))
  {
  }

  function EraseEvents(device: string, zeroed: bool, ok: bool, probed: bool): seq<Event> {
    [Event(ZeroSuperblock(device), zeroed), Event(Wipefs(device), ok)]
    + if ok then [Event(Partprobe(device), probed)] else []
  }

  lemma {:induction false} EraseLogged(w: World, x: World, w': World, device: string, zeroed: bool, ok: bool,
        probed: bool)
    requires w.log <= x.log && !Tried(w, x, Wipefs(device)) && w'.log == x.log + EraseEvents(device, zeroed, ok, probed)
    ensures Erased(w, x, w', device, ok)
    ensures ok ==> Ran(x, w', EraseCmds(device))
  {
    var y := x.(log := x.log + [Event(ZeroSuperblock(device), zeroed)]);
    var z := y.(log := y.log + [Event(Wipefs(device), ok)]);
    assert w'.log == if ok then z.log + [Event(Partprobe(device), probed)] else z.log;
    WipeTailLog(w, x, y, z, w', device, zeroed, ok, probed);
    RanOne(x, y, ZeroSuperblock(device), zeroed);
    RanOne(y, z, Wipefs(device), ok);
    RanOne(z, w', Partprobe(device), probed);
    RanThree(x, y, z, w', ZeroSuperblock(device), Wipefs(device), Partprobe(device));
  }

  /** Which levels there are and how many disks each needs. */
  lemma {:induction false} LevelTable(md: string, level: string, devices: seq<string>)
    ensures CreateArgsOk(md, level, devices) <==>
              ValidMDDevice(md) && (forall d :: d in devices ==> ValidDevice(d))
              && (|| (level in ["0", "1", "linear"] && |devices| >= 2)
                  || (level == "5" && |devices| >= 3)
                  || (level in ["6", "10"] && |devices| >= 4))
  {
    assert "0" != "5" && "0" != "6" && "0" != "10" && "1" != "5" && "1" != "6" && "1" != "10";
    assert "linear"[0] == 'l';
  }

  /** WipeDisk may go ahead: nothing of the disk is mounted, nor any array with a member there. */
  ghost predicate Wipeable(w: World, device: string) {
    && ValidDevice(device) && NoSource(w, device)
    && forall md :: HasMemberOn(w, md, device) ==> !Mounted(w.mounts, md)
  }

  function StopCmds(arrays: seq<string>): seq<Cmd> {
    if arrays == [] then []
    else StopCmds(arrays[..|arrays| - 1]) + [Cmd.CatMounts, StopMd(arrays[|arrays| - 1])]
  }

  lemma {:induction false} ReadStopRan(u: World, v: World, w': World, md: string, read: bool)
    ensures v.log == u.log + [Event(CatMounts, read)] && Ran(v, w', [StopMd(md)]) ==>
              Ran(u, w', [Cmd.CatMounts, StopMd(md)])
  {
    RanOne(u, v, Cmd.CatMounts, read);
    RanThen(u, v, w', [Cmd.CatMounts], [StopMd(md)]);
    assert [Cmd.CatMounts] + [StopMd(md)] == [Cmd.CatMounts, StopMd(md)];
  }

  /** What StopAndForget leaves: the array told to stop, its lines gone from mdadm.conf. */
  ghost predicate Forgotten(w: World, u: World, v: World, w': World, md: string, fileIO: bool) {
    && v.log <= w'.log
    && w' == v.(arrays := w'.arrays, conf := w'.conf, log := w'.log)
    && (w'.arrays == v.arrays || w'.arrays == v.arrays - {md})
    && (w'.conf == v.conf || w'.conf == ConfRemoveText(v.conf, md))
    && (StopsChecked(w, Since(w, u)) ==> StopsChecked(w, Since(w, w')))
    && (forall c :: Tried(w, w', c) <==> Tried(w, v, c) || c == StopMd(md))
    && (fileIO ==> NoArrayLine(w'.conf, md))
    && Ran(v, w', [StopMd(md)])
  }

  lemma {:induction false} ForgottenNow(w: World, u: World, v: World, x: World, w': World, md: string, read: bool,
        stopped: bool, wrote: bool, fileIO: bool)
    requires w.log <= u.log && v.log == u.log + [Event(CatMounts, read)] && (read ==> !Mounted(w.mounts, md))
    requires x == v.(arrays := x.arrays, log := v.log + [Event(StopMd(md), stopped)])
    requires x.arrays == v.arrays || x.arrays == v.arrays - {md}
    requires w' == x.(conf := w'.conf) && w'.conf == (if wrote then ConfRemoveText(x.conf, md) else x.conf)
    requires fileIO ==> wrote
    ensures Forgotten(w, u, v, w', md, fileIO)
  {
    LogStep(w, v, StopMd(md), stopped, w');
    RanOne(v, w', StopMd(md), stopped);
    ReadThenStop(w, u, w', read, md, stopped);
    ConfForgets(v.conf, md);
  }

  lemma {:induction false} ConfForgets(conf: string, md: string)
    ensures NoArrayLine(ConfRemoveText(conf, md), md)
  {
    ConfRemoveIsFilter(conf, md);
  }

  /** One turn of the loop: the mount table was read, and the array told to stop if it was free. */
  ghost predicate OneTurn(w: World, u: World, v: World, w': World, device: string, md: string, read: bool, free: bool,
                          fileIO: bool) {
    && w.log <= u.log && !Tried(w, u, Wipefs(device)) && v == u.(log := u.log + [Event(CatMounts, read)])
    && (forall c :: Tried(w, v, c) <==> Tried(w, u, c) || c == Cmd.CatMounts)
    && (if free then Forgotten(w, u, v, w', md, fileIO) else w' == v)
  }

  lemma {:induction false} StoppedOrNot(w: World, u: World, v: World, w': World, device: string, md: string,
        read: bool, free: bool, fileIO: bool)
    ensures OneTurn(w, u, v, w', device, md, read, free, fileIO) ==>
              OneStopped(w, u, w', device, md, free, fileIO) && (free ==> Ran(u, w', [Cmd.CatMounts, StopMd(md)]))
  {
    if OneTurn(w, u, v, w', device, md, read, free, fileIO) {
      OnlyRead(w, u, v, read);
      ReadStopRan(u, v, w', md, read);
      AllHandledKept(w, u, w', md, fileIO);
    }
  }

  lemma {:induction false} StopCmdsNext(u: World, v: World, v': World, arrays: seq<string>, i: nat)
    requires i < |arrays|
    ensures Ran(u, v, StopCmds(arrays[..i])) && Ran(v, v', [Cmd.CatMounts, StopMd(arrays[i])]) ==>
              Ran(u, v', StopCmds(arrays[..i + 1]))
  {
    RanThen(u, v, v', StopCmds(arrays[..i]), [Cmd.CatMounts, StopMd(arrays[i])]);
    assert arrays[..i + 1][..i] == arrays[..i];
  }

  /** The loop over the arrays, as far as it went, when no command fails by itself. */
  ghost predicate StopsWork(w: World, v: World, arrays: seq<string>, n: nat, works: Cmd -> bool) {
    n <= |arrays| && (AllWork(works) ==> forall j :: 0 <= j < n ==> !Mounted(w.mounts, arrays[j]) && arrays[j] !in v.arrays)
  }

  lemma {:induction false} StopsWorkNext(w: World, v: World, v': World, arrays: seq<string>, n: nat, works: Cmd -> bool)
    requires n < |arrays| && StopsWork(w, v, arrays, n, works)
    requires v'.arrays == v.arrays || v'.arrays == v.arrays - {arrays[n]}
    requires AllWork(works) ==> !Mounted(w.mounts, arrays[n]) && arrays[n] !in v'.arrays
    ensures StopsWork(w, v', arrays, n + 1, works)
  {
  }

  /** After the stops nothing holds the disk any more. */
  lemma {:induction false} StoppedFreesDisk(w: World, x: World, device: string, arrays: seq<string>)
    requires ValidDevice(device) && NoSource(w, device) && x.mounts == w.mounts && ArraysShrunk(w, x, arrays)
    requires OfDisk(w, device, arrays) && forall j :: 0 <= j < |arrays| ==> arrays[j] !in x.arrays
    ensures !Busy(x, device)
  {
    if IsMember(x, device) {
      var md :| md in x.arrays && device in x.arrays[md].members;
      assert HasMemberOn(w, md, device);
    }
  }

  lemma {:induction false} StopsFreeDisk(w: World, x: World, device: string, arrays: seq<string>, works: Cmd -> bool)
    ensures AllWork(works) && StopsWork(w, x, arrays, |arrays|, works) && OfDisk(w, device, arrays)
            && ValidDevice(device) && NoSource(w, device) && x.mounts == w.mounts && ArraysShrunk(w, x, arrays) ==>
              !Busy(x, device) && Wipeable(w, device)
  {
    if AllWork(works) && StopsWork(w, x, arrays, |arrays|, works) && OfDisk(w, device, arrays)
      && ValidDevice(device) && NoSource(w, device) && x.mounts == w.mounts && ArraysShrunk(w, x, arrays) {
      StoppedFreesDisk(w, x, device, arrays);
      forall md | HasMemberOn(w, md, device)
        ensures !Mounted(w.mounts, md)
      {
        assert md in arrays;
      }
    }
  }

  lemma {:induction false} WipeScript(w: World, u: World, x: World, w': World, device: string, arrays: seq<string>,
        r0: bool, r1: bool, ok: bool)
    requires u.log == w.log + [Event(CatMounts, r0), Event(CatMdstat, r1)]
    requires Ran(u, x, StopCmds(arrays)) && (ok ==> Ran(x, w', EraseCmds(device)))
    ensures ok ==> WipeRan(w, w', device)
  {
    var a := [Cmd.CatMounts, Cmd.CatMdstat];
    assert Since(w, u) == [Event(CatMounts, r0), Event(CatMdstat, r1)];
    assert Ran(w, u, a);
    RanThen(w, u, x, a, StopCmds(arrays));
    if ok {
      RanThen(w, x, w', a + StopCmds(arrays), EraseCmds(device));
    }
  }

  /** What WipeDisk runs when it succeeds. */
  ghost predicate WipeRan(w: World, w': World, device: string) {
    exists arrays :: Ran(w, w', [Cmd.CatMounts, Cmd.CatMdstat] + StopCmds(arrays) + EraseCmds(device))
  }

  // ---- What Stop achieves ----------------------------------------------------

  /**
   * The first command reads the mount table. If that worked and the array is mounted, the
   * umount of what the table shows was tried and the fstab lines of it are gone; and `--stop`
   * is tried whatever happened.
   */
  lemma {:induction false} StopReleases(w: World, w': World, md: string, members: seq<string>, ok: bool)
    requires Inv(w) && ValidMDDevice(md) && StopRan(w, w', md, members, ok) && StopFiles(w, w', md, true)
    ensures Since(w, w') != [] && Since(w, w')[0].cmd == Cmd.CatMounts && Tried(w, w', StopMd(md))
    ensures Since(w, w')[0].ok && Mounted(w.mounts, md) ==>
              var target := MountTarget(w, md);
              target != "" && Tried(w, w', Umount(target)) && !HasLineAt(w'.fstab, target)
    ensures forall m :: OnlyAt(w.mounts, m) && m.dev == md ==> MountTarget(w, md) == m.mountPoint
  {
    var s, t := Since(w, w'), StopTarget(w, w', md);
    StopTries(w, w', md, members, ok);
    ValidDeviceChars(md);
    FindMountPointExact(w.mounts, md);
    if s[0].ok && Mounted(w.mounts, md) {
      assert s[0] == Event(Cmd.CatMounts, true);
      RemoveIsFilter(w.fstab, t);
    }
  }

  lemma {:induction false} StopTries(w: World, w': World, md: string, members: seq<string>, ok: bool)
    requires StopRan(w, w', md, members, ok)
    ensures var s, t := Since(w, w'), StopTarget(w, w', md);
            && s != [] && s[0].cmd == Cmd.CatMounts && s[0] in s && Tried(w, w', StopMd(md))
            && (t != "" ==> Tried(w, w', Umount(t)))
  {
    var r := ReleaseCmds(StopTarget(w, w', md));
    var tail := if ok then MemberCmds(members) else [];
    var cmds := r + [Detail(md), StopMd(md)] + tail;
    StopPlace(r, Detail(md), StopMd(md), tail);
    RanAt(w, w', cmds, 0);
    RanAt(w, w', cmds, |r| + 1);
    if |r| > 1 {
      RanAt(w, w', cmds, 1);
    }
  }

  lemma {:induction false} StopPlace(r: seq<Cmd>, d: Cmd, k: Cmd, tail: seq<Cmd>)
    ensures var cmds := r + [d, k] + tail; |r| + 1 < |cmds| && cmds[|r| + 1] == k && forall i :: 0 <= i < |r| ==> cmds[i] == r[i]
  {
  }

  lemma {:induction false} RanAt(w: World, w': World, cmds: seq<Cmd>, i: nat)
    requires Ran(w, w', cmds) && i < |cmds|
    ensures i < |Since(w, w')| && Since(w, w')[i].cmd == cmds[i] && Tried(w, w', cmds[i])
  {
    var s := Since(w, w');
    assert Cmds(s)[i] == s[i].cmd && s[i] in s;
  }

  lemma {:induction false} RemoveNone(ms: seq<Mount>, target: string)
    requires !CanUmount(ms, target)
    ensures RemoveLast(ms, target) == ms
  {
    if ms != [] {
      var front, last := ms[..|ms| - 1], ms[|ms| - 1];
      assert last in ms && forall m :: m in front ==> m in ms;
      RemoveNone(front, target);
      assert ms == front + [last];
    }
  }

  /**
   * If the read, the umount and `--stop` do not fail by themselves, an assembled array with
   * one mount point is stopped exactly when the umount of what the table shows takes its
   * last mount down.
   */
  lemma {:induction false} StopTakesDown(w: World, w': World, md: string, members: seq<string>, ok: bool,
        works: Cmd -> bool, m: Mount)
    requires Inv(w) && ValidMDDevice(md) && md in w.arrays && OnlyAt(w.mounts, m) && m.dev == md
    requires StopSpec(w, w', md, ok) && StopFiles(w, w', md, true)
    requires StopRan(w, w', md, members, ok) && StopWorks(w, w', md, ok, works)
    requires works(Cmd.CatMounts) && works(Umount(m.mountPoint)) && works(StopMd(md))
    ensures w'.mounts == RemoveLast(w.mounts, m.mountPoint) && !HasLineAt(w'.fstab, m.mountPoint)
    ensures ok <==> !Mounted(RemoveLast(w.mounts, m.mountPoint), md)
    ensures ok ==> md !in w'.arrays
  {
    ValidDeviceChars(md);
    FindMountPointExact(w.mounts, md);
    assert Mounted(w.mounts, md);
    RemoveIsFilter(w.fstab, m.mountPoint);
    if !CanUmount(w.mounts, m.mountPoint) {
      RemoveNone(w.mounts, m.mountPoint);
    }
  }

  /** It is, if the array is mounted once, its mount point is shown as it is, and nothing else is there. */
  lemma {:induction false} SoleMountGoes(ms: seq<Mount>, k: nat)
    requires k < |ms| && Mangle(ms[k].mountPoint) == ms[k].mountPoint
    requires forall i :: 0 <= i < |ms| && i != k ==>
               ms[i].dev != ms[k].dev && !UmountMatches(ms[i], ms[k].mountPoint)
    ensures RemoveLast(ms, ms[k].mountPoint) == ms[..k] + ms[k + 1..]
    ensures !Mounted(RemoveLast(ms, ms[k].mountPoint), ms[k].dev)
  {
    SoleMatchGoes(ms, k, ms[k].mountPoint);
    SoleDeviceGoes(ms, k);
  }

  lemma {:induction false} SoleDeviceGoes(ms: seq<Mount>, k: nat)
    requires k < |ms| && forall i :: 0 <= i < |ms| && i != k ==> ms[i].dev != ms[k].dev
    ensures !Mounted(ms[..k] + ms[k + 1..], ms[k].dev)
  {
    var r := ms[..k] + ms[k + 1..];
    forall i | 0 <= i < |r|
      ensures r[i].dev != ms[k].dev
    {
      assert r[i] == ms[if i < k then i else i + 1];
    }
  }

  lemma {:induction false} SoleMatchGoes(ms: seq<Mount>, k: nat, target: string)
    requires k < |ms| && UmountMatches(ms[k], target)
    requires forall i :: k < i < |ms| ==> !UmountMatches(ms[i], target)
    ensures RemoveLast(ms, target) == ms[..k] + ms[k + 1..]
    decreases |ms|
  {
    if k == |ms| - 1 {
      assert ms[k + 1..] == [];
    } else {
      var front, last := ms[..|ms| - 1], ms[|ms| - 1];
      assert !UmountMatches(last, target);
      SoleMatchGoes(front, k, target);
      LastKept(ms, k);
    }
  }

  lemma {:induction false} LastKept(ms: seq<Mount>, k: nat)
    requires k < |ms| - 1
    ensures var front := ms[..|ms| - 1]; front[..k] + front[k + 1..] + [ms[|ms| - 1]] == ms[..k] + ms[k + 1..]
  {
  }

  /** Hence an assembled array mounted once is stopped, and neither mounted nor assembled any more. */
  lemma {:induction false} MountedOnceStops(w: World, w': World, md: string, members: seq<string>, ok: bool,
        works: Cmd -> bool, k: nat)
    requires Inv(w) && ValidMDDevice(md) && md in w.arrays
    requires k < |w.mounts| && w.mounts[k].dev == md
    requires NoSpace(w.mounts[k].mountPoint) && Mangle(w.mounts[k].mountPoint) == w.mounts[k].mountPoint
    requires forall i :: 0 <= i < |w.mounts| && i != k ==>
               w.mounts[i].dev != md && !UmountMatches(w.mounts[i], w.mounts[k].mountPoint)
    requires StopSpec(w, w', md, ok) && StopFiles(w, w', md, true)
    requires StopRan(w, w', md, members, ok) && StopWorks(w, w', md, ok, works)
    requires works(Cmd.CatMounts) && works(Umount(w.mounts[k].mountPoint)) && works(StopMd(md))
    ensures ok && !Mounted(w'.mounts, md) && md !in w'.arrays && !HasLineAt(w'.fstab, w.mounts[k].mountPoint)
  {
    var m := w.mounts[k];
    forall n | n in w.mounts && n.dev == md
      ensures n == m
    {
      var i :| 0 <= i < |w.mounts| && w.mounts[i] == n;
    }
    SoleMountGoes(w.mounts, k);
    StopTakesDown(w, w', md, members, ok, works, m);
  }

  // ---- When the guard of WipeDisk holds --------------------------------------

  predicate ReadsSuffice(w: World, s: seq<Event>, device: string)
    requires |s| >= 2
  {
    && (s[0].ok || NoSource(w, device))
    && forall md :: md in w.arrays && HasMemberOn(w, md, device) ==>
         s[1].ok && (SeenFree(s, md) || !Mounted(w.mounts, md))
  }

  /**
   * Once wipefs is reached the guard holds exactly when the mount table was read first or shows
   * nothing of the disk, and for each array with a member there /proc/mdstat was read and the
   * array either was seen not to be mounted or is not mounted.
   */
  lemma {:induction false} WipeGuardIff(w: World, w': World, device: string, ok: bool, fileIO: bool)
    requires WipeDiskSpec(w, w', device, ok, fileIO) && Tried(w, w', Wipefs(device))
    ensures |Since(w, w')| >= 2
    ensures WipeGuard(w, w', device, fileIO) <==> ReadsSuffice(w, Since(w, w'), device)
  {
    var s := Since(w, w');
    forall md | SeenFree(s, md)
      ensures !Mounted(w.mounts, md)
    {
      var i :| 1 <= i < |s| && s[i].cmd == StopMd(md) && s[i - 1] == Event(CatMounts, true);
      assert s[i].cmd.StopMd?;
    }
  }

  /** With every read successful the guard holds. */
  lemma {:induction false} ReadableGuards(w: World, w': World, device: string, ok: bool, fileIO: bool)
    requires WipeDiskSpec(w, w', device, ok, fileIO) && Tried(w, w', Wipefs(device)) && ProcReadable(w, w')
    ensures WipeGuard(w, w', device, fileIO)
  {
    var s := Since(w, w');
    assert s[0] in s && s[1] in s;
    forall md | HasMemberOn(w, md, device)
      ensures SeenFree(s, md)
    {
      assert ToldToStop(w, w', md, device, fileIO);
      StopSeenFree(w, w', md);
    }
    WipeGuardIff(w, w', device, ok, fileIO);
  }

  lemma {:induction false} StopSeenFree(w: World, w': World, md: string)
    requires StopsChecked(w, Since(w, w')) && ProcReadable(w, w') && Tried(w, w', StopMd(md))
    ensures SeenFree(Since(w, w'), md)
  {
    var s := Since(w, w');
    var e :| e in s && e.cmd == StopMd(md);
    var i :| 0 <= i < |s| && s[i] == e;
    assert s[i].cmd.StopMd? && s[i - 1] in s;
  }

  /** With both files unreadable wipefs is reached in every state, guarded iff nothing is on the disk. */
  lemma {:induction false} UnreadableProcExposes(w: World, device: string, fileIO: bool) returns (w': World)
    ensures WipeDiskSpec(w, w', device, false, fileIO) && Tried(w, w', Wipefs(device))
    ensures WipeGuard(w, w', device, fileIO) <==> NoSource(w, device) && forall md :: !HasMemberOn(w, md, device)
  {
    w' := w.(log := w.log + [Event(CatMounts, false), Event(CatMdstat, false), Event(ZeroSuperblock(device), false),
                             Event(Wipefs(device), false)]);
    ExposedTrail(w, w', device);
    WipeGuardIff(w, w', device, false, fileIO);
  }

  lemma {:induction false} ExposedTrail(w: World, w': World, device: string)
    requires w'.log == w.log + [Event(CatMounts, false), Event(CatMdstat, false), Event(ZeroSuperblock(device), false),
                                Event(Wipefs(device), false)]
    ensures |Since(w, w')| == 4 && StopsChecked(w, Since(w, w'))
    ensures Since(w, w')[0] == Event(CatMounts, false) && Since(w, w')[1] == Event(CatMdstat, false)
    ensures Tried(w, w', Wipefs(device)) && !Did(w, w', Wipefs(device)) && forall md :: !Tried(w, w', StopMd(md))
  {
    var s := [Event(CatMounts, false), Event(CatMdstat, false), Event(ZeroSuperblock(device), false),
              Event(Wipefs(device), false)];
    assert Since(w, w') == s;
    assert s[3] in s;
  }

  // ---- The manager -----------------------------------------------------------

  class Manager {
    const run: Machine

    constructor (run: Machine)
      ensures this.run == run
    {
      this.run := run;
    }

    method FindMountPoint(md: string) returns (mp: string, ghost read: bool)
      requires Inv(run.w)
      modifies run
      ensures run.w == Logged(old(run.w), Cmd.CatMounts, read) && Inv(run.w)
      ensures mp == if read then MountTarget(old(run.w), md) else ""
      ensures run.works(Cmd.CatMounts) ==> read
    {
      var ok, out := run.CatMounts();
      read := ok;
      if !ok {
        return "", read;
      }
      mp := FirstTargetOf(out, md);
    }

    method IsMounted(device: string) returns (mounted: bool, ghost read: bool)
      requires Inv(run.w)
      modifies run
      ensures run.w == Logged(old(run.w), Cmd.CatMounts, read) && Inv(run.w)
      ensures mounted <==> read && exists m :: m in old(run.w).mounts && HasPrefix(m.dev, device)
      ensures run.works(Cmd.CatMounts) ==> read
    {
      var ok, out := run.CatMounts();
      read := ok;
      if !ok {
        return false, read;
      }
      ScanMountsExact(run.w.mounts, device);
      mounted := AnySource(out, device);
    }

    method ArraysForDisk(device: string) returns (arrays: seq<string>, ghost read: bool)
      requires Inv(run.w) && ValidDevice(device)
      modifies run
      ensures run.w == Logged(old(run.w), Cmd.CatMdstat, read) && Inv(run.w)
      ensures !read ==> arrays == []
      ensures read ==> forall md :: md in arrays <==> HasMemberOn(run.w, md, device)
      ensures run.works(Cmd.CatMdstat) ==> read
    {
      var ok, out := run.CatMdstat();
      read := ok;
      arrays := [];
      if !ok {
        return;
      }
      ArraysForDiskExact(out, run.w, device);
      arrays := ScanForDisk(out, TrimPrefix(device, "/dev/"));
    }

    method ArrayMembers(md: string) returns (devs: seq<string>, ghost read: bool)
      requires Inv(run.w) && ValidMDDevice(md)
      modifies run
      ensures run.w == Logged(old(run.w), Detail(md), read) && Inv(run.w)
      ensures !read ==> devs == []
      ensures read ==> md in run.w.arrays
      ensures run.works(Detail(md)) && md in old(run.w).arrays ==> read
      ensures read ==> forall d :: d in run.w.arrays[md].members ==> d in devs
      ensures read ==> forall d :: d in devs ==> d in run.w.arrays[md].members || d == md + ":"
    {
      var ok, out := run.MdadmDetail(md);
      read := ok;
      devs := [];
      if !ok {
        return;
      }
      MembersCovered(out, md, run.w.arrays[md].members);
      devs := ScanDetail(out, md);
    }

    method MdadmConfRemove(md: string) returns (ghost wrote: bool)
      requires Inv(run.w)
      modifies run
      ensures Inv(run.w) && (run.fileIO ==> wrote)
      ensures run.w == if wrote then old(run.w).(conf := ConfRemoveText(old(run.w).conf, md)) else old(run.w)
    {
      var ok := run.FileAccess();
      if !ok {
        return false;
      }
      var text := ConfWithout(run.w.conf, md);
      var done := run.WriteConf(text);
      return done;
    }

    method FstabRemove(mountPoint: string) returns (ghost wrote: bool)
      requires Inv(run.w)
      modifies run
      ensures Inv(run.w) && (run.fileIO ==> wrote)
      ensures run.w == if wrote then old(run.w).(fstab := FstabRemoveText(old(run.w).fstab, mountPoint)) else old(run.w)
    {
      var ok := run.FileAccess();
      if !ok {
        return false;
      }
      var text := FstabWithout(run.w.fstab, mountPoint);
      var done := run.WriteFstab(text);
      return done;
    }

    method FstabMountPoint(device: string) returns (mp: string, ghost read: bool)
      requires Inv(run.w)
      ensures run.fileIO ==> read
      ensures mp == if read then FirstTarget(Lines(run.w.fstab), device) else ""
    {
      var ok := run.FileAccess();
      read := ok;
      if !ok {
        return "", read;
      }
      mp := FirstTargetOf(run.w.fstab, device);
    }

    method FstabAdd(device: string, mountPoint: string, fsType: string) returns (ghost asked: bool, ghost wrote: bool)
      requires Inv(run.w) && Token(device)
      modifies run
      ensures Inv(run.w) && (run.fileIO ==> wrote)
      ensures run.w == Logged(old(run.w), Blkid(device), asked).(fstab := run.w.fstab)
      ensures run.w.fstab ==
                if wrote then FstabAddText(old(run.w).fstab, FstabEntry(SourceOf(run.w, device, asked), mountPoint, fsType))
                else old(run.w).fstab
    {
      var source := device;
      var ok, out := run.RunBlkid(device);
      asked := ok;
      if ok {
        TrimSpacePadded("", run.w.fsUuid[device], "\n");
        assert "" + run.w.fsUuid[device] + "\n" == out;
        var uuid := TrimSpace(out);
        if uuid != "" {
          source := "UUID=" + uuid;
        }
      }
      wrote := AppendEntry(FstabEntry(source, mountPoint, fsType));
    }

    /** Append the entry unless a line equals it. */
    method AppendEntry(entry: string) returns (ghost wrote: bool)
      requires Inv(run.w)
      modifies run
      ensures Inv(run.w) && (run.fileIO ==> wrote)
      ensures run.w == old(run.w).(fstab := if wrote then FstabAddText(old(run.w).fstab, entry) else old(run.w).fstab)
    {
      var ok := run.FileAccess();
      if !ok {
        return false;
      }
      var found := EntryPresent(run.w.fstab, entry);
      if found {
        return true;
      }
      ok := run.WriteFstab(run.w.fstab + entry + "\n");
      return ok;
    }

    /** Register a new array in mdadm.conf, unless its uuid is already there. */
    method PersistArray(md: string, ghost uuid: nat)
      requires Inv(run.w) && (md in run.w.arrays ==> run.w.arrays[md].uuid == uuid)
      modifies run
      ensures Inv(run.w) && old(run.w).log <= run.w.log
      ensures run.w == old(run.w).(conf := run.w.conf, log := run.w.log)
      ensures Registered(old(run.w).conf, run.w.conf, md, uuid, Did(old(run.w), run.w, DetailScan(md)), run.fileIO)
      ensures Ran(old(run.w), run.w, PersistCmds(old(run.w), run.w, md))
      ensures run.works(DetailScan(md)) && md in old(run.w).arrays ==> Did(old(run.w), run.w, DetailScan(md))
    {
      ghost var w := run.w;
      var ok, out := run.MdadmDetailScan(md);
      NothingYet(w);
      LogStep(w, w, DetailScan(md), ok, run.w);
      RanOne(w, run.w, DetailScan(md), ok);
      assert [DetailScan(md)] + [] == [DetailScan(md)];
      if !ok {
        return;
      }
      ghost var v := run.w;
      var line := TrimSpace(out);
      if !HasPrefix(line, "ARRAY") {
        return;
      }
      AppendLine(md, line, uuid);
      RanThen(w, v, run.w, [DetailScan(md)], InitramfsCmds(v, run.w));
      AsLogged(w, v, run.w, DetailScan(md));
    }

    /** The rest of persistArray: append the line unless the file mentions its key. */
    method AppendLine(md: string, line: string, ghost uuid: nat)
      requires Inv(run.w) && PrintedArray(line, md, uuid)
      modifies run
      ensures Inv(run.w) && (run.w.log == old(run.w).log || exists ok :: run.w.log == old(run.w).log + [Event(UpdateInitramfs, ok)])
      ensures run.w == old(run.w).(conf := run.w.conf, log := run.w.log)
      ensures Registered(old(run.w).conf, run.w.conf, md, uuid, true, run.fileIO)
      ensures Ran(old(run.w), run.w, InitramfsCmds(old(run.w), run.w))
    {
      ghost var w := run.w;
      RanNone(w, w);
      // A file that cannot be read counts as empty.
      var readable := run.FileAccess();
      var key := KeyOf(line, md);
      KeyInLine(line, md);
      if Contains(if readable then run.w.conf else "", key) {
        return;
      }
      ContainsAppend(run.w.conf, line, "\n", key);
      var ok := run.WriteConf(run.w.conf + line + "\n");
      if ok {
        assert |run.w.conf| > |w.conf|;
        var rebuilt := run.Run(UpdateInitramfs);
        RanOne(w, run.w, UpdateInitramfs, rebuilt);
      } else {
        RanNone(w, run.w);
      }
    }

    method Create(md: string, level: string, devices: seq<string>) returns (ok: bool)
      requires Inv(run.w)
      modifies run
      ensures Inv(run.w)
      ensures CreateSpec(old(run.w), run.w, md, level, devices, ok)
      ensures CreateOrder(old(run.w), run.w, md, level, devices, ok)
      ensures if ok then
                Registered(old(run.w).conf, run.w.conf, md, old(run.w).nextUuid,
                           Did(old(run.w), run.w, DetailScan(md)), run.fileIO)
              else run.w.conf == old(run.w).conf
      ensures ok ==> CreateRan(old(run.w), run.w, md, level, devices)
      ensures run.works(CreateMd(md, level, devices)) ==>
                (ok <==> CreateArgsOk(md, level, devices) && CanCreate(old(run.w), md, devices))
    {
      ghost var w := run.w;
      assert Since(w, w) == [];
      var valid := CreateChecks(md, level, devices);
      if !valid {
        return false;
      }
      ok := run.MdadmCreate(md, level, devices);
      ghost var v := run.w;
      assert Since(w, v) == [Event(CreateMd(md, level, devices), ok)];
      RanOne(w, v, CreateMd(md, level, devices), ok);
      if ok {
        WipeAndPersist(w, md, level, devices);
        CreateScript(w, v, run.w, md, level, devices);
      }
    }

    method CreateChecks(md: string, level: string, devices: seq<string>) returns (valid: bool)
      ensures valid <==> CreateArgsOk(md, level, devices)
    {
      if !ValidMDDevice(md) || !Supported(level) || |devices| < MinDisks(level) {
        return false;
      }
      var i := 0;
      while i < |devices|
        invariant 0 <= i <= |devices|
        invariant forall j :: 0 <= j < i ==> ValidDevice(devices[j])
      {
        if !ValidDevice(devices[i]) {
          return false;
        }
        i := i + 1;
      }
      return true;
    }

    /** The end of Create: stale signatures, then mdadm.conf. */
    method WipeAndPersist(ghost w: World, md: string, level: string, devices: seq<string>)
      requires Inv(run.w) && run.w.log == w.log + [Event(CreateMd(md, level, devices), true)]
      requires run.w.conf == w.conf && (md in run.w.arrays ==> run.w.arrays[md].uuid == w.nextUuid)
      modifies run
      ensures Inv(run.w) && w.log <= run.w.log
      ensures run.w == old(run.w).(disks := run.w.disks, fsUuid := run.w.fsUuid, conf := run.w.conf, log := run.w.log)
      ensures run.w.disks == old(run.w).disks || run.w.disks == old(run.w).disks - {md}
      ensures CreateOrder(w, run.w, md, level, devices, true)
      ensures Registered(w.conf, run.w.conf, md, w.nextUuid, Did(w, run.w, DetailScan(md)), run.fileIO)
      ensures Ran(old(run.w), run.w, [Wipefs(md)] + PersistCmds(old(run.w), run.w, md))
    {
      ghost var v := run.w;
      var wiped := run.RunWipefs(md);
      ghost var u := run.w;
      RanOne(v, u, Wipefs(md), wiped);
      PersistArray(md, w.nextUuid);
      RanThen(v, u, run.w, [Wipefs(md)], PersistCmds(u, run.w, md));
      CreateTrail(w, v, u, run.w, md, level, devices, wiped);
    }

    method AddDisk(md: string, disk: string) returns (ok: bool)
      requires Inv(run.w)
      modifies run
      ensures Inv(run.w)
      ensures AddSpec(old(run.w), run.w, md, disk, ok)
      ensures ValidMDDevice(md) && ValidDevice(disk) ==> Ran(old(run.w), run.w, [AddMd(md, disk)])
      ensures run.works(AddMd(md, disk)) ==>
                (ok <==> ValidMDDevice(md) && ValidDevice(disk) && md in old(run.w).arrays && disk != md && !Busy(old(run.w), disk))
    {
      if !ValidMDDevice(md) || !ValidDevice(disk) {
        return false;
      }
      ghost var w := run.w;
      ok := run.MdadmAdd(md, disk);
      RanOne(w, run.w, AddMd(md, disk), ok);
    }

    method RemoveDisk(md: string, disk: string) returns (ok: bool)
      requires Inv(run.w)
      modifies run
      ensures Inv(run.w)
      ensures RemoveSpec(old(run.w), run.w, md, disk, ok)
      ensures ok ==> Ran(old(run.w), run.w, [FailMd(md, disk), RemoveMd(md, disk)])
      ensures run.works(FailMd(md, disk)) && run.works(RemoveMd(md, disk)) ==>
                (ok <==> ValidMDDevice(md) && ValidDevice(disk) && md in old(run.w).arrays
                         && disk in old(run.w).arrays[md].members)
    {
      if !ValidMDDevice(md) || !ValidDevice(disk) {
        return false;
      }
      ghost var w := run.w;
      ok := run.Run(FailMd(md, disk));
      if !ok {
        return;
      }
      ghost var v := run.w;
      ok := run.MdadmRemove(md, disk);
      RanOne(w, v, FailMd(md, disk), true);
      RanOne(v, run.w, RemoveMd(md, disk), ok);
      RanThen(w, v, run.w, [FailMd(md, disk)], [RemoveMd(md, disk)]);
      assert [FailMd(md, disk)] + [RemoveMd(md, disk)] == [FailMd(md, disk), RemoveMd(md, disk)];
    }

    /** The first part of Stop: take the filesystem down and drop its fstab line. */
    method ReleaseMount(md: string)
      requires Inv(run.w)
      modifies run
      ensures Inv(run.w) && old(run.w).log <= run.w.log
      ensures StopFiles(old(run.w), run.w, md, run.fileIO)
      ensures run.w == old(run.w).(mounts := run.w.mounts, fstab := run.w.fstab, log := run.w.log)
      ensures forall c: Cmd :: Tried(old(run.w), run.w, c) ==> c.CatMounts? || c.Umount?
      ensures var target := StopTarget(old(run.w), run.w, md);
              && (target != "" ==> Tried(old(run.w), run.w, Umount(target)))
              && Ran(old(run.w), run.w, ReleaseCmds(target))
      ensures ReleaseWorks(old(run.w), run.w, md, run.works)
    {
      ghost var w := run.w;
      var mp, read := FindMountPoint(md);
      NothingYet(w);
      LogStep(w, w, Cmd.CatMounts, read, run.w);
      RanOne(w, run.w, Cmd.CatMounts, read);
      ghost var u := run.w;
      assert StopTarget(w, run.w, md) == mp;
      if mp != "" {
        TakeDown(w, mp);
        RanThen(w, u, run.w, [Cmd.CatMounts], [Umount(mp)]);
        assert StopTarget(w, run.w, md) == mp;
      } else {
        assert [Cmd.CatMounts] + [] == [Cmd.CatMounts];
      }
    }

    method TakeDown(ghost w: World, mp: string)
      requires Inv(run.w) && w.log <= run.w.log && !Did(w, run.w, Umount(mp))
      modifies run
      ensures Inv(run.w) && w.log <= run.w.log
      ensures run.w == old(run.w).(mounts := run.w.mounts, fstab := run.w.fstab, log := run.w.log)
      ensures run.w.mounts == if Did(w, run.w, Umount(mp)) then RemoveLast(old(run.w).mounts, mp) else old(run.w).mounts
      ensures run.fileIO ==> run.w.fstab == FstabRemoveText(old(run.w).fstab, mp)
      ensures forall c: Cmd :: Tried(w, run.w, c) <==> Tried(w, old(run.w), c) || c == Umount(mp)
      ensures forall c: Cmd :: !c.Umount? ==> (Did(w, run.w, c) <==> Did(w, old(run.w), c))
      ensures Ran(old(run.w), run.w, [Umount(mp)])
      ensures run.works(Umount(mp)) && CanUmount(old(run.w).mounts, mp) ==> Did(w, run.w, Umount(mp))
    {
      ghost var v := run.w;
      var um := run.RunUmount(mp);
      LogStep(w, v, Umount(mp), um, run.w);
      RanOne(v, run.w, Umount(mp), um);
      ghost var u := run.w;
      var _ := FstabRemove(mp);
      SameLog(w, u, run.w);
    }

    method Stop(md: string) returns (ok: bool)
      requires Inv(run.w)
      modifies run
      ensures Inv(run.w)
      ensures ValidMDDevice(md) ==> StopSpec(old(run.w), run.w, md, ok) && StopFiles(old(run.w), run.w, md, run.fileIO)
      ensures ValidMDDevice(md) ==> StopOrder(old(run.w), run.w, md, ok)
      ensures ValidMDDevice(md) && run.fileIO ==> run.w.conf == ConfRemoveText(old(run.w).conf, md)
      ensures !ValidMDDevice(md) ==> !ok && run.w == old(run.w)
      ensures ValidMDDevice(md) ==> exists members :: StopRan(old(run.w), run.w, md, members, ok)
      ensures ValidMDDevice(md) ==> StopWorks(old(run.w), run.w, md, ok, run.works)
    {
      if !ValidMDDevice(md) {
        return false;
      }
      ghost var w := run.w;
      ReleaseMount(md);
      ok := HaltAndErase(w, md);
    }

    /** The rest of Stop: halt the array and, if that worked, erase its members. */
    method HaltAndErase(ghost w: World, md: string) returns (ok: bool)
      requires Inv(w) && Inv(run.w) && ValidMDDevice(md) && w.log <= run.w.log
      requires StopFiles(w, run.w, md, run.fileIO) && ReleaseWorks(w, run.w, md, run.works)
      requires run.w == w.(mounts := run.w.mounts, fstab := run.w.fstab, log := run.w.log)
      requires forall c: Cmd :: Tried(w, run.w, c) ==> c.CatMounts? || c.Umount?
      requires var target := StopTarget(w, run.w, md);
               (target != "" ==> Tried(w, run.w, Umount(target))) && Ran(w, run.w, ReleaseCmds(target))
      modifies run
      ensures Inv(run.w)
      ensures StopSpec(w, run.w, md, ok) && StopFiles(w, run.w, md, run.fileIO) && StopOrder(w, run.w, md, ok)
      ensures run.fileIO ==> run.w.conf == ConfRemoveText(w.conf, md)
      ensures exists members :: StopRan(w, run.w, md, members, ok)
      ensures StopWorks(w, run.w, md, ok, run.works)
    {
      ghost var u := run.w;
      var members;
      ghost var listed;
      ok, members, listed := Halt(w, md);
      ghost var x := run.w;
      EraseMembers(w, members, ok);
      StopEnds(w, u, x, run.w, md, members, listed, ok, run.fileIO, run.works);
    }

    method EraseMembers(ghost w: World, members: seq<string>, stopped: bool)
      requires Inv(run.w) && w.log <= run.w.log && run.w.disks == w.disks && DisksWiped(w, run.w)
      modifies run
      ensures Inv(run.w) && EraseDone(w, old(run.w), run.w, members, stopped)
    {
      ghost var x := run.w;
      RanNone(x, run.w);
      if stopped {
        WipeMembers(w, members);
      }
    }

    /** The middle part of Stop: list the members, clean mdadm.conf, stop the array. */
    method Halt(ghost w: World, md: string) returns (ok: bool, members: seq<string>, ghost listed: bool)
      requires Inv(run.w) && ValidMDDevice(md) && w.log <= run.w.log
      requires forall c: Cmd :: Tried(w, run.w, c) ==> c.CatMounts? || c.Umount?
      modifies run
      ensures Inv(run.w)
      ensures Halted(w, old(run.w), run.w, md, members, listed, ok)
      ensures run.fileIO ==> run.w.conf == ConfRemoveText(old(run.w).conf, md)
      ensures HaltWorks(old(run.w), md, listed, ok, run.works)
    {
      ghost var u := run.w;
      members, listed := ArrayMembers(md);
      ok := ForgetAndStop(md);
      HaltConcludes(w, u, run.w, md, members, listed, ok);
    }

    method ForgetAndStop(md: string) returns (ok: bool)
      requires Inv(run.w)
      modifies run
      ensures Inv(run.w)
      ensures run.w == old(run.w).(arrays := run.w.arrays, conf := run.w.conf,
                                   log := old(run.w).log + [Event(StopMd(md), ok)])
      ensures run.w.arrays == if ok then old(run.w).arrays - {md} else old(run.w).arrays
      ensures ok ==> md in old(run.w).arrays && !Mounted(old(run.w).mounts, md)
      ensures run.works(StopMd(md)) && md in old(run.w).arrays && !Mounted(old(run.w).mounts, md) ==> ok
      ensures run.fileIO ==> run.w.conf == ConfRemoveText(old(run.w).conf, md)
    {
      var _ := MdadmConfRemove(md);
      ok := run.MdadmStop(md);
    }

    /** The clean-up loop of Stop: each member's superblock and signatures. */
    method WipeMembers(ghost w: World, members: seq<string>)
      requires Inv(run.w) && w.log <= run.w.log && DisksWiped(w, run.w)
      requires forall d :: d in w.disks && d !in run.w.disks ==> d in members
      modifies run
      ensures Inv(run.w) && w.log <= run.w.log && old(run.w).log <= run.w.log
      ensures run.w == old(run.w).(disks := run.w.disks, fsUuid := run.w.fsUuid, log := run.w.log)
      ensures DisksWiped(w, run.w) && OnlyWipes(w, old(run.w), run.w)
      ensures forall d :: d in w.disks && d !in run.w.disks ==> d in members
      ensures forall d :: d in members ==> BothTried(w, run.w, d)
      ensures members == [] ==> run.w == old(run.w)
      ensures Ran(old(run.w), run.w, MemberCmds(members))
    {
      var i := 0;
      RanNone(run.w, run.w);
      while i < |members|
        invariant 0 <= i <= |members| && Inv(run.w)
        invariant MembersDone(w, old(run.w), run.w, members, i)
        invariant i == 0 ==> run.w == old(run.w)
        invariant Ran(old(run.w), run.w, MemberCmds(members[..i]))
      {
        ghost var v := run.w;
        WipeMember(w, members[i]);
        MemberDone(w, old(run.w), v, run.w, members, i);
        MemberRan(old(run.w), v, run.w, members, i);
        i := i + 1;
      }
      assert members[..|members|] == members;
    }

    method WipeMember(ghost w: World, d: string)
      requires Inv(run.w) && w.log <= run.w.log && DisksWiped(w, run.w)
      modifies run
      ensures Inv(run.w) && MemberStep(w, old(run.w), run.w, d) && BothTried(w, run.w, d)
      ensures Ran(old(run.w), run.w, EraseCmds(d))
    {
      ghost var a := run.w;
      ZeroMember(w, d);
      ghost var b := run.w;
      WipefsMember(w, d);
      ghost var c := run.w;
      ProbeMember(w, d);
      MemberSteps(w, a, b, c, d);
      MemberSteps(w, a, c, run.w, d);
      RanThree(a, b, c, run.w, ZeroSuperblock(d), Wipefs(d), Partprobe(d));
    }

    method ZeroMember(ghost w: World, d: string)
      requires Inv(run.w) && w.log <= run.w.log && DisksWiped(w, run.w)
      modifies run
      ensures Inv(run.w) && MemberStep(w, old(run.w), run.w, d) && Tried(w, run.w, ZeroSuperblock(d))
      ensures Ran(old(run.w), run.w, [ZeroSuperblock(d)])
    {
      ghost var v := run.w;
      var ok := run.MdadmZeroSuperblock(d);
      WipeStep(w, v, ZeroSuperblock(d), ok, d, run.w);
      RanOne(v, run.w, ZeroSuperblock(d), ok);
    }

    method WipefsMember(ghost w: World, d: string)
      requires Inv(run.w) && w.log <= run.w.log && DisksWiped(w, run.w)
      modifies run
      ensures Inv(run.w) && MemberStep(w, old(run.w), run.w, d) && Tried(w, run.w, Wipefs(d))
      ensures Ran(old(run.w), run.w, [Wipefs(d)])
    {
      ghost var v := run.w;
      var ok := run.RunWipefs(d);
      WipeStep(w, v, Wipefs(d), ok, d, run.w);
      RanOne(v, run.w, Wipefs(d), ok);
    }

    method ProbeMember(ghost w: World, d: string)
      requires Inv(run.w) && w.log <= run.w.log && DisksWiped(w, run.w)
      modifies run
      ensures Inv(run.w) && MemberStep(w, old(run.w), run.w, d)
      ensures Ran(old(run.w), run.w, [Partprobe(d)])
    {
      ghost var v := run.w;
      var ok := run.Run(Partprobe(d));
      WipeStep(w, v, Partprobe(d), ok, d, run.w);
      RanOne(v, run.w, Partprobe(d), ok);
    }

    /** The array loop of WipeDisk: stop each array of the disk that is not mounted. */
    method StopArraysOf(ghost w: World, device: string, arrays: seq<string>) returns (ok: bool)
      requires Inv(run.w) && (forall md :: md in arrays ==> Token(md))
      requires Stopping(w, run.w, run.w, device, arrays, 0, run.fileIO)
      modifies run
      ensures Inv(run.w)
      ensures exists n :: Stopping(w, old(run.w), run.w, device, arrays, n, run.fileIO) && (ok ==> n == |arrays|)
      ensures ok ==> Ran(old(run.w), run.w, StopCmds(arrays)) && StopsWork(w, run.w, arrays, |arrays|, run.works)
      ensures !ok && AllWork(run.works) ==> exists md :: md in arrays && Mounted(w.mounts, md)
    {
      var i := 0;
      ghost var u := run.w;
      RanNone(u, u);
      while i < |arrays|
        invariant 0 <= i <= |arrays| && Inv(run.w)
        invariant Stopping(w, u, run.w, device, arrays, i, run.fileIO)
        invariant Ran(u, run.w, StopCmds(arrays[..i])) && StopsWork(w, run.w, arrays, i, run.works)
      {
        ghost var v := run.w;
        var free := StopIfFree(w, device, arrays[i]);
        StoppingNext(w, u, v, run.w, device, arrays, i, free, run.fileIO);
        if !free {
          return false;
        }
        StopCmdsNext(u, v, run.w, arrays, i);
        StopsWorkNext(w, v, run.w, arrays, i, run.works);
        i := i + 1;
      }
      assert arrays[..|arrays|] == arrays;
      return true;
    }

    method StopIfFree(ghost w: World, device: string, md: string) returns (free: bool)
      requires Inv(run.w) && w.log <= run.w.log && w.mounts == run.w.mounts && Token(md)
      requires !Tried(w, run.w, Wipefs(device))
      modifies run
      ensures Inv(run.w) && OneStopped(w, old(run.w), run.w, device, md, free, run.fileIO)
      ensures free ==> Ran(old(run.w), run.w, [Cmd.CatMounts, StopMd(md)])
      ensures AllWork(run.works) ==> (free <==> !Mounted(w.mounts, md))
      ensures AllWork(run.works) && free ==> md !in run.w.arrays
    {
      ghost var u := run.w;
      var mp, read := FindMountPoint(md);
      FindMountPointExact(w.mounts, md);
      ghost var v := run.w;
      LogStep(w, u, Cmd.CatMounts, read, v);
      free := mp == "";
      if free {
        StopAndForget(w, u, md, read);
      }
      StoppedOrNot(w, u, v, run.w, device, md, read, free, run.fileIO);
    }

    /** Stop one array, whatever the outcome, and drop its lines from mdadm.conf. */
    method StopAndForget(ghost w: World, ghost u: World, md: string, ghost read: bool)
      requires Inv(run.w) && w.log <= u.log && run.w.log == u.log + [Event(CatMounts, read)]
      requires read ==> !Mounted(w.mounts, md)
      modifies run
      ensures Inv(run.w) && Forgotten(w, u, old(run.w), run.w, md, run.fileIO)
      ensures run.works(StopMd(md)) && !Mounted(old(run.w).mounts, md) ==> md !in run.w.arrays
    {
      ghost var v := run.w;
      var stopped := run.MdadmStop(md);
      ghost var x := run.w;
      var wrote := MdadmConfRemove(md);
      ForgottenNow(w, u, v, x, run.w, md, read, stopped, wrote, run.fileIO);
    }

    method WipeDisk(device: string) returns (ok: bool)
      requires Inv(run.w)
      modifies run
      ensures Inv(run.w)
      ensures ValidDevice(device) ==> WipeDiskSpec(old(run.w), run.w, device, ok, run.fileIO)
      ensures !ValidDevice(device) ==> !ok && run.w == old(run.w)
      ensures AllWork(run.works) ==> (ok <==> Wipeable(old(run.w), device))
      ensures ok ==> WipeRan(old(run.w), run.w, device)
    {
      if !ValidDevice(device) {
        return false;
      }
      ghost var w := run.w;
      var clear, arrays, r0, r1 := CheckDisk(device);
      if !clear {
        return false;
      }
      ghost var u := run.w;
      BeforeStops(w, u, device, arrays, r0, r1, run.fileIO);
      var stopped := StopArraysOf(w, device, arrays);
      ghost var x := run.w;
      ghost var n :| Stopping(w, u, x, device, arrays, n, run.fileIO) && (stopped ==> n == |arrays|);
      DidTried(w, x);
      if !stopped {
        return false;
      }
      StopsFreeDisk(w, x, device, arrays, run.works);
      ok := EraseDisk(device, w);
      WipeScript(w, u, x, run.w, device, arrays, r0, r1, ok);
      WipeReachedNow(w, x, run.w, device, arrays, r0, r1, ok, run.fileIO);
      WipeDiskConcludes(w, x, run.w, device, arrays, ok, run.fileIO);
    }

    /** The end of WipeDisk: superblock, signatures and, if these are gone, the partition table. */
    method EraseDisk(device: string, ghost w: World) returns (ok: bool)
      requires Inv(run.w) && w.log <= run.w.log && !Tried(w, run.w, Wipefs(device))
      modifies run
      ensures Inv(run.w) && w.log <= run.w.log
      ensures run.w == old(run.w).(disks := run.w.disks, fsUuid := run.w.fsUuid, log := run.w.log)
      ensures run.w.disks == old(run.w).disks || run.w.disks == old(run.w).disks - {device}
      ensures ok ==> device !in run.w.disks
      ensures Erased(w, old(run.w), run.w, device, ok)
      ensures ok ==> !Busy(old(run.w), device) && Ran(old(run.w), run.w, EraseCmds(device))
      ensures run.works(Wipefs(device)) && !Busy(old(run.w), device) ==> ok
    {
      ghost var x := run.w;
      ghost var zeroed, probed;
      ok, zeroed, probed := EraseCommands(device);
      EraseLogged(w, x, run.w, device, zeroed, ok, probed);
    }

    method EraseCommands(device: string) returns (ok: bool, ghost zeroed: bool, ghost probed: bool)
      requires Inv(run.w)
      modifies run
      ensures Inv(run.w)
      ensures run.w == old(run.w).(disks := run.w.disks, fsUuid := run.w.fsUuid, log := run.w.log)
      ensures run.w.log == old(run.w).log + EraseEvents(device, zeroed, ok, probed)
      ensures run.w.disks == old(run.w).disks || run.w.disks == old(run.w).disks - {device}
      ensures ok ==> device !in run.w.disks && !Busy(old(run.w), device)
      ensures run.works(Wipefs(device)) && !Busy(old(run.w), device) ==> ok
    {
      var z := run.MdadmZeroSuperblock(device);
      zeroed := z;
      ok := run.RunWipefs(device);
      probed := false;
      if ok {
        var p := run.Run(Partprobe(device));
        probed := p;
      }
    }

    /** The checks of WipeDisk: no mounted source, and the arrays to stop; unreadable means none. */
    method CheckDisk(device: string) returns (clear: bool, arrays: seq<string>, ghost r0: bool, ghost r1: bool)
      requires Inv(run.w) && ValidDevice(device)
      modifies run
      ensures Inv(run.w) && SameButLog(old(run.w), run.w) && old(run.w).log <= run.w.log
      ensures forall c: Cmd :: Tried(old(run.w), run.w, c) ==> c.CatMounts? || c.CatMdstat?
      ensures clear ==> run.w.log == old(run.w).log + [Event(CatMounts, r0), Event(CatMdstat, r1)]
      ensures clear && r0 ==> NoSource(old(run.w), device)
      ensures r1 ==> OfDisk(old(run.w), device, arrays)
      ensures !r1 ==> arrays == []
      ensures forall md :: md in arrays ==> HasMemberOn(old(run.w), md, device) && Token(md)
      ensures run.works(Cmd.CatMounts) ==> r0 && (clear <==> NoSource(old(run.w), device))
      ensures run.works(Cmd.CatMdstat) && clear ==> r1
    {
      ghost var w := run.w;
      NothingYet(w);
      arrays, r1 := [], false;
      var mounted;
      mounted, r0 := IsMounted(device);
      ghost var u := run.w;
      LogStep(w, w, Cmd.CatMounts, r0, u);
      if mounted {
        return false, arrays, r0, r1;
      }
      clear := true;
      arrays, r1 := ArraysForDisk(device);
      LogStep(w, u, Cmd.CatMdstat, r1, run.w);
      forall md | md in arrays
        ensures Token(md)
      {
        ValidDeviceChars(md);
      }
    }

    // ---- Filesystems ---------------------------------------------------------

    method RunAside(ghost w: World, cmd: Cmd) returns (ok: bool)
      requires Inv(run.w) && Aside(w, run.w) && !IsMountOrAsk(cmd)
      modifies run
      ensures Inv(run.w) && Aside(w, run.w)
      ensures Since(w, run.w) == Since(w, old(run.w)) + [Event(cmd, ok)]
      ensures run.works(cmd) ==> ok
    {
      ghost var v := run.w;
      ok := run.Run(cmd);
      AsideStep(w, v, Event(cmd, ok), run.w);
    }

    /** Is the mkfs tool there; if not, install its package and look again. */
    method EnsureMkfs(tool: string, fsType: string) returns (ok: bool)
      requires Inv(run.w) && SupportedFs(fsType)
      modifies run
      ensures Inv(run.w) && Aside(old(run.w), run.w)
      ensures ToolTrail(Since(old(run.w), run.w), tool, MkfsPackage(fsType), ok)
      ensures run.works(HasTool(tool)) ==> ok
    {
      ghost var w := run.w;
      assert Since(w, w) == [];
      ok := RunAside(w, HasTool(tool));
      if ok {
        return;
      }
      ghost var s0 := Since(w, run.w);
      var pkg := MkfsPackage(fsType);
      var a1 := RunAside(w, AptInstall(pkg));
      var h1 := RunAside(w, HasTool(tool));
      ghost var s1 := [Event(AptInstall(pkg), a1), Event(HasTool(tool), h1)];
      assert Since(w, run.w) == s0 + s1;
      if !h1 {
        var a2 := RunAside(w, AptInstall(pkg));
        s1 := s1 + [Event(AptInstall(pkg), a2)];
        assert Since(w, run.w) == s0 + s1;
      }
      ok := RunAside(w, HasTool(tool));
      TrailIs(s0, s1, tool, pkg, h1, ok);
    }

    /** Nothing is mounted before mkfs has succeeded. */
    method CreateFilesystem(md: string, fsType: string, mountPoint: string) returns (ok: bool)
      requires Inv(run.w)
      modifies run
      ensures Inv(run.w)
      ensures MountSpec(old(run.w), run.w, md, fsType, mountPoint, ok, run.fileIO)
      ensures After(Since(old(run.w), run.w), Event(Mkfs("mkfs." + fsType, md), true), IsMount)
      ensures AllWork(run.works) ==>
                (ok <==> ValidMDDevice(md) && SupportedFs(fsType) && MountPointOk(mountPoint)
                         && !Busy(old(run.w), md) && CanMount(old(run.w), fsType, md, mountPoint))
    {
      if !ValidMDDevice(md) || !SupportedFs(fsType) || !MountPointOk(mountPoint) {
        assert Since(run.w, run.w) == [];
        return false;
      }
      ok := CreateChecked(md, fsType, mountPoint);
    }

    method CreateChecked(md: string, fsType: string, mountPoint: string) returns (ok: bool)
      requires Inv(run.w) && ValidMDDevice(md) && SupportedFs(fsType) && MountPointOk(mountPoint)
      modifies run
      ensures Inv(run.w)
      ensures MountSpec(old(run.w), run.w, md, fsType, mountPoint, ok, run.fileIO)
      ensures After(Since(old(run.w), run.w), Event(Mkfs("mkfs." + fsType, md), true), IsMount)
      ensures ok ==> !Busy(old(run.w), md)
      ensures AllWork(run.works) && !Busy(old(run.w), md) && CanMount(old(run.w), fsType, md, mountPoint) ==> ok
    {
      ghost var w := run.w;
      ok := EnsureMkfs("mkfs." + fsType, fsType);
      NoAsk(Since(w, run.w), md);
      if ok {
        ok := FormatAndMount(w, md, fsType, mountPoint);
      }
    }

    method FormatAndMount(ghost w: World, md: string, fsType: string, mountPoint: string) returns (ok: bool)
      requires Inv(run.w) && Aside(w, run.w) && ValidMDDevice(md) && MountPointOk(mountPoint)
      modifies run
      ensures Inv(run.w)
      ensures MountSpec(w, run.w, md, fsType, mountPoint, ok, run.fileIO)
      ensures After(Since(w, run.w), Event(Mkfs("mkfs." + fsType, md), true), IsMount)
      ensures ok ==> !Busy(w, md)
      ensures AllWork(run.works) && !Busy(w, md) && CanMount(w, fsType, md, mountPoint) ==> ok
    {
      ghost var u := run.w;
      ok := run.RunMkfs("mkfs." + fsType, md);
      ghost var v := run.w;
      FormatOrdered(w, u, v, v, Event(Mkfs("mkfs." + fsType, md), ok));
      if !ok {
        return;
      }
      ok := MountAndRecord(md, fsType, mountPoint);
      FormatOrdered(w, u, v, run.w, Event(Mkfs("mkfs." + fsType, md), true));
      MountFrom(w, u, v, run.w, md, fsType, mountPoint, ok, run.fileIO);
    }

    /** The filesystem is mounted as it is, never formatted. */
    method MountOnly(md: string, fsType: string, mountPoint: string) returns (ok: bool)
      requires Inv(run.w)
      modifies run
      ensures Inv(run.w)
      ensures MountSpec(old(run.w), run.w, md, fsType, mountPoint, ok, run.fileIO)
      ensures NoneOf(Since(old(run.w), run.w), IsMkfs)
      ensures ok ==> Ran(old(run.w), run.w, MountCmds(md, fsType, mountPoint))
      ensures AllWork(run.works) ==>
                (ok <==> ValidMDDevice(md) && MountPointOk(mountPoint) && CanMount(old(run.w), fsType, md, mountPoint))
    {
      if !ValidMDDevice(md) || !MountPointOk(mountPoint) {
        return false;
      }
      ok := MountAndRecord(md, fsType, mountPoint);
    }

    /** The common tail of the two operations above: mkdir, mount, fstab line. */
    method MountAndRecord(md: string, fsType: string, mountPoint: string) returns (ok: bool)
      requires Inv(run.w) && ValidMDDevice(md) && MountPointOk(mountPoint)
      modifies run
      ensures Inv(run.w)
      ensures MountSpec(old(run.w), run.w, md, fsType, mountPoint, ok, run.fileIO)
      ensures NoneOf(Since(old(run.w), run.w), IsMkfs)
      ensures ok ==> Ran(old(run.w), run.w, MountCmds(md, fsType, mountPoint))
      ensures AllWork(run.works) && CanMount(old(run.w), fsType, md, mountPoint) ==> ok
    {
      ghost var w := run.w;
      ok := run.Run(Mkdir(mountPoint));
      if !ok {
        return;
      }
      ghost var v := run.w;
      ok := run.RunMount(fsType, md, mountPoint);
      if !ok {
        return;
      }
      ghost var x := run.w;
      RanOne(w, v, Mkdir(mountPoint), true);
      RanOne(v, x, MountFs(fsType, md, mountPoint), true);
      var asked, wrote := FstabAdd(md, mountPoint, fsType);
      MountLog(w, x, run.w, md, mountPoint, fsType, asked);
      RanOne(x, run.w, Blkid(md), asked);
      RanThree(w, v, x, run.w, Mkdir(mountPoint), MountFs(fsType, md, mountPoint), Blkid(md));
    }

    method UnmountFilesystem(mountPoint: string) returns (ok: bool)
      requires Inv(run.w)
      modifies run
      ensures Inv(run.w)
      ensures UnmountSpec(old(run.w), run.w, mountPoint, ok, run.fileIO)
      ensures run.works(Umount(mountPoint)) ==> (ok <==> MountPointOk(mountPoint) && CanUmount(old(run.w).mounts, mountPoint))
    {
      if !MountPointOk(mountPoint) {
        return false;
      }
      ok := run.RunUmount(mountPoint);
      if !ok {
        return;
      }
      var _ := FstabRemove(mountPoint);
    }

    method WipeFilesystem(md: string) returns (ok: bool)
      requires Inv(run.w)
      modifies run
      ensures Inv(run.w)
      ensures WipeFsSpec(old(run.w), run.w, md, ok, run.fileIO)
      ensures WipeFsOrder(old(run.w), run.w, md, ok)
      ensures AllWork(run.works) ==>
                (ok <==> ValidMDDevice(md) && !HeldAfter(old(run.w), md))
    {
      ghost var w := run.w;
      assert Since(w, w) == [];
      if !ValidMDDevice(md) {
        return false;
      }
      var mp;
      ghost var target;
      ok, mp, target := UnmountArray(md);
      if !ok {
        NotErased(w, run.w, md);
        return;
      }
      ghost var v := run.w;
      TakenDown(w, v, md);
      var _ := FstabRemove(mp);
      SameLog(w, v, run.w);
      ghost var x := run.w;
      ok := WipeAndRmdir(md, mp);
      WipeFsConcludes(w, x, run.w, md, target, ok, run.fileIO);
      WipeFsOrdered(w, x, run.w, md, ok);
    }

    /** Take the array's filesystem down, or find out where it would be mounted. */
    method UnmountArray(md: string) returns (ok: bool, mp: string, ghost target: string)
      requires Inv(run.w)
      modifies run
      ensures Inv(run.w) && old(run.w).log <= run.w.log
      ensures target == if Did(old(run.w), run.w, Cmd.CatMounts) then MountTarget(old(run.w), md) else ""
      ensures target != "" ==> (ok <==> Did(old(run.w), run.w, Umount(md))) && mp == target
      ensures target == "" ==> ok && (run.fileIO ==> mp == FallbackTarget(old(run.w), md))
      ensures target != "" && ok ==> CanUmount(old(run.w).mounts, md)
      ensures ValidMDDevice(md) && AllWork(run.works) ==> ok && (target != "" <==> Mounted(old(run.w).mounts, md))
      ensures forall c: Cmd :: Tried(old(run.w), run.w, c) ==> c.CatMounts? || c.Umount?
      ensures run.w == old(run.w).(log := run.w.log,
                mounts := if target != "" && ok then RemoveLast(old(run.w).mounts, md) else old(run.w).mounts)
    {
      ghost var w := run.w;
      mp := AskMounts(md);
      ShownIfMounted(w, md);
      target := mp;
      ok := true;
      if mp != "" {
        ok := UnmountDevice(w, md);
      } else {
        var fm, found := FstabMountPoint(md);
        mp := if fm != "" then fm else DefaultMountPoint(md);
      }
    }

    /** The mount point that the table shows, and what the log says then. */
    method AskMounts(md: string) returns (mp: string)
      requires Inv(run.w)
      modifies run
      ensures Inv(run.w) && old(run.w).log <= run.w.log && run.w == old(run.w).(log := run.w.log)
      ensures mp == StopTarget(old(run.w), run.w, md)
      ensures forall c: Cmd :: Tried(old(run.w), run.w, c) <==> c.CatMounts?
      ensures forall c: Cmd :: !c.CatMounts? ==> !Did(old(run.w), run.w, c)
      ensures run.works(Cmd.CatMounts) ==> Did(old(run.w), run.w, Cmd.CatMounts)
    {
      ghost var w := run.w;
      NothingYet(w);
      ghost var read;
      mp, read := FindMountPoint(md);
      LogStep(w, w, Cmd.CatMounts, read, run.w);
    }

    method UnmountDevice(ghost w: World, md: string) returns (ok: bool)
      requires Inv(run.w) && w.log <= run.w.log && !Did(w, run.w, Umount(md))
      modifies run
      ensures Inv(run.w) && w.log <= run.w.log
      ensures ok <==> Did(w, run.w, Umount(md))
      ensures ok ==> CanUmount(old(run.w).mounts, md)
      ensures run.works(Umount(md)) && CanUmount(old(run.w).mounts, md) ==> ok
      ensures run.w == old(run.w).(log := run.w.log,
                mounts := if ok then RemoveLast(old(run.w).mounts, md) else old(run.w).mounts)
      ensures forall c: Cmd :: Tried(w, run.w, c) <==> Tried(w, old(run.w), c) || c == Umount(md)
      ensures forall c: Cmd :: !c.Umount? ==> (Did(w, run.w, c) <==> Did(w, old(run.w), c))
    {
      ghost var u := run.w;
      ok := run.RunUmount(md);
      LogStep(w, u, Umount(md), ok, run.w);
    }

    method WipeAndRmdir(md: string, mp: string) returns (ok: bool)
      requires Inv(run.w)
      modifies run
      ensures Inv(run.w) && old(run.w).log <= run.w.log
      ensures run.w == old(run.w).(disks := run.w.disks, fsUuid := run.w.fsUuid, log := run.w.log)
      ensures run.w.disks == old(run.w).disks || run.w.disks == old(run.w).disks - {md}
      ensures forall e :: e in Since(old(run.w), run.w) ==> e.cmd == Wipefs(md) || e.cmd == Rmdir(mp)
      ensures ok <==> Event(Wipefs(md), true) in Since(old(run.w), run.w)
      ensures ok ==> md !in run.w.disks && !Busy(old(run.w), md)
      ensures run.works(Wipefs(md)) && !Busy(old(run.w), md) ==> ok
    {
      ghost var x := run.w;
      ok := run.RunWipefs(md);
      assert Since(x, run.w) == [Event(Wipefs(md), ok)];
      if ok && HasPrefix(mp, "/") && mp != "/" {
        var gone := run.Run(Rmdir(mp));
        assert Since(x, run.w) == [Event(Wipefs(md), ok), Event(Rmdir(mp), gone)];
      }
    }
  }
}
