/**
 * The world under raid.go: superblocks on disks, assembled arrays, the mount table and the
 * two /etc files, with the effect of each external command. Any command may fail without
 * effect; the kernel refuses what is busy. Every command run is logged with its outcome.
 */
module Machines {
  import opened GoStrings
  import opened EtcFiles
  import opened ProcFiles

  datatype Array = Array(uuid: nat, members: set<string>)

  datatype Cmd =
    | CatMounts | CatMdstat | Detail(md: string) | DetailScan(md: string)
    | CreateMd(md: string, level: string, devices: seq<string>)
    | StopMd(md: string) | AddMd(md: string, disk: string)
    | FailMd(md: string, disk: string) | RemoveMd(md: string, disk: string)
    | ZeroSuperblock(dev: string) | Wipefs(dev: string) | Partprobe(dev: string)
    | Mkfs(tool: string, dev: string) | Blkid(dev: string)
    | MountFs(fsType: string, dev: string, target: string) | Umount(target: string)
    | Mkdir(path: string) | Rmdir(path: string) | UpdateInitramfs
    | HasTool(tool: string) | AptInstall(pkg: string)

  datatype Event = Event(cmd: Cmd, ok: bool)

  datatype World = World(
    disks: map<string, nat>,     // device -> the array uuid in its superblock
    arrays: map<string, Array>,  // assembled arrays by device name
    nextUuid: nat,               // uuids below this one have been used
    mounts: seq<Mount>,
    fsUuid: map<string, string>, // what blkid prints for a device
    fstab: string,
    conf: string,
    log: seq<Event>)

  // ---- Well-formed worlds ----------------------------------------------------

  /** A member carries its array's superblock, and no two arrays share a uuid. */
  ghost predicate ArraysOk(disks: map<string, nat>, arrays: map<string, Array>, nextUuid: nat) {
    && (forall d :: d in disks ==> ValidDevice(d) && disks[d] < nextUuid)
    && (forall md :: md in arrays ==> ValidMDDevice(md) && arrays[md].uuid < nextUuid && md !in arrays[md].members)
    && (forall md, d :: md in arrays && d in arrays[md].members ==> d in disks && disks[d] == arrays[md].uuid)
    && (forall md, other :: md in arrays && other in arrays && arrays[md].uuid == arrays[other].uuid ==> md == other)
  }

  predicate MountsOk(ms: seq<Mount>) {
    forall m :: m in ms ==> MountLineOk(m)
  }

  predicate FsUuidsOk(fsUuid: map<string, string>) {
    forall d :: d in fsUuid ==> Token(fsUuid[d])
  }

  ghost predicate Inv(w: World) {
    ArraysOk(w.disks, w.arrays, w.nextUuid) && MountsOk(w.mounts) && FsUuidsOk(w.fsUuid)
  }

  predicate IsMember(w: World, dev: string) {
    exists md :: md in w.arrays && dev in w.arrays[md].members
  }

  /** Exclusive access to the device is refused: it is mounted or part of an array. */
  predicate Busy(w: World, dev: string) {
    IsMember(w, dev) || Mounted(w.mounts, dev)
  }

  predicate Carries(w: World, dev: string, uuid: nat) {
    dev in w.disks && w.disks[dev] == uuid
  }

  function Logged(w: World, cmd: Cmd, ok: bool): World {
    w.(log := w.log + [Event(cmd, ok)])
  }

  /** The events between two worlds. */
  function Since(w: World, w': World): seq<Event> {
    if |w.log| <= |w'.log| then w'.log[|w.log|..] else []
  }

  predicate Did(w: World, w': World, cmd: Cmd) {
    Event(cmd, true) in Since(w, w')
  }

  predicate Tried(w: World, w': World, cmd: Cmd) {
    exists e :: e in Since(w, w') && e.cmd == cmd
  }

  function Cmds(s: seq<Event>): seq<Cmd> {
    seq(|s|, i requires 0 <= i < |s| => s[i].cmd)
  }

  /** Exactly these commands were run between two worlds, in this order. */
  predicate Ran(w: World, w': World, cmds: seq<Cmd>) {
    w.log <= w'.log && Cmds(Since(w, w')) == cmds
  }

  lemma {:induction false} RanNone(w: World, w': World)
    ensures w'.log == w.log ==> Ran(w, w', [])
  {
  }

  lemma {:induction false} RanOne(w: World, w': World, cmd: Cmd, ok: bool)
    ensures w'.log == w.log + [Event(cmd, ok)] ==> Ran(w, w', [cmd])
  {
    if w'.log == w.log + [Event(cmd, ok)] {
      assert Since(w, w') == [Event(cmd, ok)];
    }
  }

  lemma {:induction false} RanThen(w: World, u: World, w': World, a: seq<Cmd>, b: seq<Cmd>)
    ensures Ran(w, u, a) && Ran(u, w', b) ==> Ran(w, w', a + b)
  {
    if Ran(w, u, a) && Ran(u, w', b) {
      assert Since(w, w') == Since(w, u) + Since(u, w');
      CmdsAppend(Since(w, u), Since(u, w'));
    }
  }

  lemma {:induction false} CmdsAppend(s: seq<Event>, t: seq<Event>)
    ensures Cmds(s + t) == Cmds(s) + Cmds(t)
  {
  }

  /** Every read of /proc/mounts and /proc/mdstat succeeded. */
  predicate ProcReadable(w: World, w': World) {
    forall e :: e in Since(w, w') && (e.cmd == CatMounts || e.cmd == CatMdstat) ==> e.ok
  }

  // ---- Honest reports --------------------------------------------------------

  predicate EntryHonest(e: MdEntry, arrays: map<string, Array>) {
    && MdEntryOk(e)
    && "/dev/" + e.name in arrays
    && (forall m :: m in e.members ==> "/dev/" + m in arrays["/dev/" + e.name].members)
    && (forall d :: d in arrays["/dev/" + e.name].members ==> exists m :: m in e.members && d == "/dev/" + m)
  }

  predicate ListingHonest(es: seq<MdEntry>, arrays: map<string, Array>) {
    && (forall e :: e in es ==> EntryHonest(e, arrays))
    && (forall md :: md in arrays ==> exists e :: e in es && md == "/dev/" + e.name)
  }

  predicate PreambleOk(pre: seq<string>) {
    forall l :: l in pre ==> OtherLine(l)
  }

  ghost predicate MdstatHonest(out: string, arrays: map<string, Array>) {
    exists pre, es :: PreambleOk(pre) && ListingHonest(es, arrays) && out == MdstatText(pre, es)
  }

  ghost function SeqOf(s: set<string>): (r: seq<string>)
    ensures forall x :: x in r <==> x in s
  {
    if s == {} then []
    else
      var x :| x in s;
      SeqOf(s - {x}) + [x]
  }

  ghost function BaseNames(ds: seq<string>): (r: seq<string>)
    requires forall d :: d in ds ==> ValidDevice(d)
    ensures |r| == |ds|
    ensures forall i :: 0 <= i < |ds| ==> ds[i] == "/dev/" + r[i]
    ensures forall m :: m in r ==> BareToken(m)
  {
    if ds == [] then []
    else
      assert ValidDevice(ds[0]);
      [ds[0][5..]] + BaseNames(ds[1..])
  }

  ghost function NoTags(n: nat): (r: seq<string>)
    ensures |r| == n && forall t :: t in r ==> t == "0]"
  {
    if n == 0 then [] else ["0]"] + NoTags(n - 1)
  }

  lemma {:induction false} EntryExists(md: string, arrays: map<string, Array>) returns (e: MdEntry)
    requires md in arrays && ValidMDDevice(md)
    requires forall d :: d in arrays[md].members ==> ValidDevice(d)
    ensures EntryHonest(e, arrays) && md == "/dev/" + e.name
  {
    var ds := SeqOf(arrays[md].members);
    var ms := BaseNames(ds);
    ValidDeviceChars(md);
    assert md[..7] == "/dev/md";
    e := MdEntry(md[5..], [], ms, NoTags(|ms|), []);
    assert md == "/dev/" + e.name;
    assert e.name[0] == md[5] == "/dev/md"[5] && e.name[1] == md[6] == "/dev/md"[6];
    assert e.name[..2] == "md";
    forall m | m in ms
      ensures "/dev/" + m in arrays[md].members
    {
      var i :| 0 <= i < |ms| && ms[i] == m;
      assert ds[i] in ds;
    }
    forall d | d in arrays[md].members
      ensures exists m :: m in ms && d == "/dev/" + m
    {
      var i :| 0 <= i < |ds| && ds[i] == d;
      assert ms[i] in ms;
    }
  }

  lemma {:induction false} EntriesExist(mds: seq<string>, arrays: map<string, Array>) returns (es: seq<MdEntry>)
    requires forall md :: md in mds ==> md in arrays
    requires forall md :: md in arrays ==> ValidMDDevice(md) && forall d :: d in arrays[md].members ==> ValidDevice(d)
    ensures forall e :: e in es ==> EntryHonest(e, arrays)
    ensures forall md :: md in mds ==> exists e :: e in es && md == "/dev/" + e.name
  {
    if mds == [] {
      es := [];
    } else {
      var rest := EntriesExist(mds[1..], arrays);
      assert mds[0] in mds;
      var e := EntryExists(mds[0], arrays);
      es := [e] + rest;
      forall md | md in mds
        ensures exists e :: e in es && md == "/dev/" + e.name
      {
        if md == mds[0] {
          assert e in es;
        } else {
          assert md in mds[1..];
          var r :| r in rest && md == "/dev/" + r.name;
          assert r in es;
        }
      }
    }
  }

  lemma {:induction false} ListingExists(w: World)
    requires Inv(w)
    ensures exists es :: ListingHonest(es, w.arrays)
  {
    var es := EntriesExist(SeqOf(w.arrays.Keys), w.arrays);
    assert ListingHonest(es, w.arrays);
  }

  /** Every array with a member on the disk is reported, and only those. */
  lemma {:induction false} ArraysForDiskExact(out: string, w: World, device: string)
    requires Inv(w) && MdstatHonest(out, w.arrays) && ValidDevice(device)
    ensures forall md :: md in ScanMdstat(Lines(out), device[5..]) <==>
              md in w.arrays && exists d :: d in w.arrays[md].members && HasPrefix(d, device)
  {
    var pre: seq<string>, es: seq<MdEntry> :| PreambleOk(pre) && ListingHonest(es, w.arrays) && out == MdstatText(pre, es);
    var base := device[5..];
    assert device == "/dev/" + base;
    ScanMdstatExact(pre, es, base);
    ArraysWithMember(es, base);
    forall md | md in ArraysWith(es, base)
      ensures md in w.arrays && exists d :: d in w.arrays[md].members && HasPrefix(d, device)
    {
      var e: MdEntry, m: string :| e in es && m in e.members && HasPrefix(m, base) && md == "/dev/" + e.name;
      assert EntryHonest(e, w.arrays);
      PrefixUnderDev(m, base);
    }
    forall md, d | md in w.arrays && d in w.arrays[md].members && HasPrefix(d, device)
      ensures md in ArraysWith(es, base)
    {
      var e: MdEntry :| e in es && md == "/dev/" + e.name;
      assert EntryHonest(e, w.arrays);
      var m :| m in e.members && d == "/dev/" + m;
      PrefixUnderDev(m, base);
    }
  }

  lemma {:induction false} PrefixUnderDev(m: string, base: string)
    ensures HasPrefix("/dev/" + m, "/dev/" + base) <==> HasPrefix(m, base)
  {
    if |base| <= |m| {
      assert ("/dev/" + m)[..5 + |base|] == "/dev/" + m[..|base|];
      assert ("/dev/" + base)[5..] == base && ("/dev/" + m[..|base|])[5..] == m[..|base|];
    }
  }

  lemma {:induction false} DetailExists(w: World, md: string)
    requires Inv(w) && md in w.arrays
    ensures exists out :: DetailHonest(out, md, w.arrays[md].members)
  {
    var ds := SeqOf(w.arrays[md].members);
    forall d | d in ds
      ensures Token(d) && '\n' !in d
    {
      ValidDeviceChars(d);
    }
    var out := Unlines(ds + [""]);
    forall i | 0 <= i < |ds + [""]|
      ensures '\n' !in (ds + [""])[i]
    {
      assert i < |ds| ==> ds[i] in ds;
    }
    SplitJoin(ds + [""], '\n');
    forall d | d in ds
      ensures d in Lines(out) && Fields(d) != [] && LastField(d) == d
    {
      FieldsOne(d);
    }
    assert DetailHonest(out, md, w.arrays[md].members) by {
      forall l | l in Lines(out) && Fields(l) != []
        ensures l in ds
      {
        assert l in ds || l == "";
      }
    }
  }

  // ---- Effects ---------------------------------------------------------------

  /** The mount that `umount target` takes down: the last one at the path or of the device. */
  predicate UmountMatches(m: Mount, target: string) {
    m.dev == target || m.mountPoint == Mangle(target)
  }

  function RemoveLast(ms: seq<Mount>, target: string): (r: seq<Mount>)
    ensures forall m :: m in r ==> m in ms
    ensures forall m :: m in ms && !UmountMatches(m, target) ==> m in r
  {
    if ms == [] then []
    else if UmountMatches(ms[|ms| - 1], target) then ms[..|ms| - 1]
    else RemoveLast(ms[..|ms| - 1], target) + [ms[|ms| - 1]]
  }

  predicate CanUmount(ms: seq<Mount>, target: string) {
    exists m :: m in ms && UmountMatches(m, target)
  }

  function NewMount(fsType: string, dev: string, target: string): Mount {
    Mount(dev, Mangle(target), (if fsType == "" then "auto" else fsType) + " rw,relatime 0 0")
  }

  /** mount(8) refuses an unknown type name and a device already mounted at the target. */
  predicate CanMount(w: World, fsType: string, dev: string, target: string) {
    && Token(dev) && HasPrefix(target, "/") && NoSpace(fsType)
    && (forall m :: m in w.mounts ==> !(m.dev == dev && m.mountPoint == Mangle(target)))
  }

  predicate CanCreate(w: World, md: string, devices: seq<string>) {
    && md !in w.arrays && md !in devices
    && (forall d :: d in devices ==> !Busy(w, d))
    && (forall i, j :: 0 <= i < j < |devices| ==> devices[i] != devices[j])
  }

  function Created(w: World, md: string, devices: seq<string>): World {
    w.(disks := w.disks + (map d | d in devices :: w.nextUuid),
       arrays := w.arrays[md := Array(w.nextUuid, set d | d in devices)],
       nextUuid := w.nextUuid + 1)
  }

  function Added(w: World, md: string, disk: string): World
    requires md in w.arrays
  {
    w.(disks := w.disks[disk := w.arrays[md].uuid],
       arrays := w.arrays[md := w.arrays[md].(members := w.arrays[md].members + {disk})])
  }

  /** mdadm --remove detaches the disk and leaves its superblock in place. */
  function Detached(w: World, md: string, disk: string): World
    requires md in w.arrays
  {
    w.(arrays := w.arrays[md := w.arrays[md].(members := w.arrays[md].members - {disk})])
  }

  lemma {:induction false} CreatedInv(w: World, md: string, devices: seq<string>)
    requires Inv(w) && CanCreate(w, md, devices) && ValidMDDevice(md)
    requires forall d :: d in devices ==> ValidDevice(d)
    ensures Inv(Created(w, md, devices))
  {
    var v := Created(w, md, devices);
    forall d | d in v.disks
      ensures ValidDevice(d) && v.disks[d] < v.nextUuid && (d !in devices ==> d in w.disks && v.disks[d] == w.disks[d])
    {
    }
    forall a, d | a in v.arrays && d in v.arrays[a].members
      ensures d in v.disks && v.disks[d] == v.arrays[a].uuid
    {
      if a == md {
        assert d in devices;
      } else {
        assert IsMember(w, d) && Busy(w, d);
        assert d !in devices;
      }
    }
    forall a, b | a in v.arrays && b in v.arrays && v.arrays[a].uuid == v.arrays[b].uuid
      ensures a == b
    {
    }
    assert ArraysOk(v.disks, v.arrays, v.nextUuid);
  }

  lemma {:induction false} AddedInv(w: World, md: string, disk: string)
    requires Inv(w) && md in w.arrays && ValidDevice(disk) && disk != md && !Busy(w, disk)
    ensures Inv(Added(w, md, disk))
  {
    var v := Added(w, md, disk);
    forall a, d | a in v.arrays && d in v.arrays[a].members
      ensures d in v.disks && v.disks[d] == v.arrays[a].uuid
    {
      if d == disk {
        assert a == md || !IsMember(w, d);
      }
    }
  }

  lemma {:induction false} UnlabelledInv(w: World, dev: string)
    requires Inv(w) && !IsMember(w, dev)
    ensures Inv(w.(disks := w.disks - {dev}))
  {
  }

  // ---- The machine -----------------------------------------------------------

  method SomeMdstat(w: World) returns (out: string)
    requires Inv(w)
    ensures MdstatHonest(out, w.arrays)
  {
    ListingExists(w);
    var none: seq<string> := [];
    assert PreambleOk(none);
    var pre: seq<string> :| PreambleOk(pre);
    var es: seq<MdEntry> :| ListingHonest(es, w.arrays);
    assert forall e :: e in es ==> EntryHonest(e, w.arrays);
    out := MdstatText(pre, es);
  }

  lemma {:induction false} NewMountOk(w: World, fsType: string, dev: string, target: string)
    requires CanMount(w, fsType, dev, target)
    ensures MountLineOk(NewMount(fsType, dev, target))
  {
    var m := NewMount(fsType, dev, target);
    assert target[0] == '/';
    assert m.mountPoint[0] == '/';
  }

  class Machine {
    var w: World
    /** Reads and writes of /etc files succeed. */
    const fileIO: bool
    /** The commands that never fail by themselves; the kernel may still refuse what they ask. */
    const works: Cmd -> bool

    /** A command whose effects lie outside the model. */
    method Run(cmd: Cmd) returns (ok: bool)
      requires Inv(w)
      modifies this
      ensures w == Logged(old(w), cmd, ok) && Inv(w)
      ensures works(cmd) ==> ok
    {
      ok := *;
      ok := ok || works(cmd);
      w := Logged(w, cmd, ok);
    }

    /** `mdadm --detail --scan` prints the line of the array, if it is assembled. */
    method MdadmDetailScan(md: string) returns (ok: bool, out: string)
      requires Inv(w)
      modifies this
      ensures w == Logged(old(w), DetailScan(md), ok) && Inv(w)
      ensures ok ==> md in w.arrays && PrintedArray(TrimSpace(out), md, w.arrays[md].uuid)
      ensures works(DetailScan(md)) && md in old(w).arrays ==> ok
    {
      ok, out := *, "";
      ok := ok || works(DetailScan(md));
      ok := ok && md in w.arrays;
      if ok {
        ValidDeviceChars(md);
        PrintedArrayExists(md, w.arrays[md].uuid);
        out :| PrintedArray(TrimSpace(out), md, w.arrays[md].uuid);
      }
      w := Logged(w, DetailScan(md), ok);
    }

    method CatMounts() returns (ok: bool, out: string)
      requires Inv(w)
      modifies this
      ensures w == Logged(old(w), Cmd.CatMounts, ok) && Inv(w)
      ensures ok ==> out == MountsText(w.mounts)
      ensures works(Cmd.CatMounts) ==> ok
    {
      ok := *;
      ok := ok || works(Cmd.CatMounts);
      out := MountsText(w.mounts);
      w := Logged(w, Cmd.CatMounts, ok);
    }

    method CatMdstat() returns (ok: bool, out: string)
      requires Inv(w)
      modifies this
      ensures w == Logged(old(w), Cmd.CatMdstat, ok) && Inv(w)
      ensures ok ==> MdstatHonest(out, w.arrays)
      ensures works(Cmd.CatMdstat) ==> ok
    {
      ok := *;
      ok := ok || works(Cmd.CatMdstat);
      out := SomeMdstat(w);
      w := Logged(w, Cmd.CatMdstat, ok);
    }

    method MdadmDetail(md: string) returns (ok: bool, out: string)
      requires Inv(w)
      modifies this
      ensures w == Logged(old(w), Detail(md), ok) && Inv(w)
      ensures ok ==> md in w.arrays && DetailHonest(out, md, w.arrays[md].members)
      ensures works(Detail(md)) && md in old(w).arrays ==> ok
    {
      ok, out := *, "";
      ok := ok || works(Detail(md));
      ok := ok && md in w.arrays;
      if ok {
        DetailExists(w, md);
        out :| DetailHonest(out, md, w.arrays[md].members);
      }
      w := Logged(w, Detail(md), ok);
    }

    method MdadmCreate(md: string, level: string, devices: seq<string>) returns (ok: bool)
      requires Inv(w) && ValidMDDevice(md) && forall d :: d in devices ==> ValidDevice(d)
      modifies this
      ensures Inv(w)
      ensures ok ==> CanCreate(old(w), md, devices)
      ensures w == Logged(if ok then Created(old(w), md, devices) else old(w), CreateMd(md, level, devices), ok)
      ensures works(CreateMd(md, level, devices)) && CanCreate(old(w), md, devices) ==> ok
    {
      ok := *;
      ok := ok || works(CreateMd(md, level, devices));
      ok := ok && CanCreate(w, md, devices);
      if ok {
        CreatedInv(w, md, devices);
        w := Created(w, md, devices);
      }
      w := Logged(w, CreateMd(md, level, devices), ok);
    }

    /** The kernel refuses to stop an array that is mounted. */
    method MdadmStop(md: string) returns (ok: bool)
      requires Inv(w)
      modifies this
      ensures Inv(w)
      ensures ok ==> md in old(w).arrays && !Mounted(old(w).mounts, md)
      ensures w == Logged(if ok then old(w).(arrays := old(w).arrays - {md}) else old(w), StopMd(md), ok)
      ensures works(StopMd(md)) && md in old(w).arrays && !Mounted(old(w).mounts, md) ==> ok
    {
      ok := *;
      ok := ok || works(StopMd(md));
      ok := ok && md in w.arrays && !Mounted(w.mounts, md);
      if ok {
        w := w.(arrays := w.arrays - {md});
      }
      w := Logged(w, StopMd(md), ok);
    }

    method MdadmAdd(md: string, disk: string) returns (ok: bool)
      requires Inv(w) && ValidDevice(disk)
      modifies this
      ensures Inv(w)
      ensures ok ==> md in old(w).arrays && disk != md && !Busy(old(w), disk)
      ensures w == Logged(if ok then Added(old(w), md, disk) else old(w), AddMd(md, disk), ok)
      ensures works(AddMd(md, disk)) && md in old(w).arrays && disk != md && !Busy(old(w), disk) ==> ok
    {
      ok := *;
      ok := ok || works(AddMd(md, disk));
      ok := ok && md in w.arrays && disk != md && !Busy(w, disk);
      if ok {
        AddedInv(w, md, disk);
        w := Added(w, md, disk);
      }
      w := Logged(w, AddMd(md, disk), ok);
    }

    method MdadmRemove(md: string, disk: string) returns (ok: bool)
      requires Inv(w)
      modifies this
      ensures Inv(w)
      ensures ok ==> md in old(w).arrays && disk in old(w).arrays[md].members
      ensures w == Logged(if ok then Detached(old(w), md, disk) else old(w), RemoveMd(md, disk), ok)
      ensures works(RemoveMd(md, disk)) && md in old(w).arrays && disk in old(w).arrays[md].members ==> ok
    {
      ok := *;
      ok := ok || works(RemoveMd(md, disk));
      ok := ok && md in w.arrays && disk in w.arrays[md].members;
      if ok {
        w := Detached(w, md, disk);
      }
      w := Logged(w, RemoveMd(md, disk), ok);
    }

    method MdadmZeroSuperblock(dev: string) returns (ok: bool)
      requires Inv(w)
      modifies this
      ensures Inv(w)
      ensures ok ==> !Busy(old(w), dev)
      ensures w == Logged(if ok then old(w).(disks := old(w).disks - {dev}) else old(w), ZeroSuperblock(dev), ok)
      ensures works(ZeroSuperblock(dev)) && !Busy(old(w), dev) ==> ok
    {
      ok := *;
      ok := ok || works(ZeroSuperblock(dev));
      ok := ok && !Busy(w, dev);
      if ok {
        UnlabelledInv(w, dev);
        w := w.(disks := w.disks - {dev});
      }
      w := Logged(w, ZeroSuperblock(dev), ok);
    }

    /** wipefs -a erases every signature, RAID superblocks included. */
    method RunWipefs(dev: string) returns (ok: bool)
      requires Inv(w)
      modifies this
      ensures Inv(w)
      ensures ok ==> !Busy(old(w), dev)
      ensures w == Logged(if ok then old(w).(disks := old(w).disks - {dev}, fsUuid := old(w).fsUuid - {dev})
                          else old(w), Wipefs(dev), ok)
      ensures works(Wipefs(dev)) && !Busy(old(w), dev) ==> ok
    {
      ok := *;
      ok := ok || works(Wipefs(dev));
      ok := ok && !Busy(w, dev);
      if ok {
        UnlabelledInv(w, dev);
        w := w.(disks := w.disks - {dev}, fsUuid := w.fsUuid - {dev});
      }
      w := Logged(w, Wipefs(dev), ok);
    }

    method RunMkfs(tool: string, dev: string) returns (ok: bool)
      requires Inv(w)
      modifies this
      ensures Inv(w)
      ensures ok ==> !Busy(old(w), dev)
      ensures w == Logged(old(w).(fsUuid := w.fsUuid), Mkfs(tool, dev), ok)
      ensures !ok ==> w.fsUuid == old(w).fsUuid
      ensures works(Mkfs(tool, dev)) && !Busy(old(w), dev) ==> ok
    {
      ok := *;
      ok := ok || works(Mkfs(tool, dev));
      ok := ok && !Busy(w, dev);
      if ok {
        assert Token("0");
        var uuid: string :| Token(uuid);
        w := w.(fsUuid := w.fsUuid[dev := uuid]);
      }
      w := Logged(w, Mkfs(tool, dev), ok);
    }

    method RunBlkid(dev: string) returns (ok: bool, out: string)
      requires Inv(w)
      modifies this
      ensures w == Logged(old(w), Blkid(dev), ok) && Inv(w)
      ensures ok ==> dev in w.fsUuid && out == w.fsUuid[dev] + "\n"
      ensures works(Blkid(dev)) && dev in old(w).fsUuid ==> ok
    {
      ok, out := *, "";
      ok := ok || works(Blkid(dev));
      ok := ok && dev in w.fsUuid;
      if ok {
        out := w.fsUuid[dev] + "\n";
      }
      w := Logged(w, Blkid(dev), ok);
    }

    method RunMount(fsType: string, dev: string, target: string) returns (ok: bool)
      requires Inv(w)
      modifies this
      ensures Inv(w)
      ensures ok ==> CanMount(old(w), fsType, dev, target)
      ensures w == Logged(if ok then old(w).(mounts := old(w).mounts + [NewMount(fsType, dev, target)]) else old(w),
                          MountFs(fsType, dev, target), ok)
      ensures works(MountFs(fsType, dev, target)) && CanMount(old(w), fsType, dev, target) ==> ok
    {
      ok := *;
      ok := ok || works(MountFs(fsType, dev, target));
      ok := ok && CanMount(w, fsType, dev, target);
      if ok {
        NewMountOk(w, fsType, dev, target);
        w := w.(mounts := w.mounts + [NewMount(fsType, dev, target)]);
      }
      w := Logged(w, MountFs(fsType, dev, target), ok);
    }

    method RunUmount(target: string) returns (ok: bool)
      requires Inv(w)
      modifies this
      ensures Inv(w)
      ensures ok ==> CanUmount(old(w).mounts, target)
      ensures w == Logged(if ok then old(w).(mounts := RemoveLast(old(w).mounts, target)) else old(w), Umount(target), ok)
      ensures works(Umount(target)) && CanUmount(old(w).mounts, target) ==> ok
    {
      ok := *;
      ok := ok || works(Umount(target));
      ok := ok && CanUmount(w.mounts, target);
      if ok {
        w := w.(mounts := RemoveLast(w.mounts, target));
      }
      w := Logged(w, Umount(target), ok);
    }

    // Reads and writes of the two /etc files; a failed write leaves the file as it was.

    method FileAccess() returns (ok: bool)
      ensures fileIO ==> ok
    {
      ok := *;
      ok := ok || fileIO;
    }

    method WriteFstab(text: string) returns (ok: bool)
      requires Inv(w)
      modifies this
      ensures Inv(w) && (fileIO ==> ok)
      ensures w == if ok then old(w).(fstab := text) else old(w)
    {
      ok := FileAccess();
      if ok {
        w := w.(fstab := text);
      }
    }

    method WriteConf(text: string) returns (ok: bool)
      requires Inv(w)
      modifies this
      ensures Inv(w) && (fileIO ==> ok)
      ensures w == if ok then old(w).(conf := text) else old(w)
    {
      ok := FileAccess();
      if ok {
        w := w.(conf := text);
      }
    }
  }
}
