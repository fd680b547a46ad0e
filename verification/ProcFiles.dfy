/**
 * The texts that the kernel and mdadm print and raid.go scans: /proc/mounts, /proc/mdstat
 * and `mdadm --detail`, with the scanners and what each scan finds.
 */
module ProcFiles {
  import opened GoStrings
  import opened EtcFiles

  // ---- Device names (system/runner.go) ---------------------------------------

  predicate IsDeviceChar(c: char) {
    'a' <= c <= 'z' || 'A' <= c <= 'Z' || IsDigit(c) || c == '/'
  }

  /** ^/dev/[a-zA-Z0-9/]+$ */
  predicate ValidDevice(d: string) {
    HasPrefix(d, "/dev/") && |d| > 5 && forall i :: 5 <= i < |d| ==> IsDeviceChar(d[i])
  }

  /** ^/dev/md[0-9]+$ */
  predicate ValidMDDevice(d: string) {
    HasPrefix(d, "/dev/md") && |d| > 7 && forall i :: 7 <= i < |d| ==> IsDigit(d[i])
  }

  /** A disk is "/dev/" and letters, digits and slashes; an array "/dev/md" and digits. */
  lemma {:induction false} DeviceNames(name: string)
    ensures ValidDevice("/dev/" + name) <==>
              name != "" && forall i :: 0 <= i < |name| ==> IsDigit(name[i]) || 'a' <= name[i] <= 'z' || 'A' <= name[i] <= 'Z' || name[i] == '/'
    ensures ValidMDDevice("/dev/md" + name) <==> name != "" && forall i :: 0 <= i < |name| ==> '0' <= name[i] <= '9'
  {
    var d, m := "/dev/" + name, "/dev/md" + name;
    assert forall i :: 0 <= i < |name| ==> d[i + 5] == name[i] && m[i + 7] == name[i];
    assert forall i :: 5 <= i < |d| ==> d[i] == name[i - 5];
    assert forall i :: 7 <= i < |m| ==> m[i] == name[i - 7];
  }

  lemma {:induction false} ValidDeviceChars(d: string)
    requires ValidDevice(d) || ValidMDDevice(d)
    ensures d != "" && forall i :: 0 <= i < |d| ==> IsDeviceChar(d[i])
    ensures Token(d) && '[' !in d && ':' !in d && '\n' !in d
    ensures ValidDevice(d)
  {
    if ValidMDDevice(d) {
      assert d[..7] == "/dev/md";
      assert forall i :: 0 <= i < 7 ==> d[i] == "/dev/md"[i];
    } else {
      assert forall i :: 0 <= i < 5 ==> d[i] == "/dev/"[i];
    }
  }

  // ---- /proc/mounts ----------------------------------------------------------

  /** One mount, in the escaped form in which the kernel prints it. */
  datatype Mount = Mount(dev: string, mountPoint: string, rest: string)

  /** proc(5): white space, backslash and '#' in a path are printed as octal escapes. */
  function MangleChar(c: char): (r: string)
    ensures '\n' !in r && r != ""
  {
    if c == ' ' then "\\040" else if c == '\t' then "\\011" else if c == '\n' then "\\012"
    else if c == '\\' then "\\134" else if c == '#' then "\\043" else [c]
  }

  function Mangle(path: string): (r: string)
    ensures '\n' !in r
    ensures path != "" && path[0] == '/' ==> r != "" && r[0] == '/'
  {
    if path == "" then "" else MangleChar(path[0]) + Mangle(path[1..])
  }

  lemma {:induction false} MangleUnchanged(path: string)
    requires NoSpace(path) && '\\' !in path && '#' !in path
    ensures Mangle(path) == path
  {
    if path != "" {
      MangleUnchanged(path[1..]);
      assert [path[0]] + path[1..] == path;
    }
  }

  /** The escaped form tells paths apart and holds no white space of a path that has none. */
  lemma {:induction false} MangleInjective(a: string, b: string)
    requires Mangle(a) == Mangle(b)
    ensures a == b
  {
    if a != "" && b != "" {
      var x, y := MangleChar(a[0]), MangleChar(b[0]);
      MangleCharPrefix(a[0], b[0]);
      var s := Mangle(a);
      assert s == x + Mangle(a[1..]) == y + Mangle(b[1..]);
      assert s[..|x|] == x && s[..|y|] == y;
      assert |x| == |y|;
      assert s[|x|..] == Mangle(a[1..]) == Mangle(b[1..]);
      MangleInjective(a[1..], b[1..]);
      assert a == [a[0]] + a[1..] && b == [b[0]] + b[1..];
    }
  }

  lemma {:induction false} MangleCharPrefix(c: char, d: char)
    ensures MangleChar(c)[0] == MangleChar(d)[0] ==> |MangleChar(c)| == |MangleChar(d)|
    ensures MangleChar(c) == MangleChar(d) ==> c == d
  {
  }

  lemma {:induction false} MangleNoSpace(path: string)
    requires NoSpace(path)
    ensures NoSpace(Mangle(path))
  {
    if path != "" {
      MangleNoSpace(path[1..]);
    }
  }

  predicate MountLineOk(m: Mount) {
    && Token(m.dev)
    && HasPrefix(m.mountPoint, "/") && '\n' !in m.mountPoint
    && '\n' !in m.rest
  }

  function MountLine(m: Mount): string {
    m.dev + " " + m.mountPoint + " " + m.rest
  }

  function MountLines(ms: seq<Mount>): (r: seq<string>)
    ensures |r| == |ms|
    ensures forall i :: 0 <= i < |ms| ==> r[i] == MountLine(ms[i])
  {
    if ms == [] then [] else [MountLine(ms[0])] + MountLines(ms[1..])
  }

  function MountsText(ms: seq<Mount>): string {
    Unlines(MountLines(ms) + [""])
  }

  /** The code's prefix test on the first field of each line. */
  predicate AnySourceWithPrefix(ls: seq<string>, device: string) {
    ls != [] && ((Fields(ls[0]) != [] && HasPrefix(Fields(ls[0])[0], device))
                 || AnySourceWithPrefix(ls[1..], device))
  }

  predicate Mounted(ms: seq<Mount>, dev: string) {
    exists m :: m in ms && m.dev == dev
  }

  lemma {:induction false} MountsTextLines(ms: seq<Mount>)
    requires forall m :: m in ms ==> MountLineOk(m)
    ensures Lines(MountsText(ms)) == MountLines(ms) + [""]
  {
    var ls := MountLines(ms) + [""];
    forall i | 0 <= i < |ls|
      ensures '\n' !in ls[i]
    {
      if i < |ms| {
        assert ms[i] in ms;
        assert ls[i] == MountLine(ms[i]);
      }
    }
    SplitJoin(ls, '\n');
  }

  lemma {:induction false} MountLineSource(m: Mount)
    requires MountLineOk(m)
    ensures Fields(MountLine(m)) == [m.dev] + Fields(m.mountPoint + ([' '] + m.rest))
  {
    var tail := m.mountPoint + ([' '] + m.rest);
    assert MountLine(m) == m.dev + ([' '] + tail);
    FieldsToken(m.dev, [' '] + tail);
    FieldsSpace(' ', tail);
  }

  /** The first two fields of a line of /proc/mounts. */
  lemma {:induction false} MountLineFields(m: Mount)
    requires MountLineOk(m)
    ensures var f := Fields(MountLine(m)); |f| >= 2 && f[0] == m.dev && f[1] != ""
    ensures NoSpace(m.mountPoint) ==> Fields(MountLine(m))[1] == m.mountPoint
  {
    MountLineSource(m);
    FieldsAreTokens(MountLine(m));
    var tail := m.mountPoint + ([' '] + m.rest);
    assert tail[0] == '/';
    if NoSpace(m.mountPoint) {
      FieldsToken(m.mountPoint, [' '] + m.rest);
    }
  }

  lemma {:induction false} MountLinesCons(ms: seq<Mount>)
    requires ms != []
    ensures MountLines(ms) + [""] == [MountLine(ms[0])] + (MountLines(ms[1..]) + [""])
  {
  }

  lemma {:induction false} SourceStep(l: string, ls: seq<string>, device: string)
    ensures AnySourceWithPrefix([l] + ls, device) <==>
            (Fields(l) != [] && HasPrefix(Fields(l)[0], device)) || AnySourceWithPrefix(ls, device)
  {
    assert ([l] + ls)[1..] == ls;
  }

  lemma {:induction false} SourcesInLines(ms: seq<Mount>, device: string)
    requires forall m :: m in ms ==> MountLineOk(m)
    ensures AnySourceWithPrefix(MountLines(ms) + [""], device) <==>
            exists m :: m in ms && HasPrefix(m.dev, device)
  {
    if ms == [] {
      SourceStep("", [], device);
      assert [""] + [] == MountLines(ms) + [""];
    } else {
      SourcesInLines(ms[1..], device);
      MountLinesCons(ms);
      MountLineSource(ms[0]);
      SourceStep(MountLine(ms[0]), MountLines(ms[1..]) + [""], device);
      assert forall m :: m in ms <==> m == ms[0] || m in ms[1..];
    }
  }

  /** Scanning /proc/mounts for a prefix finds every mount source that has it. */
  lemma {:induction false} ScanMountsExact(ms: seq<Mount>, device: string)
    requires forall m :: m in ms ==> MountLineOk(m)
    ensures AnySourceWithPrefix(Lines(MountsText(ms)), device) <==>
            exists m :: m in ms && HasPrefix(m.dev, device)
  {
    MountsTextLines(ms);
    SourcesInLines(ms, device);
  }

  lemma {:induction false} TargetStep(l: string, ls: seq<string>, device: string)
    requires |Fields(l)| >= 2
    ensures FirstTarget([l] + ls, device) == if Fields(l)[0] == device then Fields(l)[1] else FirstTarget(ls, device)
  {
    assert ([l] + ls)[1..] == ls;
  }

  /** The mount point is the only one of the device. */
  predicate OnlyAt(ms: seq<Mount>, m: Mount) {
    m in ms && NoSpace(m.mountPoint) && forall n :: n in ms && n.dev == m.dev ==> n.mountPoint == m.mountPoint
  }

  /** The first mount of a device, as findMountPoint reports it. */
  lemma {:induction false} FirstTargetInLines(ms: seq<Mount>, device: string)
    requires Token(device) && forall m :: m in ms ==> MountLineOk(m)
    ensures FirstTarget(MountLines(ms) + [""], device) != "" <==> Mounted(ms, device)
  {
    if ms == [] {
      assert MountLines(ms) + [""] == [""] && [""][1..] == [];
    } else {
      FirstTargetInLines(ms[1..], device);
      MountLinesCons(ms);
      MountLineFields(ms[0]);
      TargetStep(MountLine(ms[0]), MountLines(ms[1..]) + [""], device);
      assert forall m :: m in ms <==> m == ms[0] || m in ms[1..];
    }
  }

  lemma {:induction false} OnlyTargetInLines(ms: seq<Mount>, m: Mount)
    requires (forall n :: n in ms ==> MountLineOk(n)) && OnlyAt(ms, m)
    ensures FirstTarget(MountLines(ms) + [""], m.dev) == m.mountPoint
  {
    MountLinesCons(ms);
    MountLineFields(ms[0]);
    TargetStep(MountLine(ms[0]), MountLines(ms[1..]) + [""], m.dev);
    if ms[0].dev != m.dev {
      assert m in ms[1..];
      OnlyTargetInLines(ms[1..], m);
    }
  }

  lemma {:induction false} FindMountPointExact(ms: seq<Mount>, device: string)
    requires Token(device) && forall m :: m in ms ==> MountLineOk(m)
    ensures FirstTarget(Lines(MountsText(ms)), device) != "" <==> Mounted(ms, device)
    ensures forall m :: OnlyAt(ms, m) && m.dev == device ==> FirstTarget(Lines(MountsText(ms)), device) == m.mountPoint
  {
    MountsTextLines(ms);
    FirstTargetInLines(ms, device);
    forall m | OnlyAt(ms, m) && m.dev == device
      ensures FirstTarget(MountLines(ms) + [""], device) == m.mountPoint
    {
      OnlyTargetInLines(ms, m);
    }
  }

  // ---- /proc/mdstat ----------------------------------------------------------

  /** An array's entry: "md0 : active raid1 sdb1[1] sda1[0]" and its continuation lines. */
  datatype MdEntry = MdEntry(name: string, words: seq<string>, members: seq<string>,
                             tags: seq<string>, more: seq<string>)

  predicate OtherLine(l: string) {
    !HasPrefix(l, "md") && '\n' !in l
  }

  predicate BareToken(s: string) {
    Token(s) && '[' !in s
  }

  predicate MdEntryOk(e: MdEntry) {
    && HasPrefix(e.name, "md") && BareToken(e.name)
    && (forall w :: w in e.words ==> BareToken(w))
    && (forall m :: m in e.members ==> BareToken(m))
    && |e.tags| == |e.members| && (forall t :: t in e.tags ==> NoSpace(t))
    && (forall l :: l in e.more ==> OtherLine(l))
  }

  function MemberTokens(members: seq<string>, tags: seq<string>): (r: seq<string>)
    requires |members| == |tags|
    ensures |r| == |members| && forall i :: 0 <= i < |r| ==> r[i] == members[i] + ['['] + tags[i]
  {
    if members == [] then []
    else [members[0] + ['['] + tags[0]] + MemberTokens(members[1..], tags[1..])
  }

  function HeaderTokens(e: MdEntry): seq<string>
    requires |e.tags| == |e.members|
  {
    [e.name] + (e.words + MemberTokens(e.members, e.tags))
  }

  function EntryLines(e: MdEntry): seq<string>
    requires |e.tags| == |e.members|
  {
    [Join(HeaderTokens(e), ' ')] + e.more
  }

  function MdstatLines(es: seq<MdEntry>): seq<string>
    requires forall e :: e in es ==> MdEntryOk(e)
  {
    if es == [] then []
    else
      assert MdEntryOk(es[0]);
      EntryLines(es[0]) + MdstatLines(es[1..])
  }

  /** A token such as "sdb1[1]" whose text before the bracket starts with the disk's name. */
  predicate MemberToken(f: string, base: string) {
    IndexOf(f, '[') > 0 && HasPrefix(f[..IndexOf(f, '[')], base)
  }

  /** arraysForDisk on the lines of /proc/mdstat. */
  function ScanMdstat(ls: seq<string>, base: string): seq<string> {
    if ls == [] then [] else ScanLine(ls[0], base) + ScanMdstat(ls[1..], base)
  }

  function ScanLine(line: string, base: string): seq<string> {
    if HasPrefix(line, "md") && AnyMemberToken(Fields(line), base) then ["/dev/" + Split(line, ' ')[0]] else []
  }

  lemma {:induction false} ScanStep(ls: seq<string>, i: nat, base: string)
    requires i < |ls|
    ensures ScanMdstat(ls[i..], base) == ScanLine(ls[i], base) + ScanMdstat(ls[i + 1..], base)
  {
    assert ls[i..][1..] == ls[i + 1..];
  }

  function ArraysWith(es: seq<MdEntry>, base: string): seq<string> {
    if es == [] then []
    else (if AnyMember(es[0].members, base) then ["/dev/" + es[0].name] else [])
         + ArraysWith(es[1..], base)
  }

  lemma {:induction false} FieldsOfJoin(ts: seq<string>)
    requires forall t :: t in ts ==> Token(t)
    ensures Fields(Join(ts, ' ')) == ts
  {
    if |ts| == 1 {
      FieldsOne(ts[0]);
    } else if ts != [] {
      assert Token(ts[0]);
      FieldsOfJoin(ts[1..]);
      FieldsAt(ts[0], ' ', Join(ts[1..], ' '));
      FieldsOne(ts[0]);
    }
  }

  lemma {:induction false} MemberTokenShape(m: string, tag: string, base: string)
    requires BareToken(m)
    ensures MemberToken(m + ['['] + tag, base) <==> HasPrefix(m, base)
  {
    IndexOfAt(m, '[', tag);
    assert (m + ['['] + tag)[..|m|] == m;
  }

  lemma {:induction false} HeaderTokensOk(e: MdEntry)
    requires MdEntryOk(e)
    ensures forall t :: t in HeaderTokens(e) ==> Token(t)
  {
    var mt := MemberTokens(e.members, e.tags);
    forall i | 0 <= i < |mt|
      ensures Token(mt[i])
    {
      assert e.members[i] in e.members && e.tags[i] in e.tags;
    }
  }

  predicate AnyMember(members: seq<string>, base: string) {
    exists m :: m in members && HasPrefix(m, base)
  }

  predicate AnyMemberToken(ts: seq<string>, base: string) {
    exists f :: f in ts && MemberToken(f, base)
  }

  lemma {:induction false} MemberTokensScan(members: seq<string>, tags: seq<string>, base: string)
    requires |members| == |tags| && forall m :: m in members ==> BareToken(m)
    ensures AnyMemberToken(MemberTokens(members, tags), base) <==> AnyMember(members, base)
  {
    if members != [] {
      MemberTokensScan(members[1..], tags[1..], base);
      MemberTokenShape(members[0], tags[0], base);
      var mt := MemberTokens(members, tags);
      assert mt[0] == members[0] + ['['] + tags[0] && mt[1..] == MemberTokens(members[1..], tags[1..]);
      assert forall f :: f in mt <==> f == mt[0] || f in mt[1..];
      assert forall m :: m in members <==> m == members[0] || m in members[1..];
    }
  }

  lemma {:induction false} HeaderTokensScan(e: MdEntry, base: string)
    requires MdEntryOk(e)
    ensures AnyMemberToken(HeaderTokens(e), base) <==> AnyMember(e.members, base)
  {
    var ts, mt := HeaderTokens(e), MemberTokens(e.members, e.tags);
    assert forall f :: f in ts <==> f == e.name || f in e.words || f in mt;
    assert forall f :: f == e.name || f in e.words ==> '[' !in f && IndexOf(f, '[') == -1;
    MemberTokensScan(e.members, e.tags, base);
  }

  /** The scan of a header line decides membership and recovers the array's name. */
  lemma {:induction false} HeaderScan(e: MdEntry, base: string)
    requires MdEntryOk(e)
    ensures var l := Join(HeaderTokens(e), ' ');
            && HasPrefix(l, "md")
            && Split(l, ' ')[0] == e.name
            && (AnyMemberToken(Fields(l), base) <==> AnyMember(e.members, base))
  {
    var ts := HeaderTokens(e);
    HeaderTokensOk(e);
    FieldsOfJoin(ts);
    HeaderTokensScan(e, base);
    assert ts[0] == e.name;
    forall i | 0 <= i < |ts|
      ensures ' ' !in ts[i]
    {
      assert ts[i] in ts;
    }
    SplitJoin(ts, ' ');
    assert e.name <= Join(ts, ' ');
  }

  lemma {:induction false} ScanOther(ls: seq<string>, rest: seq<string>, base: string)
    requires forall l :: l in ls ==> OtherLine(l)
    ensures ScanMdstat(ls + rest, base) == ScanMdstat(rest, base)
  {
    if ls == [] {
      assert ls + rest == rest;
    } else {
      assert (ls + rest)[1..] == ls[1..] + rest;
      assert OtherLine(ls[0]);
      ScanOther(ls[1..], rest, base);
    }
  }

  lemma {:induction false} ScanEntry(l: string, more: seq<string>, rest: seq<string>, base: string)
    requires forall k :: k in more ==> OtherLine(k)
    ensures ScanMdstat([l] + (more + rest), base) == ScanLine(l, base) + ScanMdstat(rest, base)
  {
    assert ([l] + (more + rest))[1..] == more + rest;
    ScanOther(more, rest, base);
  }

  lemma {:induction false} EntryScan(e: MdEntry, rest: seq<string>, base: string)
    requires MdEntryOk(e)
    ensures ScanMdstat(EntryLines(e) + rest, base)
         == (if AnyMember(e.members, base) then ["/dev/" + e.name] else []) + ScanMdstat(rest, base)
  {
    HeaderScan(e, base);
    var l := Join(HeaderTokens(e), ' ');
    assert EntryLines(e) + rest == [l] + (e.more + rest);
    ScanEntry(l, e.more, rest, base);
  }

  /** The token scan misses no member and invents none: arrays come out in file order. */
  lemma {:induction false} ScanMdstatLines(es: seq<MdEntry>, base: string)
    requires forall e :: e in es ==> MdEntryOk(e)
    ensures ScanMdstat(MdstatLines(es), base) == ArraysWith(es, base)
  {
    if es != [] {
      ScanMdstatLines(es[1..], base);
      EntryScan(es[0], MdstatLines(es[1..]), base);
    }
  }

  /** /proc/mdstat: a preamble of other lines, then the entries. */
  function MdstatText(pre: seq<string>, es: seq<MdEntry>): string
    requires forall e :: e in es ==> MdEntryOk(e)
  {
    Unlines(pre + MdstatLines(es) + [""])
  }

  lemma {:induction false} MdstatLinesOk(es: seq<MdEntry>)
    requires forall e :: e in es ==> MdEntryOk(e)
    ensures forall l :: l in MdstatLines(es) ==> '\n' !in l
  {
    if es != [] {
      var e := es[0];
      assert MdEntryOk(e);
      MdstatLinesOk(es[1..]);
      HeaderTokensOk(e);
      JoinFree(HeaderTokens(e), ' ', '\n');
    }
  }

  lemma {:induction false} JoinFree(xs: seq<string>, c: char, d: char)
    requires c != d && forall x :: x in xs ==> d !in x
    ensures d !in Join(xs, c)
  {
    if |xs| > 1 {
      JoinFree(xs[1..], c, d);
      assert xs[0] in xs;
    } else if |xs| == 1 {
      assert xs[0] in xs;
    }
  }

  lemma {:induction false} ScanMdstatExact(pre: seq<string>, es: seq<MdEntry>, base: string)
    requires forall l :: l in pre ==> OtherLine(l)
    requires forall e :: e in es ==> MdEntryOk(e)
    ensures ScanMdstat(Lines(MdstatText(pre, es)), base) == ArraysWith(es, base)
  {
    var body := MdstatLines(es);
    var ls := pre + body + [""];
    MdstatLinesOk(es);
    forall i | 0 <= i < |ls|
      ensures '\n' !in ls[i]
    {
      assert ls[i] in pre || ls[i] in body || ls[i] == "";
    }
    SplitJoin(ls, '\n');
    assert ls == pre + (body + [""]);
    ScanOther(pre, body + [""], base);
    ScanBlankTail(body, base);
    ScanMdstatLines(es, base);
  }

  lemma {:induction false} ScanBlankTail(ls: seq<string>, base: string)
    ensures ScanMdstat(ls + [""], base) == ScanMdstat(ls, base)
  {
    if ls == [] {
      assert ls + [""] == [""] && [""][1..] == [];
    } else {
      assert (ls + [""])[1..] == ls[1..] + [""];
      ScanBlankTail(ls[1..], base);
    }
  }

  lemma {:induction false} ArraysWithMember(es: seq<MdEntry>, base: string)
    ensures forall md :: md in ArraysWith(es, base) <==>
      exists e, m :: e in es && m in e.members && HasPrefix(m, base) && md == "/dev/" + e.name
  {
    if es != [] {
      ArraysWithMember(es[1..], base);
      assert forall e :: e in es <==> e == es[0] || e in es[1..];
    }
  }

  // ---- mdadm --detail --------------------------------------------------------

  function LastField(l: string): string
    requires Fields(l) != []
  {
    Fields(l)[|Fields(l)| - 1]
  }

  /** A line that the code takes for a member line. */
  predicate NamesDevice(l: string, mdDevice: string) {
    Fields(l) != [] && HasPrefix(LastField(l), "/dev/") && LastField(l) != mdDevice
  }

  /** arrayMembers: the devices named, each once, in order of first appearance. */
  function MembersIn(ls: seq<string>, mdDevice: string): (r: seq<string>)
    ensures forall d :: d in r <==> exists l :: l in ls && NamesDevice(l, mdDevice) && LastField(l) == d
  {
    if ls == [] then []
    else
      var front := MembersIn(ls[..|ls| - 1], mdDevice);
      var l := ls[|ls| - 1];
      assert forall k :: k in ls <==> k in ls[..|ls| - 1] || k == l;
      if NamesDevice(l, mdDevice) && LastField(l) !in front then front + [LastField(l)] else front
  }

  lemma {:induction false} MembersStep(ls: seq<string>, i: nat, md: string)
    requires i < |ls|
    ensures var front := MembersIn(ls[..i], md);
            MembersIn(ls[..i + 1], md) ==
              if NamesDevice(ls[i], md) && LastField(ls[i]) !in front then front + [LastField(ls[i])] else front
  {
    assert ls[..i + 1][..i] == ls[..i];
  }

  lemma {:induction false} MembersDistinct(ls: seq<string>, mdDevice: string)
    ensures forall i, j :: 0 <= i < j < |MembersIn(ls, mdDevice)| ==> MembersIn(ls, mdDevice)[i] != MembersIn(ls, mdDevice)[j]
  {
    if ls != [] {
      MembersDistinct(ls[..|ls| - 1], mdDevice);
    }
  }

  /**
   * An honest report: each member ends some line, and nothing else under /dev does
   * except the device itself and its header "/dev/md0:".
   */
  predicate DetailHonest(out: string, mdDevice: string, members: set<string>) {
    && (forall d :: d in members ==> exists l :: l in Lines(out) && Fields(l) != [] && LastField(l) == d)
    && (forall l :: l in Lines(out) && Fields(l) != [] && HasPrefix(LastField(l), "/dev/") ==>
          LastField(l) in members || LastField(l) == mdDevice || LastField(l) == mdDevice + ":")
  }

  /** The scan covers the members; beyond them it only picks up the header line. */
  lemma {:induction false} MembersCovered(out: string, mdDevice: string, members: set<string>)
    requires DetailHonest(out, mdDevice, members)
    requires mdDevice !in members && forall d :: d in members ==> ValidDevice(d)
    ensures forall d :: d in members ==> d in MembersIn(Lines(out), mdDevice)
    ensures forall d :: d in MembersIn(Lines(out), mdDevice) ==> d in members || d == mdDevice + ":"
  {
    forall d | d in members
      ensures d in MembersIn(Lines(out), mdDevice)
    {
      var l :| l in Lines(out) && Fields(l) != [] && LastField(l) == d;
      assert NamesDevice(l, mdDevice);
    }
  }
}
