/**
 * The line editors of /etc/fstab and /etc/mdadm/mdadm.conf (raid.go), as functions
 * on whole file texts, related to append-if-absent and filtering on lists of lines.
 */
module EtcFiles {
  import opened GoStrings

  function Lines(t: string): seq<string> {
    Split(t, '\n')
  }

  function Unlines(ls: seq<string>): string {
    Join(ls, '\n')
  }

  predicate Terminated(t: string) {
    t == "" || t[|t| - 1] == '\n'
  }

  function LastLine(t: string): string {
    Lines(t)[|Lines(t)| - 1]
  }

  lemma {:induction false} TerminatedLastLine(t: string)
    ensures Terminated(t) <==> LastLine(t) == ""
  {
    if t != "" {
      var a, c := t[..|t| - 1], t[|t| - 1];
      assert t == a + [c];
      if c == '\n' {
        SplitAt(a, '\n', "");
        assert a + ['\n'] + "" == t;
      } else {
        SplitAppend(a, [c], '\n');
      }
    }
  }

  // ---- Filtering lines -------------------------------------------------------

  /** The lines that do not satisfy `drop`, in order. */
  function Reject(ls: seq<string>, drop: string -> bool): (r: seq<string>)
    ensures forall l :: l in r <==> l in ls && !drop(l)
  {
    if ls == [] then []
    else (if drop(ls[0]) then [] else [ls[0]]) + Reject(ls[1..], drop)
  }

  lemma {:induction false} RejectAppend(a: seq<string>, b: seq<string>, drop: string -> bool)
    ensures Reject(a + b, drop) == Reject(a, drop) + Reject(b, drop)
  {
    if a == [] {
      assert a + b == b;
    } else {
      assert (a + b)[1..] == a[1..] + b;
      RejectAppend(a[1..], b, drop);
    }
  }

  lemma {:induction false} RejectStep(ls: seq<string>, i: nat, drop: string -> bool)
    requires i < |ls|
    ensures Reject(ls[..i + 1], drop) == Reject(ls[..i], drop) + (if drop(ls[i]) then [] else [ls[i]])
  {
    assert ls[..i + 1] == ls[..i] + [ls[i]];
    RejectAppend(ls[..i], [ls[i]], drop);
  }

  lemma {:induction false} RejectNone(ls: seq<string>, drop: string -> bool)
    requires forall l :: l in ls ==> !drop(l)
    ensures Reject(ls, drop) == ls
  {
    if ls != [] {
      RejectNone(ls[1..], drop);
      assert [ls[0]] + ls[1..] == ls;
    }
  }

  /** Writing the kept lines back and reading the file again yields the kept lines. */
  lemma {:induction false} RejectedTextLines(t: string, drop: string -> bool)
    ensures var kept := Reject(Lines(t), drop);
            Lines(Unlines(kept)) == if kept == [] then [""] else kept
  {
    var kept := Reject(Lines(t), drop);
    forall i | 0 <= i < |kept|
      ensures '\n' !in kept[i]
    {
      assert kept[i] in kept;
    }
    if kept != [] {
      SplitJoin(kept, '\n');
    }
  }

  lemma {:induction false} RejectKeepsTermination(t: string, drop: string -> bool)
    requires Terminated(t) && !drop("")
    ensures Terminated(Unlines(Reject(Lines(t), drop)))
  {
    var ls := Lines(t);
    TerminatedLastLine(t);
    assert ls == ls[..|ls| - 1] + [""];
    RejectAppend(ls[..|ls| - 1], [""], drop);
    RejectedTextLines(t, drop);
    TerminatedLastLine(Unlines(Reject(ls, drop)));
  }

  // ---- fstab -----------------------------------------------------------------

  /** The fstab line for a volume: nofail and a short device timeout. */
  function FstabEntry(src: string, mountPoint: string, fsType: string): string {
    src + "\t" + mountPoint + "\t" + fsType + "\tnofail,x-systemd.device-timeout=10s\t0\t0"
  }

  /** fstab(5): the second field of the line is the mount point. */
  predicate MountsAt(line: string, mountPoint: string) {
    |Fields(line)| >= 2 && Fields(line)[1] == mountPoint
  }

  function AtMount(mountPoint: string): string -> bool {
    (line: string) => MountsAt(line, mountPoint)
  }

  predicate HasLineAt(t: string, mountPoint: string) {
    exists l :: l in Lines(t) && MountsAt(l, mountPoint)
  }

  predicate HasEntry(t: string, entry: string) {
    EntryAmong(Lines(t), entry)
  }

  predicate EntryAmong(ls: seq<string>, entry: string) {
    exists l :: l in ls && TrimSpace(l) == entry
  }

  lemma {:induction false} EntryAmongStep(ls: seq<string>, i: nat, entry: string)
    requires i < |ls|
    ensures EntryAmong(ls[..i + 1], entry) <==> EntryAmong(ls[..i], entry) || TrimSpace(ls[i]) == entry
  {
    assert ls[..i + 1] == ls[..i] + [ls[i]];
    assert forall l :: l in ls[..i + 1] <==> l in ls[..i] || l == ls[i];
  }

  lemma {:induction false} EntryAmongPrefix(ls: seq<string>, i: nat, entry: string)
    requires i <= |ls| && EntryAmong(ls[..i], entry)
    ensures EntryAmong(ls, entry)
  {
  }

  function FstabAddText(t: string, entry: string): string {
    if HasEntry(t, entry) then t else t + entry + "\n"
  }

  function FstabRemoveText(t: string, mountPoint: string): string {
    Unlines(Reject(Lines(t), AtMount(mountPoint)))
  }

  /** The second field of the first line whose first field is `device`; "" if there is none. */
  function FirstTarget(ls: seq<string>, device: string): string {
    if ls == [] then ""
    else if |Fields(ls[0])| >= 2 && Fields(ls[0])[0] == device then Fields(ls[0])[1]
    else FirstTarget(ls[1..], device)
  }

  /**
   * What fstabAdd writes: a source, and a mount point the callers have checked.
   * Mount points start with '/', sources with "UUID=" or "/dev/md".
   */
  predicate EntryParts(src: string, mountPoint: string) {
    Token(src) && HasPrefix(mountPoint, "/")
  }

  lemma {:induction false} EntryTrimmed(src: string, mountPoint: string, fsType: string)
    requires EntryParts(src, mountPoint)
    ensures var e := FstabEntry(src, mountPoint, fsType);
            TrimSpace(e) == e && e != "" && !IsSpace(e[0]) && !IsSpace(e[|e| - 1])
  {
    var e := FstabEntry(src, mountPoint, fsType);
    assert e[0] == src[0] && e[|e| - 1] == '0';
    TrimSpaceFixed(e);
  }

  lemma {:induction false} RestFields(fsType: string)
    requires Token(fsType)
    ensures Fields("\t" + fsType + "\tnofail,x-systemd.device-timeout=10s\t0\t0")
            == [fsType, "nofail,x-systemd.device-timeout=10s"] + ["0", "0"]
  {
    var opts := "nofail,x-systemd.device-timeout=10s";
    TokenOptions(opts);
    LastFields();
    OptionsTail(opts);
    FieldsBetweenTabs(fsType, opts, "\t0\t0");
    assert "\t" + fsType + ("\t" + opts + "\t0\t0") == ['\t'] + fsType + (['\t'] + opts + "\t0\t0");
  }

  lemma {:induction false} OptionsTail(opts: string)
    requires opts == "nofail,x-systemd.device-timeout=10s"
    ensures "\tnofail,x-systemd.device-timeout=10s\t0\t0" == "\t" + opts + "\t0\t0"
  {
  }

  lemma {:induction false} TokenOptions(opts: string)
    requires opts == "nofail,x-systemd.device-timeout=10s"
    ensures Token(opts)
  {
    var a, b, c := "nofail,x-sys", "temd.device-", "timeout=10s";
    assert Token(a);
    assert Token(b);
    assert Token(c);
    assert opts == a + (b + c);
  }

  lemma {:induction false} LastFields()
    ensures Fields("\t0\t0") == ["0", "0"]
  {
    FieldsSpace('\t', "0\t0");
    FieldsTwo("0", '\t', "0", "");
    assert "0" + ['\t'] + "0" + "" == "0\t0" && ['\t'] + "0\t0" == "\t0\t0";
  }

  lemma {:induction false} FieldsBetweenTabs(a: string, b: string, tail: string)
    requires Token(a) && Token(b) && (tail == "" || IsSpace(tail[0]))
    ensures Fields(['\t'] + a + (['\t'] + b + tail)) == [a, b] + Fields(tail)
  {
    FieldsTwo(a, '\t', b, tail);
    FieldsSpace('\t', a + ['\t'] + b + tail);
    var t := ['\t'];
    Associate(t, a + t + b, tail);
    Associate(t, a + t, b);
    Associate(t, a, t);
    Associate(t + a, t + b, tail);
    Associate(t + a, t, b);
  }

  /** fstab(5) reads six fields: a missing disk does not hold up the boot, and there is no check. */
  lemma {:induction false} EntrySixFields(src: string, mountPoint: string, fsType: string)
    requires EntryParts(src, mountPoint) && NoSpace(mountPoint) && Token(fsType)
    ensures Fields(FstabEntry(src, mountPoint, fsType))
            == [src, mountPoint] + ([fsType, "nofail,x-systemd.device-timeout=10s"] + ["0", "0"])
  {
    var rest := "\t" + fsType + "\tnofail,x-systemd.device-timeout=10s\t0\t0";
    assert FstabEntry(src, mountPoint, fsType) == src + ['\t'] + mountPoint + rest;
    FieldsTwo(src, '\t', mountPoint, rest);
    RestFields(fsType);
  }

  lemma {:induction false} EntryFields(src: string, mountPoint: string, fsType: string)
    requires EntryParts(src, mountPoint) && NoSpace(mountPoint)
    ensures var f := Fields(FstabEntry(src, mountPoint, fsType));
            |f| >= 2 && f[0] == src && f[1] == mountPoint
  {
    var rest := "\t" + fsType + "\tnofail,x-systemd.device-timeout=10s\t0\t0";
    assert FstabEntry(src, mountPoint, fsType) == src + ['\t'] + mountPoint + rest;
    FieldsTwo(src, '\t', mountPoint, rest);
  }

  /** An entry that is present, possibly padded, is a line for its mount point. */
  lemma {:induction false} EntryIsLine(t: string, src: string, mountPoint: string, fsType: string)
    requires EntryParts(src, mountPoint) && NoSpace(mountPoint)
    requires HasEntry(t, FstabEntry(src, mountPoint, fsType))
    ensures HasLineAt(t, mountPoint)
  {
    var e := FstabEntry(src, mountPoint, fsType);
    var l :| l in Lines(t) && TrimSpace(l) == e;
    FieldsTrim(l);
    EntryFields(src, mountPoint, fsType);
    assert MountsAt(l, mountPoint);
  }

  /** The lines after an append to any text: the last line is completed by the entry. */
  lemma {:induction false} AppendLines(t: string, e: string)
    requires '\n' !in e
    ensures Lines(t + e + "\n") == Lines(t)[..|Lines(t)| - 1] + [LastLine(t) + e, ""]
  {
    SplitAppendLine(t, e, '\n');
  }

  lemma {:induction false} AddKeepsTermination(t: string, e: string)
    requires Terminated(t)
    ensures Terminated(FstabAddText(t, e))
  {
  }

  /** On a terminated file the appended entry is a line of its own, after the old ones. */
  lemma {:induction false} AddIsAppendIfAbsent(t: string, e: string)
    requires Terminated(t) && '\n' !in e
    ensures Lines(FstabAddText(t, e)) ==
      if HasEntry(t, e) then Lines(t) else Lines(t)[..|Lines(t)| - 1] + [e, ""]
  {
    TerminatedLastLine(t);
    AppendLines(t, e);
    assert "" + e == e;
  }

  lemma {:induction false} PaddedFrontOnly(l: string, e: string)
    requires e != "" && !IsSpace(e[|e| - 1]) && TrimSpace(l + e) == e
    ensures AllSpace(l)
  {
    assert (l + e)[|l + e| - 1] == e[|e| - 1];
    var a := TrimSpaceFront(l + e);
    SameFront(a, l, e);
  }

  lemma {:induction false} SameFront(a: string, b: string, e: string)
    requires a + e == b + e
    ensures a == b
  {
    assert |a| == |b|;
    assert a == (a + e)[..|a|] && b == (b + e)[..|b|];
  }

  /** A line that contains the entry's own text and trims to it is only padded in front. */
  lemma {:induction false} PaddedFront(l: string, e: string)
    requires e != "" && !IsSpace(e[0]) && !IsSpace(e[|e| - 1])
    ensures TrimSpace(l + e) == e <==> AllSpace(l)
  {
    if AllSpace(l) {
      TrimSpacePadded(l, e, "");
      assert l + e + "" == l + e;
    } else if TrimSpace(l + e) == e {
      PaddedFrontOnly(l, e);
    }
  }

  /**
   * Adding twice equals adding once exactly when the entry is one line and either it was
   * already there or the file's last line is blank (in particular when it is terminated).
   */
  lemma {:induction false} AddTwice(t: string, src: string, mountPoint: string, fsType: string)
    requires EntryParts(src, mountPoint)
    ensures var e := FstabEntry(src, mountPoint, fsType);
            FstabAddText(FstabAddText(t, e), e) == FstabAddText(t, e) <==>
              '\n' !in e && (HasEntry(t, e) || AllSpace(LastLine(t)))
  {
    var e := FstabEntry(src, mountPoint, fsType);
    EntryTrimmed(src, mountPoint, fsType);
    if '\n' in e {
      MultiLineEntryAbsent(t, e);
      MultiLineEntryAbsent(t + e + "\n", e);
    } else if !HasEntry(t, e) {
      AppendedEntryFound(t, e);
      PaddedFront(LastLine(t), e);
    }
  }

  /** An appended entry is found again exactly when it is the whole of its line. */
  lemma {:induction false} AppendedEntryFound(t: string, e: string)
    requires '\n' !in e && e != "" && !HasEntry(t, e)
    ensures HasEntry(t + e + "\n", e) <==> TrimSpace(LastLine(t) + e) == e
  {
    var ls, n := Lines(t), |Lines(t)| - 1;
    var ls' := ls[..n] + [LastLine(t) + e, ""];
    AppendLines(t, e);
    assert !EntryAmong(ls[..n], e);
    assert ls'[..n] == ls[..n] && ls'[..n + 2] == ls';
    EntryAmongStep(ls', n, e);
    EntryAmongStep(ls', n + 1, e);
    assert TrimSpace("") == "";
  }

  lemma {:induction false} MultiLineEntryAbsent(t: string, e: string)
    requires '\n' in e
    ensures !HasEntry(t, e)
  {
    forall l | l in Lines(t)
      ensures TrimSpace(l) != e
    {
      var a, b := TrimSpaceParts(l);
      assert forall c :: c in TrimSpace(l) ==> c in l;
      assert '\n' !in TrimSpace(l);
    }
  }

  /** Exactly the lines of the mount point go; all others stay, byte for byte and in order. */
  lemma {:induction false} RemoveIsFilter(t: string, mountPoint: string)
    ensures var kept := Reject(Lines(t), AtMount(mountPoint));
            Lines(FstabRemoveText(t, mountPoint)) == if kept == [] then [""] else kept
    ensures forall l :: l in Lines(FstabRemoveText(t, mountPoint)) ==> |Fields(l)| < 2 || Fields(l)[1] != mountPoint
    ensures forall l :: l in Lines(t) && (|Fields(l)| < 2 || Fields(l)[1] != mountPoint) ==>
              l in Lines(FstabRemoveText(t, mountPoint))
  {
    RejectedTextLines(t, AtMount(mountPoint));
  }

  lemma {:induction false} RemoveKeepsTermination(t: string, mountPoint: string)
    requires Terminated(t)
    ensures Terminated(FstabRemoveText(t, mountPoint))
  {
    RejectKeepsTermination(t, AtMount(mountPoint));
  }

  lemma {:induction false} RemoveAbsent(t: string, mountPoint: string)
    requires !HasLineAt(t, mountPoint)
    ensures FstabRemoveText(t, mountPoint) == t
  {
    RejectNone(Lines(t), AtMount(mountPoint));
    JoinSplit(t, '\n');
  }

  /** A mount point with white space in it is never found again: nothing is removed. */
  lemma {:induction false} SpacedMountPointStays(t: string, mountPoint: string)
    requires !NoSpace(mountPoint)
    ensures FstabRemoveText(t, mountPoint) == t
  {
    forall l | l in Lines(t)
      ensures !MountsAt(l, mountPoint)
    {
      FieldsAreTokens(l);
    }
    RemoveAbsent(t, mountPoint);
  }

  lemma {:induction false} RejectAppended(front: seq<string>, e: string, drop: string -> bool)
    requires (forall l :: l in front ==> !drop(l)) && drop(e) && !drop("")
    ensures Reject(front + [e, ""], drop) == front + [""]
  {
    RejectAppend(front, [e, ""], drop);
    RejectNone(front, drop);
    assert [e, ""][1..] == [""] && [""][1..] == [];
  }

  lemma {:induction false} RemoveUndoesPlainAdd(t: string, src: string, mountPoint: string, fsType: string)
    requires EntryParts(src, mountPoint) && NoSpace(mountPoint) && '\n' !in FstabEntry(src, mountPoint, fsType)
    requires Terminated(t) && !HasLineAt(t, mountPoint) && !HasEntry(t, FstabEntry(src, mountPoint, fsType))
    ensures FstabRemoveText(FstabAddText(t, FstabEntry(src, mountPoint, fsType)), mountPoint) == t
  {
    var e, ls := FstabEntry(src, mountPoint, fsType), Lines(t);
    var front := ls[..|ls| - 1];
    TerminatedLastLine(t);
    assert ls == front + [""];
    assert !MountsAt("", mountPoint);
    AddIsAppendIfAbsent(t, e);
    EntryFields(src, mountPoint, fsType);
    RejectAppended(front, e, AtMount(mountPoint));
    JoinSplit(t, '\n');
  }

  /**
   * Removing after adding restores a terminated file that had neither the entry nor a line
   * for the mount point exactly when the mount point has no white space.
   */
  lemma {:induction false} RemoveUndoesAdd(t: string, src: string, mountPoint: string, fsType: string)
    requires EntryParts(src, mountPoint) && '\n' !in FstabEntry(src, mountPoint, fsType)
    requires Terminated(t) && !HasLineAt(t, mountPoint) && !HasEntry(t, FstabEntry(src, mountPoint, fsType))
    ensures FstabRemoveText(FstabAddText(t, FstabEntry(src, mountPoint, fsType)), mountPoint) == t
            <==> NoSpace(mountPoint)
  {
    var e := FstabEntry(src, mountPoint, fsType);
    if NoSpace(mountPoint) {
      RemoveUndoesPlainAdd(t, src, mountPoint, fsType);
    } else {
      SpacedMountPointStays(t + e + "\n", mountPoint);
    }
  }

  // ---- mdadm.conf ------------------------------------------------------------

  /** An ARRAY line that mentions the md device anywhere in its text. */
  predicate ArrayLineOf(line: string, mdDevice: string) {
    HasPrefix(TrimSpace(line), "ARRAY") && Contains(line, mdDevice)
  }

  function OfArray(mdDevice: string): string -> bool {
    (line: string) => ArrayLineOf(line, mdDevice)
  }

  function ConfRemoveText(t: string, mdDevice: string): string {
    Unlines(Reject(Lines(t), OfArray(mdDevice)))
  }

  /** The deduplication key of persistArray: the UUID token, else the device. */
  function ConfKey(tokens: seq<string>, mdDevice: string): string {
    if tokens == [] then mdDevice
    else if HasPrefix(tokens[0], "UUID=") then tokens[0]
    else ConfKey(tokens[1..], mdDevice)
  }

  function PersistText(t: string, line: string, mdDevice: string): string {
    if Contains(t, ConfKey(Fields(line), mdDevice)) then t else t + line + "\n"
  }

  /** Exactly the ARRAY lines that mention the device go; all others stay, in order. */
  lemma {:induction false} ConfRemoveIsFilter(t: string, mdDevice: string)
    ensures var kept := Reject(Lines(t), OfArray(mdDevice));
            Lines(ConfRemoveText(t, mdDevice)) == if kept == [] then [""] else kept
    ensures forall l :: l in Lines(ConfRemoveText(t, mdDevice)) ==>
              !HasPrefix(TrimSpace(l), "ARRAY") || !Contains(l, mdDevice)
    ensures forall l :: l in Lines(t) && (!HasPrefix(TrimSpace(l), "ARRAY") || !Contains(l, mdDevice)) ==>
              l in Lines(ConfRemoveText(t, mdDevice))
    ensures Terminated(t) ==> Terminated(ConfRemoveText(t, mdDevice))
  {
    EmptyIsNoArrayLine(mdDevice);
    RejectedTextLines(t, OfArray(mdDevice));
    RejectedMembers(t, OfArray(mdDevice));
    ConfRemoveKeepsTermination(t, mdDevice);
  }

  lemma {:induction false} EmptyIsNoArrayLine(mdDevice: string)
    ensures !OfArray(mdDevice)("")
  {
    assert TrimSpace("") == "";
  }

  lemma {:induction false} RejectedMembers(t: string, drop: string -> bool)
    requires !drop("")
    ensures forall l :: l in Lines(Unlines(Reject(Lines(t), drop))) ==> !drop(l)
    ensures forall l :: l in Lines(t) && !drop(l) ==> l in Lines(Unlines(Reject(Lines(t), drop)))
  {
    RejectedTextLines(t, drop);
  }

  lemma {:induction false} ConfRemoveKeepsTermination(t: string, mdDevice: string)
    ensures Terminated(t) ==> Terminated(ConfRemoveText(t, mdDevice))
  {
    if Terminated(t) {
      RejectKeepsTermination(t, OfArray(mdDevice));
    }
  }

  lemma {:induction false} ContainsAppend(a: string, s: string, b: string, sub: string)
    requires Contains(s, sub)
    ensures Contains(a + s + b, sub)
  {
    var i :| 0 <= i <= |s| && OccursAt(s, sub, i);
    assert (a + s + b)[|a| + i..|a| + i + |sub|] == s[i..i + |sub|];
    assert OccursAt(a + s + b, sub, |a| + i);
  }

  lemma {:induction false} FieldOccurs(s: string, k: nat)
    requires k < |Fields(s)|
    ensures Contains(s, Fields(s)[k])
    decreases |s|
  {
    if IsSpace(s[0]) {
      FieldOccurs(s[1..], k);
      assert s == [s[0]] + s[1..] + "";
      ContainsAppend([s[0]], s[1..], "", Fields(s)[k]);
    } else {
      var n := WordEnd(s);
      if k == 0 {
        assert OccursAt(s, Fields(s)[0], 0);
      } else {
        FieldOccurs(s[n..], k - 1);
        assert s == s[..n] + s[n..] + "";
        ContainsAppend(s[..n], s[n..], "", Fields(s)[k]);
      }
    }
  }

  lemma {:induction false} ConfKeyFrom(tokens: seq<string>, mdDevice: string)
    ensures ConfKey(tokens, mdDevice) == mdDevice || ConfKey(tokens, mdDevice) in tokens
  {
    if tokens != [] {
      ConfKeyFrom(tokens[1..], mdDevice);
    }
  }

  predicate HasUuidToken(line: string) {
    exists tok :: tok in Fields(line) && HasPrefix(tok, "UUID=")
  }

  lemma {:induction false} KeyInLine(line: string, mdDevice: string)
    requires HasUuidToken(line)
    ensures Contains(line, ConfKey(Fields(line), mdDevice))
  {
    var key := ConfKey(Fields(line), mdDevice);
    ConfKeyFound(Fields(line), mdDevice);
    var k :| 0 <= k < |Fields(line)| && Fields(line)[k] == key;
    FieldOccurs(line, k);
  }

  lemma {:induction false} KeyWithoutUuid(tokens: seq<string>, mdDevice: string)
    requires forall tok :: tok in tokens ==> !HasPrefix(tok, "UUID=")
    ensures ConfKey(tokens, mdDevice) == mdDevice
  {
    if tokens != [] {
      KeyWithoutUuid(tokens[1..], mdDevice);
    }
  }

  lemma {:induction false} OccursChars(s: string, sub: string, i: nat)
    requires OccursAt(s, sub, i)
    ensures forall j :: i <= j < i + |sub| ==> s[j] in sub
  {
    forall j | i <= j < i + |sub|
      ensures s[j] in sub
    {
      assert s[i..i + |sub|][j - i] == s[j];
    }
  }

  lemma {:induction false} OccursIn(a: string, s: string, b: string, sub: string, i: nat)
    requires OccursAt(a + s + b, sub, i) && |a| <= i && i + |sub| <= |a| + |s|
    ensures Contains(s, sub)
  {
    assert s[i - |a|..i - |a| + |sub|] == (a + s + b)[i..i + |sub|];
    assert OccursAt(s, sub, i - |a|);
  }

  /** A device name cannot begin in the text and end in the appended ARRAY line. */
  lemma {:induction false} NoStraddle(t: string, line: string, mdDevice: string)
    requires HasPrefix(line, "ARRAY") && 'A' !in mdDevice && '\n' !in mdDevice && mdDevice != ""
    requires Contains(t + line + "\n", mdDevice)
    ensures Contains(t, mdDevice) || Contains(line, mdDevice)
  {
    var s := t + line + "\n";
    var i :| 0 <= i <= |s| && OccursAt(s, mdDevice, i);
    OccursChars(s, mdDevice, i);
    assert s[|t|] == 'A' && s[|s| - 1] == '\n';
    if i + |mdDevice| <= |t| {
      assert s == "" + t + (line + "\n");
      OccursIn("", t, line + "\n", mdDevice, i);
    } else {
      OccursIn(t, line, "\n", mdDevice, i);
    }
  }

  /**
   * Persisting an array twice equals persisting it once exactly when the scan line carries a
   * UUID or names the device, or the file mentions the device already.
   */
  lemma {:induction false} PersistTwice(t: string, line: string, mdDevice: string)
    requires HasPrefix(line, "ARRAY") && 'A' !in mdDevice && '\n' !in mdDevice && mdDevice != ""
    ensures PersistText(PersistText(t, line, mdDevice), line, mdDevice) == PersistText(t, line, mdDevice)
            <==> HasUuidToken(line) || Contains(line, mdDevice) || Contains(t, mdDevice)
  {
    var key := ConfKey(Fields(line), mdDevice);
    if HasUuidToken(line) {
      KeyInLine(line, mdDevice);
    } else {
      KeyWithoutUuid(Fields(line), mdDevice);
    }
    if Contains(line, key) {
      ContainsAppend(t, line, "\n", key);
    } else if Contains(t + line + "\n", key) {
      NoStraddle(t, line, mdDevice);
    }
    assert |t + line + "\n" + line + "\n"| > |t + line + "\n"|;
  }

  lemma {:induction false} JoinHas(ls: seq<string>, k: nat) returns (a: string, b: string)
    requires k < |ls|
    ensures Join(ls, '\n') == a + ls[k] + b
  {
    if |ls| == 1 {
      a, b := "", "";
    } else if k == 0 {
      a, b := "", ['\n'] + Join(ls[1..], '\n');
    } else {
      var c, d := JoinHas(ls[1..], k - 1);
      a, b := ls[0] + ['\n'] + c, d;
    }
  }

  /** Registered for the first time, the line stands by itself exactly when the file was terminated. */
  lemma {:induction false} PersistedLineIff(t: string, line: string, mdDevice: string)
    requires HasUuidToken(line) && '\n' !in line && !Contains(t, ConfKey(Fields(line), mdDevice))
    ensures line in Lines(PersistText(t, line, mdDevice)) <==> Terminated(t)
  {
    var key, ls := ConfKey(Fields(line), mdDevice), Lines(t);
    KeyInLine(line, mdDevice);
    AppendLines(t, line);
    TerminatedLastLine(t);
    if line in ls[..|ls| - 1] {
      var k :| 0 <= k < |ls| - 1 && ls[k] == line;
      var a, b := JoinHas(ls, k);
      JoinSplit(t, '\n');
      ContainsAppend(a, line, b, key);
    }
    assert line != "" by {
      assert Fields("") == [];
    }
    assert LastLine(t) == "" ==> LastLine(t) + line == line;
    assert LastLine(t) != "" ==> |LastLine(t) + line| > |line|;
    assert Terminated(t) ==> (ls[..|ls| - 1] + [line, ""])[|ls| - 1] == line;
  }

  // ---- What mdadm prints for an array ----------------------------------------

  /** The text of an array's uuid. */
  function UuidText(uuid: nat): string {
    Itoa(uuid)
  }

  /** A line of `mdadm --detail --scan` for the array: its device and its uuid. */
  predicate PrintedArray(line: string, mdDevice: string, uuid: nat) {
    && HasPrefix(line, "ARRAY") && '\n' !in line && Contains(line, mdDevice)
    && HasUuidToken(line) && ConfKey(Fields(line), mdDevice) == "UUID=" + UuidText(uuid)
  }

  lemma {:induction false} KeyThird(a: string, b: string, key: string, mdDevice: string)
    requires !HasPrefix(a, "UUID=") && !HasPrefix(b, "UUID=") && HasPrefix(key, "UUID=")
    ensures ConfKey([a, b, key], mdDevice) == key
  {
    var ts := [a, b, key];
    assert ts[1..] == [b, key] && [b, key][1..] == [key];
    assert ConfKey([key], mdDevice) == key;
    assert ConfKey([b, key], mdDevice) == key;
  }

  lemma {:induction false} ThreeFields(a: string, b: string, c: string)
    requires Token(a) && Token(b) && Token(c)
    ensures Fields(a + [' '] + b + ([' '] + c)) == [a, b, c]
  {
    FieldsTwo(a, ' ', b, [' '] + c);
    FieldsSpace(' ', c);
    FieldsOne(c);
  }

  lemma {:induction false} UuidToken(uuid: nat)
    ensures Token("UUID=" + UuidText(uuid)) && HasPrefix("UUID=" + UuidText(uuid), "UUID=")
  {
  }

  lemma {:induction false} PrintedArrayExists(mdDevice: string, uuid: nat)
    requires Token(mdDevice) && mdDevice[0] == '/'
    ensures exists out :: PrintedArray(TrimSpace(out), mdDevice, uuid)
  {
    var key := "UUID=" + UuidText(uuid);
    var line := "ARRAY" + [' '] + mdDevice + ([' '] + key);
    UuidToken(uuid);
    ThreeFields("ARRAY", mdDevice, key);
    KeyThird("ARRAY", mdDevice, key, mdDevice);
    assert HasUuidToken(line) by {
      assert Fields(line)[2] == key;
    }
    MiddleOccurs("ARRAY" + [' '], mdDevice, [' '] + key);
    assert line[0] == 'A' && line[|line| - 1] == key[|key| - 1];
    TrimSpaceFixed(line);
    NoBreakInTokens("ARRAY", mdDevice, key);
    assert PrintedArray(TrimSpace(line), mdDevice, uuid);
  }

  lemma {:induction false} NoBreakInTokens(a: string, b: string, c: string)
    requires NoSpace(a) && NoSpace(b) && NoSpace(c)
    ensures '\n' !in a + [' '] + b + ([' '] + c)
  {
  }

  lemma {:induction false} MiddleOccurs(a: string, s: string, b: string)
    ensures Contains(a + s + b, s)
  {
    assert (a + s + b)[|a|..|a| + |s|] == s;
    assert OccursAt(a + s + b, s, |a|);
  }

  lemma {:induction false} ConfKeyFound(tokens: seq<string>, mdDevice: string)
    requires exists tok :: tok in tokens && HasPrefix(tok, "UUID=")
    ensures ConfKey(tokens, mdDevice) in tokens
  {
    if !HasPrefix(tokens[0], "UUID=") {
      var tok :| tok in tokens && HasPrefix(tok, "UUID=");
      assert tok in tokens[1..];
      ConfKeyFound(tokens[1..], mdDevice);
    }
  }

  /** Removing /dev/md1 also drops the line of /dev/md12: an extended name still matches. */
  lemma {:induction false} ConfRemoveOverreaches(t: string, line: string, mdDevice: string, other: string)
    requires HasPrefix(other, mdDevice) && ArrayLineOf(line, other)
    ensures line !in Lines(ConfRemoveText(t, mdDevice))
  {
    var i :| 0 <= i <= |line| && OccursAt(line, other, i);
    assert line[i..i + |mdDevice|] == other[..|mdDevice|];
    assert OccursAt(line, mdDevice, i);
    ConfRemoveIsFilter(t, mdDevice);
  }
}
