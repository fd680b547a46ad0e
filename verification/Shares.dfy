/**
 * The share manager (shares.go): the Samba include, and how both generated files are
 * written, each by an atomic replacement, with the services they need.
 */
module Shares {
  import opened GoStrings
  import opened NfsExports

  // ---- The Samba include -----------------------------------------------------

  predicate ShareNameChar(c: char) {
    'A' <= c <= 'Z' || 'a' <= c <= 'z' || IsDigit(c) || c == ' ' || c == '_' || c == '.' || c == '-'
  }

  /** ^[A-Za-z0-9 _.-]{1,80}$ */
  predicate ValidShareName(s: string) {
    1 <= |s| <= 80 && forall i :: 0 <= i < |s| ==> ShareNameChar(s[i])
  }

  function ConfValue(s: string): (r: string)
    ensures '\n' !in r && '\r' !in r
  {
    if s == "" then "" else [if s[0] == '\n' || s[0] == '\r' then ' ' else s[0]] + ConfValue(s[1..])
  }

  function Bool(b: bool): string {
    if b then "true" else "false"
  }

  function Line(b: bool, l: string): seq<string> {
    if b then [l] else []
  }

  function UsersLine(s: Share): string {
    if s.validUsers != [] then "   valid users = " + Join(s.validUsers, ' ') else "   guest ok = yes"
  }

  /** The optional settings of a section, from the config blob. */
  function OptionLines(c: ShareConfig): seq<string> {
    CommentLines(c) + (DisplayLines(c) + (LockLines(c) + (VfsLines(c) + RecycleLines(c))))
  }

  function CommentLines(c: ShareConfig): seq<string> {
    var comment := TrimSpace(c.smb.comment);
    Line(comment != "", "   comment = " + ConfValue(comment))
  }

  function DisplayLines(c: ShareConfig): seq<string> {
    Line(c.smb.hideDotFiles, "   hide dot files = yes")
    + (Line(c.smb.caseSensitivity == "sensitive", "   case sensitive = yes")
    + Line(c.smb.caseSensitivity == "insensitive", "   case sensitive = no"))
  }

  function LockLines(c: ShareConfig): seq<string> {
    Line(c.smb.oplocks == "disabled", "   oplocks = no")
    + Line(c.smb.encryption, "   smb encrypt = required")
  }

  function VfsLines(c: ShareConfig): seq<string> {
    Line(c.recycleBin && c.smb.timeMachine, "   vfs objects = recycle fruit")
    + (Line(c.recycleBin && !c.smb.timeMachine, "   vfs objects = recycle")
    + Line(!c.recycleBin && c.smb.timeMachine, "   vfs objects = fruit"))
  }

  function RecycleLines(c: ShareConfig): seq<string> {
    Line(c.recycleBin, "   recycle:repository = .recycle")
    + (Line(c.recycleBin, "   recycle:keeptree = yes")
    + (Line(c.recycleBin, "   recycle:versions = yes")
    + Line(c.smb.timeMachine, "   fruit:time machine = yes")))
  }

  function PathLines(s: Share): seq<string> {
    ["   path = " + s.path, "   read only = " + Bool(s.readOnly), UsersLine(s)]
  }

  const MASK_LINES := ["   create mask = 0664", "   directory mask = 0775", "   browseable = yes", ""]

  function SectionLines(s: Share, decode: Decoder): seq<string> {
    ["[" + s.name + "]"] + (PathLines(s) + (OptionLines(decode(s.config)) + MASK_LINES))
  }

  predicate Served(s: Share) {
    s.protocol.SMB? && s.enabled
  }

  function SmbLines(all: seq<Share>, decode: Decoder): seq<string> {
    if all == [] then []
    else (if Served(all[0]) then SectionLines(all[0], decode) else []) + SmbLines(all[1..], decode)
  }

  const SMB_HEADER := "# Generato da nasd"

  function RenderSmb(all: seq<Share>, decode: Decoder): string {
    Join([SMB_HEADER] + SmbLines(all, decode) + [""], '\n')
  }

  // ---- Section headers in the file -------------------------------------------

  predicate HeaderLine(l: string) {
    HasPrefix(SkipAscii(l), "[")
  }

  predicate CommentLine(l: string) {
    HasPrefix(SkipAscii(l), "#") || HasPrefix(SkipAscii(l), ";")
  }

  /** A line ending in a backslash is continued on the next one, unless it is a comment. */
  predicate Continues(joined: bool, l: string) {
    l != "" && l[|l| - 1] == '\\' && (joined || !CommentLine(l))
  }

  /**
   * The lines that Samba takes for section headers: '[' after white space, unless the line
   * continues the one before it; `joined` says whether the first line does.
   */
  function HeadersFrom(joined: bool, ls: seq<string>): seq<string>
    decreases ls
  {
    if ls == [] then []
    else (if !joined && HeaderLine(ls[0]) then [ls[0]] else []) + HeadersFrom(Continues(joined, ls[0]), ls[1..])
  }

  function Headers(ls: seq<string>): seq<string> {
    HeadersFrom(false, ls)
  }

  /** Whether the line after these lines continues them. */
  predicate JoinedAfter(joined: bool, ls: seq<string>)
    decreases ls
  {
    if ls == [] then joined else JoinedAfter(Continues(joined, ls[0]), ls[1..])
  }

  function SectionNames(all: seq<Share>): seq<string> {
    if all == [] then [] else (if Served(all[0]) then ["[" + all[0].name + "]"] else []) + SectionNames(all[1..])
  }

  lemma {:induction false} HeadersAppend(joined: bool, a: seq<string>, b: seq<string>)
    ensures HeadersFrom(joined, a + b) == HeadersFrom(joined, a) + HeadersFrom(JoinedAfter(joined, a), b)
    decreases a
  {
    if a == [] {
      assert a + b == b;
    } else {
      assert (a + b)[0] == a[0] && (a + b)[1..] == a[1..] + b;
      var next := Continues(joined, a[0]);
      HeadersAppend(next, a[1..], b);
      var h := if !joined && HeaderLine(a[0]) then [a[0]] else [];
      Associate(h, HeadersFrom(next, a[1..]), HeadersFrom(JoinedAfter(joined, a), b));
    }
  }

  lemma {:induction false} JoinedAppend(joined: bool, a: seq<string>, b: seq<string>)
    ensures JoinedAfter(joined, a + b) == JoinedAfter(JoinedAfter(joined, a), b)
    decreases a
  {
    if a == [] {
      assert a + b == b;
    } else {
      assert (a + b)[0] == a[0] && (a + b)[1..] == a[1..] + b;
      JoinedAppend(Continues(joined, a[0]), a[1..], b);
    }
  }

  /** A last line without a backslash leaves nothing open. */
  lemma {:induction false} JoinedClosed(joined: bool, a: seq<string>, l: string)
    requires l == "" || l[|l| - 1] != '\\'
    ensures !JoinedAfter(joined, a + [l])
  {
    JoinedAppend(joined, a, [l]);
    JoinedOne(JoinedAfter(joined, a), l);
  }

  lemma {:induction false} JoinedOne(joined: bool, l: string)
    ensures JoinedAfter(joined, [l]) == Continues(joined, l)
  {
    assert [l][1..] == [];
    assert JoinedAfter(Continues(joined, l), []) == Continues(joined, l);
  }

  /** Whether line i continues the lines before it. */
  predicate JoinedAt(joined: bool, ls: seq<string>, i: nat)
    requires i <= |ls|
  {
    JoinedAfter(joined, ls[..i])
  }

  predicate HeaderAt(joined: bool, ls: seq<string>, i: nat)
    requires i < |ls|
  {
    HeaderLine(ls[i]) && !JoinedAt(joined, ls, i)
  }

  predicate AnyHeader(joined: bool, ls: seq<string>) {
    exists i :: 0 <= i < |ls| && HeaderAt(joined, ls, i)
  }

  lemma {:induction false} HeaderAtNext(joined: bool, ls: seq<string>, i: nat)
    requires i + 1 < |ls|
    ensures HeaderAt(joined, ls, i + 1) <==> HeaderAt(Continues(joined, ls[0]), ls[1..], i)
  {
    assert ls[1..][i] == ls[i + 1];
    assert ls[..i + 1][0] == ls[0] && ls[..i + 1][1..] == ls[1..][..i];
  }

  lemma {:induction false} AnyHeaderCons(joined: bool, ls: seq<string>)
    requires ls != []
    ensures AnyHeader(joined, ls)
            <==> (!joined && HeaderLine(ls[0])) || AnyHeader(Continues(joined, ls[0]), ls[1..])
  {
    var next, rest := Continues(joined, ls[0]), ls[1..];
    assert ls[..0] == [];
    assert HeaderAt(joined, ls, 0) <==> !joined && HeaderLine(ls[0]);
    if AnyHeader(joined, ls) {
      var i :| 0 <= i < |ls| && HeaderAt(joined, ls, i);
      if i > 0 {
        HeaderAtNext(joined, ls, i - 1);
        assert HeaderAt(next, rest, i - 1);
      }
    }
    if AnyHeader(next, rest) {
      var i :| 0 <= i < |rest| && HeaderAt(next, rest, i);
      HeaderAtNext(joined, ls, i);
      assert HeaderAt(joined, ls, i + 1);
    }
  }

  /** There is no header exactly when every line that looks like one continues another. */
  lemma {:induction false} NoneIff(joined: bool, ls: seq<string>)
    ensures HeadersFrom(joined, ls) == [] <==> !AnyHeader(joined, ls)
    decreases ls
  {
    if ls != [] {
      NoneIff(Continues(joined, ls[0]), ls[1..]);
      AnyHeaderCons(joined, ls);
    }
  }

  lemma {:induction false} NoHeaders(joined: bool, ls: seq<string>)
    requires Body(ls)
    ensures HeadersFrom(joined, ls) == []
  {
    forall i | 0 <= i < |ls|
      ensures !HeaderAt(joined, ls, i)
    {
      assert BodyLine(ls[i]);
    }
    NoneIff(joined, ls);
  }

  /** A line that is neither a header nor more than one line. */
  predicate BodyLine(l: string) {
    '\n' !in l && !HeaderLine(l)
  }

  predicate Body(ls: seq<string>) {
    forall i :: 0 <= i < |ls| ==> BodyLine(ls[i])
  }

  lemma {:induction false} BodyAppend(a: seq<string>, b: seq<string>)
    requires Body(a) && Body(b)
    ensures Body(a + b)
  {
  }

  /** The settings are indented by three blanks and start with a letter. */
  predicate Setting(l: string) {
    |l| > 3 && l[..3] == "   " && 'a' <= l[3] <= 'z'
  }

  lemma {:induction false} SettingIsNoHeader(l: string)
    requires Setting(l)
    ensures !HeaderLine(l) && !CommentLine(l)
  {
    assert l[0] == l[..3][0] && l[1] == l[..3][1] && l[2] == l[..3][2];
    assert l[1..][0] == l[1] && l[1..][1..] == l[2..] && l[2..][0] == l[2] && l[2..][1..] == l[3..];
    assert SkipAscii(l[3..]) == l[3..];
    assert SkipAscii(l[2..]) == l[3..];
    assert SkipAscii(l[1..]) == l[3..];
    assert SkipAscii(l) == l[3..];
  }

  lemma {:induction false} OptionalLine(b: bool, l: string)
    requires Setting(l) && '\n' !in l
    ensures Body(Line(b, l))
  {
    SettingIsNoHeader(l);
  }

  lemma {:induction false} TwoOptional(a: bool, l: string, b: bool, m: string)
    requires Setting(l) && '\n' !in l && Setting(m) && '\n' !in m
    ensures Body(Line(a, l) + Line(b, m))
  {
    OptionalLine(a, l);
    OptionalLine(b, m);
    BodyAppend(Line(a, l), Line(b, m));
  }

  lemma {:induction false} ThreeOptional(a: bool, l: string, b: bool, m: string, c: bool, n: string)
    requires Setting(l) && '\n' !in l && Setting(m) && '\n' !in m && Setting(n) && '\n' !in n
    ensures Body(Line(a, l) + (Line(b, m) + Line(c, n)))
  {
    OptionalLine(a, l);
    TwoOptional(b, m, c, n);
    BodyAppend(Line(a, l), Line(b, m) + Line(c, n));
  }

  lemma {:induction false} DisplayLinesBody(c: ShareConfig)
    ensures Body(DisplayLines(c))
  {
    ThreeOptional(c.smb.hideDotFiles, "   hide dot files = yes",
                  c.smb.caseSensitivity == "sensitive", "   case sensitive = yes",
                  c.smb.caseSensitivity == "insensitive", "   case sensitive = no");
  }

  lemma {:induction false} LockLinesBody(c: ShareConfig)
    ensures Body(LockLines(c))
  {
    TwoOptional(c.smb.oplocks == "disabled", "   oplocks = no", c.smb.encryption, "   smb encrypt = required");
  }

  lemma {:induction false} VfsLinesBody(c: ShareConfig)
    ensures Body(VfsLines(c))
  {
    ThreeOptional(c.recycleBin && c.smb.timeMachine, "   vfs objects = recycle fruit",
                  c.recycleBin && !c.smb.timeMachine, "   vfs objects = recycle",
                  !c.recycleBin && c.smb.timeMachine, "   vfs objects = fruit");
  }

  lemma {:induction false} RecycleLinesBody(c: ShareConfig)
    ensures Body(RecycleLines(c))
  {
    OptionalLine(c.recycleBin, "   recycle:repository = .recycle");
    var rest := Line(c.recycleBin, "   recycle:keeptree = yes")
                + (Line(c.recycleBin, "   recycle:versions = yes") + Line(c.smb.timeMachine, "   fruit:time machine = yes"));
    ThreeOptional(c.recycleBin, "   recycle:keeptree = yes", c.recycleBin, "   recycle:versions = yes",
                  c.smb.timeMachine, "   fruit:time machine = yes");
    BodyAppend(Line(c.recycleBin, "   recycle:repository = .recycle"), rest);
  }

  lemma {:induction false} CommentLinesBody(c: ShareConfig)
    ensures Body(CommentLines(c))
  {
    var comment := TrimSpace(c.smb.comment);
    ValueLine("   comment = ", ConfValue(comment));
    OptionalLine(comment != "", "   comment = " + ConfValue(comment));
  }

  lemma {:induction false} ValueLine(key: string, value: string)
    requires Setting(key) && '\n' !in key && '\n' !in value
    ensures Setting(key + value) && '\n' !in key + value
  {
    SettingExtends(key, value);
  }

  lemma {:induction false} MaskLinesBody()
    ensures Body(MASK_LINES)
  {
    var a, b, c := "   create mask = 0664", "   directory mask = 0775", "   browseable = yes";
    ThreeOptional(true, a, true, b, true, c);
    assert Body([""]);
    BodyAppend([a] + ([b] + [c]), [""]);
    assert MASK_LINES == [a] + ([b] + [c]) + [""];
  }

  lemma {:induction false} OptionLinesBody(c: ShareConfig)
    ensures Body(OptionLines(c))
  {
    CommentLinesBody(c);
    DisplayLinesBody(c);
    LockLinesBody(c);
    VfsLinesBody(c);
    RecycleLinesBody(c);
    BodyAppend(VfsLines(c), RecycleLines(c));
    BodyAppend(LockLines(c), VfsLines(c) + RecycleLines(c));
    BodyAppend(DisplayLines(c), LockLines(c) + (VfsLines(c) + RecycleLines(c)));
    BodyAppend(CommentLines(c), DisplayLines(c) + (LockLines(c) + (VfsLines(c) + RecycleLines(c))));
  }

  /** The lines of a list of texts, each of which may hold line breaks. */
  function Flatten(ls: seq<string>): seq<string> {
    if ls == [] then [] else Split(ls[0], '\n') + Flatten(ls[1..])
  }

  lemma {:induction false} LinesOfJoin(ls: seq<string>)
    requires ls != []
    ensures Split(Join(ls, '\n'), '\n') == Flatten(ls)
  {
    if |ls| == 1 {
      assert Flatten(ls[1..]) == [];
    } else {
      LinesOfJoin(ls[1..]);
      SplitAt(ls[0], '\n', Join(ls[1..], '\n'));
    }
  }

  lemma {:induction false} FlattenAppend(a: seq<string>, b: seq<string>)
    ensures Flatten(a + b) == Flatten(a) + Flatten(b)
  {
    if a == [] {
      assert a + b == b;
    } else {
      assert (a + b)[1..] == a[1..] + b;
      FlattenAppend(a[1..], b);
    }
  }

  lemma {:induction false} FlattenOne(l: string)
    ensures Flatten([l]) == Split(l, '\n')
  {
    assert [l][1..] == [] && Flatten([l]) == Split(l, '\n') + [] == Split(l, '\n');
  }

  lemma {:induction false} FlattenBody(ls: seq<string>)
    requires Body(ls)
    ensures Flatten(ls) == ls
  {
    if ls != [] {
      assert BodyLine(ls[0]);
      SplitNone(ls[0], '\n');
      FlattenBody(ls[1..]);
      assert ls == [ls[0]] + ls[1..];
    }
  }

  // ---- Headers hidden in the list of users -----------------------------------

  /** Header lines hidden in the list of users of a share. */
  function ExtraHeaders(s: Share): seq<string> {
    Headers(Split(UsersLine(s), '\n'))
  }

  /** No line of the text but the first looks like a header, unless it is a continuation. */
  predicate HidesNoHeader(text: string) {
    var ls := Split(text, '\n');
    !AnyHeader(EndsOpen(ls[0]), ls[1..])
  }

  /** The line ends in a backslash; it comes after "valid users =", so it is no comment. */
  predicate EndsOpen(l: string) {
    l != "" && l[|l| - 1] == '\\'
  }

  /** What a caller can check on the users: no '[' starts a line of the joined list. */
  predicate CleanUsers(us: seq<string>) {
    HidesNoHeader(Join(us, ' '))
  }

  /** A share's users add headers exactly when they are not clean. */
  lemma {:induction false} ExtraHeadersIff(s: Share)
    ensures ExtraHeaders(s) == [] <==> CleanUsers(s.validUsers)
  {
    if s.validUsers == [] {
      SplitNone(UsersLine(s), '\n');
      SplitNone("", '\n');
      SettingIsNoHeader(UsersLine(s));
      OneQuietLine(UsersLine(s));
      assert [""][1..] == [];
    } else {
      PrefixedHeaders("   valid users = ", Join(s.validUsers, ' '));
    }
  }

  lemma {:induction false} OneQuietLine(l: string)
    requires !HeaderLine(l)
    ensures Headers([l]) == []
  {
    assert [l][1..] == [];
    assert HeadersFrom(Continues(false, l), []) == [];
  }

  lemma {:induction false} PrefixedHeaders(key: string, text: string)
    requires Setting(key) && '\n' !in key && !EndsOpen(key)
    ensures Headers(Split(key + text, '\n')) == [] <==> HidesNoHeader(text)
  {
    SplitPrefixed(key, text);
    var ps := Split(text, '\n');
    var first := key + ps[0];
    SettingExtends(key, ps[0]);
    SettingIsNoHeader(first);
    assert Continues(false, first) <==> EndsOpen(ps[0]);
    NoneIff(EndsOpen(ps[0]), ps[1..]);
    assert ([first] + ps[1..])[1..] == ps[1..];
  }

  lemma {:induction false} SettingExtends(key: string, value: string)
    requires Setting(key)
    ensures Setting(key + value)
  {
    assert (key + value)[..3] == key[..3];
  }

  lemma {:induction false} SplitPrefixed(key: string, text: string)
    requires '\n' !in key
    ensures Split(key + text, '\n') == [key + Split(text, '\n')[0]] + Split(text, '\n')[1..]
  {
    var ps := Split(text, '\n');
    if key == "" {
      assert key + text == text && key + ps[0] == ps[0];
      assert ps == [ps[0]] + ps[1..];
    } else {
      SplitPrefixed(key[1..], text);
      assert (key + text)[1..] == key[1..] + text;
      assert key + ps[0] == [key[0]] + (key[1..] + ps[0]);
    }
  }

  // ---- Headers of a section and of the file ----------------------------------

  lemma {:induction false} PathLinesHeaders(s: Share)
    requires '\n' !in s.path
    ensures Headers(Flatten(PathLines(s))) == ExtraHeaders(s)
  {
    PathSettings(s);
    var p, r := "   path = " + s.path, "   read only = " + Bool(s.readOnly);
    assert PathLines(s) == [p, r] + [UsersLine(s)];
    AfterBody([p, r], UsersLine(s));
  }

  lemma {:induction false} PathSettings(s: Share)
    requires '\n' !in s.path
    ensures var ls := ["   path = " + s.path, "   read only = " + Bool(s.readOnly)]; Body(ls) && !JoinedAfter(false, ls)
  {
    ValueLine("   path = ", s.path);
    ValueLine("   read only = ", Bool(s.readOnly));
    TwoOptional(true, "   path = " + s.path, true, "   read only = " + Bool(s.readOnly));
    assert ["   path = " + s.path] + ["   read only = " + Bool(s.readOnly)]
        == ["   path = " + s.path, "   read only = " + Bool(s.readOnly)];
    JoinedClosed(false, ["   path = " + s.path], "   read only = " + Bool(s.readOnly));
  }

  lemma {:induction false} AfterBody(ls: seq<string>, text: string)
    requires Body(ls) && !JoinedAfter(false, ls)
    ensures Headers(Flatten(ls + [text])) == Headers(Split(text, '\n'))
  {
    FlattenBody(ls);
    NoHeaders(false, ls);
    FlattenOne(text);
    FlattenAppend(ls, [text]);
    HeadersAppend(false, ls, Split(text, '\n'));
  }

  predicate Validated(s: Share) {
    ValidShareName(s.name) && '\n' !in s.path
  }

  lemma {:induction false} EndsBlank(joined: bool, ls: seq<string>)
    requires ls != [] && ls[|ls| - 1] == ""
    ensures !JoinedAfter(joined, ls)
  {
    JoinedClosed(joined, ls[..|ls| - 1], "");
    assert ls == ls[..|ls| - 1] + [""];
  }

  lemma {:induction false} SettingsBody(c: ShareConfig)
    ensures Body(OptionLines(c) + MASK_LINES)
    ensures var ls := OptionLines(c) + MASK_LINES; ls != [] && ls[|ls| - 1] == ""
  {
    OptionLinesBody(c);
    MaskLinesBody();
    BodyAppend(OptionLines(c), MASK_LINES);
    var ls := OptionLines(c) + MASK_LINES;
    assert ls[|ls| - 1] == MASK_LINES[|MASK_LINES| - 1];
  }

  lemma {:induction false} NameLine(name: string)
    requires ValidShareName(name)
    ensures var head := "[" + name + "]"; HeaderLine(head) && '\n' !in head && !EndsOpen(head)
  {
  }

  /** Lines of several texts: a head, a middle part and a body that leaves nothing open. */
  lemma {:induction false} FlattenThree(head: string, mid: seq<string>, rest: seq<string>)
    requires '\n' !in head && Body(rest)
    ensures Flatten([head] + (mid + rest)) == [head] + (Flatten(mid) + rest)
  {
    SplitNone(head, '\n');
    FlattenOne(head);
    FlattenAppend([head], mid + rest);
    FlattenAppend(mid, rest);
    FlattenBody(rest);
  }

  lemma {:induction false} HeadThree(head: string, mid: seq<string>, rest: seq<string>)
    requires !EndsOpen(head) && Body(rest) && rest != [] && rest[|rest| - 1] == ""
    ensures Headers([head] + (mid + rest)) == (if HeaderLine(head) then [head] else []) + Headers(mid)
    ensures !JoinedAfter(false, [head] + (mid + rest))
  {
    assert ([head] + (mid + rest))[1..] == mid + rest;
    HeadersAppend(false, mid, rest);
    NoHeaders(JoinedAfter(false, mid), rest);
    assert Headers(mid) + [] == Headers(mid);
    JoinedAppend(false, mid, rest);
    EndsBlank(JoinedAfter(false, mid), rest);
  }

  lemma {:induction false} FramedHeaders(head: string, mid: seq<string>, rest: seq<string>)
    requires '\n' !in head && !EndsOpen(head) && Body(rest) && rest != [] && rest[|rest| - 1] == ""
    ensures var ls := Flatten([head] + (mid + rest));
            && Headers(ls) == (if HeaderLine(head) then [head] else []) + Headers(Flatten(mid))
            && !JoinedAfter(false, ls)
  {
    FlattenThree(head, mid, rest);
    HeadThree(head, Flatten(mid), rest);
  }

  lemma {:induction false} SectionHeaders(s: Share, decode: Decoder)
    requires Validated(s)
    ensures Headers(Flatten(SectionLines(s, decode))) == ["[" + s.name + "]"] + ExtraHeaders(s)
    ensures !JoinedAfter(false, Flatten(SectionLines(s, decode)))
  {
    SettingsBody(decode(s.config));
    PathLinesHeaders(s);
    NameLine(s.name);
    FramedHeaders("[" + s.name + "]", PathLines(s), OptionLines(decode(s.config)) + MASK_LINES);
  }

  function AllHeaders(all: seq<Share>): seq<string> {
    if all == [] then []
    else (if Served(all[0]) then ["[" + all[0].name + "]"] + ExtraHeaders(all[0]) else []) + AllHeaders(all[1..])
  }

  predicate AllValidated(all: seq<Share>) {
    forall s :: s in all ==> Validated(s)
  }

  lemma {:induction false} SmbLinesHeaders(all: seq<Share>, decode: Decoder)
    requires AllValidated(all)
    ensures Headers(Flatten(SmbLines(all, decode))) == AllHeaders(all)
  {
    if all != [] {
      assert all[0] in all;
      SmbLinesHeaders(all[1..], decode);
      var rest := SmbLines(all[1..], decode);
      if Served(all[0]) {
        SectionHeaders(all[0], decode);
        FlattenAppend(SectionLines(all[0], decode), rest);
        HeadersAppend(false, Flatten(SectionLines(all[0], decode)), Flatten(rest));
      } else {
        assert [] + rest == rest && [] + AllHeaders(all[1..]) == AllHeaders(all[1..]);
      }
    }
  }

  lemma {:induction false} RenderedHeaders(all: seq<Share>, decode: Decoder)
    requires AllValidated(all)
    ensures Headers(Split(RenderSmb(all, decode), '\n')) == AllHeaders(all)
  {
    SmbLinesHeaders(all, decode);
    HeaderLineBody();
    FileHeaders(SMB_HEADER, SmbLines(all, decode));
  }

  lemma {:induction false} HeaderLineBody()
    ensures '\n' !in SMB_HEADER && !HeaderLine(SMB_HEADER) && !EndsOpen(SMB_HEADER)
  {
    assert SMB_HEADER[0] == '#';
  }

  lemma {:induction false} FileHeaders(h: string, body: seq<string>)
    requires '\n' !in h && !HeaderLine(h) && !EndsOpen(h)
    ensures Headers(Split(Join([h] + body + [""], '\n'), '\n')) == Headers(Flatten(body))
  {
    FramedHeaders(h, body, [""]);
    assert [h] + body + [""] == [h] + (body + [""]);
    LinesOfJoin([h] + body + [""]);
  }

  lemma {:induction false} CountStep(h: seq<string>, extra: seq<string>, a: seq<string>, n: seq<string>)
    requires |a| >= |n|
    ensures |h + extra + a| >= |h + n|
    ensures h + extra + a == h + n <==> extra == [] && a == n
  {
    if |h + extra + a| == |h + n| {
      assert h + extra + a == h + a;
      assert (h + a)[|h|..] == a && (h + n)[|h|..] == n;
    }
  }

  predicate UsersClean(all: seq<Share>) {
    forall s :: s in all && Served(s) ==> CleanUsers(s.validUsers)
  }

  lemma {:induction false} HeaderCount(all: seq<Share>)
    ensures |AllHeaders(all)| >= |SectionNames(all)|
    ensures AllHeaders(all) == SectionNames(all) <==> UsersClean(all)
  {
    if all != [] {
      HeaderCount(all[1..]);
      assert forall s :: s in all <==> s == all[0] || s in all[1..];
      var a, n := AllHeaders(all[1..]), SectionNames(all[1..]);
      ExtraHeadersIff(all[0]);
      if Served(all[0]) {
        CountStep(["[" + all[0].name + "]"], ExtraHeaders(all[0]), a, n);
      } else {
        assert [] + a == a && [] + n == n;
      }
    }
  }

  /**
   * The section headers of the include are the served share names in order exactly when no
   * served share's users, joined by blanks, have a line that starts with '['.
   */
  lemma {:induction false} RenderedSectionsIff(all: seq<Share>, decode: Decoder)
    requires AllValidated(all)
    ensures Headers(Split(RenderSmb(all, decode), '\n')) == SectionNames(all) <==> UsersClean(all)
  {
    RenderedHeaders(all, decode);
    HeaderCount(all);
  }

  /** Users without line breaks are clean. */
  lemma {:induction false} OneLineUsers(us: seq<string>)
    requires forall u :: u in us ==> '\n' !in u
    ensures CleanUsers(us)
  {
    UsersJoined(us);
    SplitNone(Join(us, ' '), '\n');
  }

  lemma {:induction false} UsersJoined(us: seq<string>)
    requires forall u :: u in us ==> '\n' !in u
    ensures '\n' !in Join(us, ' ')
  {
    if us != [] {
      assert us[0] in us;
      assert forall u :: u in us[1..] ==> u in us;
      UsersJoined(us[1..]);
    }
  }

  /** A user with a line break before '[', blanks aside: the file gets a section that is no share. */
  lemma {:induction false} HiddenSection(s: Share, decode: Decoder, a: string, b: string)
    requires Validated(s) && Served(s) && s.validUsers == [a + ['\n'] + b]
    requires '\n' !in a && a != "" && !EndsOpen(a) && '\n' !in b && HeaderLine(b)
    ensures Headers(Split(RenderSmb([s], decode), '\n')) == ["[" + s.name + "]"] + [b]
  {
    OneSection(s, decode);
    HiddenExtra(s, a, b);
  }

  lemma {:induction false} HiddenExtra(s: Share, a: string, b: string)
    requires s.validUsers == [a + ['\n'] + b]
    requires '\n' !in a && a != "" && !EndsOpen(a) && '\n' !in b && HeaderLine(b)
    ensures ExtraHeaders(s) == [b]
  {
    assert Join(s.validUsers, ' ') == s.validUsers[0];
    HiddenLine("   valid users = ", a, b);
  }

  /** For one, the user "a", line break, " [evil]". */
  lemma {:induction false} EvilUser()
    ensures HeaderLine(" [evil]") && !CleanUsers(["a" + ['\n'] + " [evil]"])
  {
    var b := " [evil]";
    assert b[1..] == "[evil]" && SkipAscii(b[1..]) == b[1..];
    NotClean("a", b);
  }

  lemma {:induction false} NotClean(a: string, b: string)
    requires '\n' !in a && !EndsOpen(a) && '\n' !in b && HeaderLine(b)
    ensures !CleanUsers([a + ['\n'] + b])
  {
    var text := a + ['\n'] + b;
    SplitAt(a, '\n', b);
    SplitNone(a, '\n');
    SplitNone(b, '\n');
    assert Join([text], ' ') == text && Split(text, '\n') == [a, b];
    assert [a, b][1..] == [b] && [b][..0] == [];
    assert HeaderAt(false, [b], 0);
    assert AnyHeader(EndsOpen(a), Split(text, '\n')[1..]);
  }

  lemma {:induction false} OneSection(s: Share, decode: Decoder)
    requires Validated(s) && Served(s)
    ensures Headers(Split(RenderSmb([s], decode), '\n')) == ["[" + s.name + "]"] + ExtraHeaders(s)
  {
    var all := [s];
    assert forall t :: t in all ==> t == s;
    RenderedHeaders(all, decode);
    OnlyHeaders(s);
  }

  lemma {:induction false} OnlyHeaders(s: Share)
    requires Served(s)
    ensures AllHeaders([s]) == ["[" + s.name + "]"] + ExtraHeaders(s)
  {
    assert [s][1..] == [];
  }

  lemma {:induction false} HiddenLine(key: string, a: string, b: string)
    requires Setting(key) && '\n' !in key && '\n' !in a && a != "" && !EndsOpen(a) && '\n' !in b && HeaderLine(b)
    ensures Headers(Split(key + (a + ['\n'] + b), '\n')) == [b]
  {
    SplitAt(a, '\n', b);
    SplitNone(a, '\n');
    SplitNone(b, '\n');
    SplitPrefixed(key, a + ['\n'] + b);
    ValueLine(key, a);
    SettingIsNoHeader(key + a);
    TwoLines(key + a, b);
  }

  lemma {:induction false} TwoLines(a: string, b: string)
    requires !HeaderLine(a) && HeaderLine(b) && !EndsOpen(a)
    ensures Headers([a, b]) == [b]
  {
    assert [a, b][1..] == [b] && [b][1..] == [];
    assert HeadersFrom(Continues(false, b), []) == [];
    assert HeadersFrom(false, [b]) == [b] + [] == [b];
    assert HeadersFrom(false, [a, b]) == [] + HeadersFrom(false, [b]);
  }

  // ---- One section for each served share -------------------------------------

  function Lower(c: char): char {
    if 'A' <= c <= 'Z' then c + 32 as char else c
  }

  /**
   * What tells section names apart: their case and their white space are irrelevant in
   * smb.conf(5). Valid names are ASCII.
   */
  function Fold(s: string): string {
    if s == "" then "" else (if AsciiSpace(s[0]) then [] else [Lower(s[0])]) + Fold(s[1..])
  }

  /** No two header lines name the same section. */
  predicate Apart(hs: seq<string>) {
    forall i, j :: 0 <= i < j < |hs| ==> Fold(hs[i]) != Fold(hs[j])
  }

  predicate SameSection(s: Share, t: Share) {
    Served(s) && Served(t) && Fold(s.name) == Fold(t.name)
  }

  predicate NamesApart(all: seq<Share>) {
    forall i, j :: 0 <= i < j < |all| ==> !SameSection(all[i], all[j])
  }

  lemma {:induction false} FoldAppend(a: string, b: string)
    ensures Fold(a + b) == Fold(a) + Fold(b)
  {
    if a == "" {
      assert a + b == b;
    } else {
      assert (a + b)[1..] == a[1..] + b;
      FoldAppend(a[1..], b);
    }
  }

  lemma {:induction false} FoldHeader(a: string, b: string)
    ensures Fold("[" + a + "]") == Fold("[" + b + "]") <==> Fold(a) == Fold(b)
  {
    FoldBracketed(a);
    FoldBracketed(b);
    var x, y := "[" + Fold(a) + "]", "[" + Fold(b) + "]";
    assert x[1..|x| - 1] == Fold(a) && y[1..|y| - 1] == Fold(b);
  }

  lemma {:induction false} FoldBracketed(a: string)
    ensures Fold("[" + a + "]") == "[" + Fold(a) + "]"
  {
    FoldAppend("[" + a, "]");
    FoldAppend("[", a);
    assert "]"[1..] == "" && "["[1..] == "";
  }

  /** One of the header lines names the same section. */
  predicate Named(h: string, hs: seq<string>) {
    exists i :: 0 <= i < |hs| && Fold(hs[i]) == Fold(h)
  }

  predicate SharedName(s: Share, all: seq<Share>) {
    exists j :: 0 <= j < |all| && SameSection(s, all[j])
  }

  lemma {:induction false} NamedCons(h: string, x: string, hs: seq<string>)
    ensures Named(h, [x] + hs) <==> Fold(x) == Fold(h) || Named(h, hs)
  {
    var gs := [x] + hs;
    if Named(h, gs) {
      var i :| 0 <= i < |gs| && Fold(gs[i]) == Fold(h);
      assert i > 0 ==> hs[i - 1] == gs[i];
    }
    if Named(h, hs) {
      var i :| 0 <= i < |hs| && Fold(hs[i]) == Fold(h);
      assert gs[i + 1] == hs[i];
    }
    assert gs[0] == x;
  }

  lemma {:induction false} SharedCons(s: Share, all: seq<Share>)
    requires all != []
    ensures SharedName(s, all) <==> SameSection(s, all[0]) || SharedName(s, all[1..])
  {
    if SharedName(s, all) {
      var j :| 0 <= j < |all| && SameSection(s, all[j]);
      assert j > 0 ==> all[1..][j - 1] == all[j];
    }
    if SharedName(s, all[1..]) {
      var j :| 0 <= j < |all[1..]| && SameSection(s, all[1..][j]);
      assert all[j + 1] == all[1..][j];
    }
  }

  lemma {:induction false} AmongNames(s: Share, all: seq<Share>)
    requires Served(s)
    ensures Named("[" + s.name + "]", SectionNames(all)) <==> SharedName(s, all)
  {
    if all != [] {
      var h, x := "[" + s.name + "]", "[" + all[0].name + "]";
      AmongNames(s, all[1..]);
      SharedCons(s, all);
      FoldHeader(all[0].name, s.name);
      NamedCons(h, x, SectionNames(all[1..]));
      NamesHead(all);
    }
  }

  lemma {:induction false} NamesHead(all: seq<Share>)
    requires all != []
    ensures SectionNames(all) ==
            if Served(all[0]) then ["[" + all[0].name + "]"] + SectionNames(all[1..]) else SectionNames(all[1..])
  {
  }

  lemma {:induction false} ApartCons(h: string, hs: seq<string>)
    ensures Apart([h] + hs) <==> Apart(hs) && !Named(h, hs)
  {
    var gs := [h] + hs;
    assert gs[0] == h && forall i :: 0 <= i < |hs| ==> gs[i + 1] == hs[i];
    if Apart(hs) && !Named(h, hs) {
      forall i, j | 0 <= i < j < |gs|
        ensures Fold(gs[i]) != Fold(gs[j])
      {
        assert gs[j] == hs[j - 1];
        assert i > 0 ==> gs[i] == hs[i - 1];
      }
    }
    if Apart(gs) {
      forall i | 0 <= i < |hs|
        ensures Fold(hs[i]) != Fold(h)
      {
        assert Fold(gs[0]) != Fold(gs[i + 1]);
      }
      forall i, j | 0 <= i < j < |hs|
        ensures Fold(hs[i]) != Fold(hs[j])
      {
        assert Fold(gs[i + 1]) != Fold(gs[j + 1]);
      }
    }
  }

  lemma {:induction false} NamesApartCons(all: seq<Share>)
    requires all != []
    ensures NamesApart(all) <==> NamesApart(all[1..]) && !SharedName(all[0], all[1..])
  {
    var rest := all[1..];
    assert forall i :: 0 <= i < |rest| ==> rest[i] == all[i + 1];
    if NamesApart(rest) && !SharedName(all[0], rest) {
      forall i, j | 0 <= i < j < |all|
        ensures !SameSection(all[i], all[j])
      {
        assert all[j] == rest[j - 1];
        assert i > 0 ==> all[i] == rest[i - 1];
      }
    }
    if NamesApart(all) {
      forall i | 0 <= i < |rest|
        ensures !SameSection(all[0], rest[i])
      {
        assert !SameSection(all[0], all[i + 1]);
      }
      forall i, j | 0 <= i < j < |rest|
        ensures !SameSection(rest[i], rest[j])
      {
        assert !SameSection(all[i + 1], all[j + 1]);
      }
    }
  }

  lemma {:induction false} NamesApartIff(all: seq<Share>)
    ensures Apart(SectionNames(all)) <==> NamesApart(all)
  {
    if all != [] {
      NamesApartIff(all[1..]);
      NamesApartCons(all);
      NamesHead(all);
      if Served(all[0]) {
        AmongNames(all[0], all[1..]);
        ApartCons("[" + all[0].name + "]", SectionNames(all[1..]));
      } else {
        NotServedShares(all[0], all[1..]);
      }
    }
  }

  lemma {:induction false} NotServedShares(s: Share, all: seq<Share>)
    requires !Served(s)
    ensures !SharedName(s, all)
  {
  }

  /**
   * The names that do not make a section of their own: none at all, and those of the special
   * sections of smb.conf(5); [globals] is another name of [global].
   */
  const SPECIAL := ["", "global", "globals", "homes", "printers"]

  predicate SpecialName(name: string) {
    exists i :: 0 <= i < |SPECIAL| && Fold(name) == Fold(SPECIAL[i])
  }

  predicate SpecialHeader(h: string) {
    exists i :: 0 <= i < |SPECIAL| && Fold(h) == Fold("[" + SPECIAL[i] + "]")
  }

  predicate NoSpecialHeader(hs: seq<string>) {
    forall i :: 0 <= i < |hs| ==> !SpecialHeader(hs[i])
  }

  predicate NamesRegular(all: seq<Share>) {
    forall s :: s in all && Served(s) ==> !SpecialName(s.name)
  }

  lemma {:induction false} SpecialIff(name: string)
    ensures SpecialHeader("[" + name + "]") <==> SpecialName(name)
  {
    forall i | 0 <= i < |SPECIAL|
      ensures Fold("[" + name + "]") == Fold("[" + SPECIAL[i] + "]") <==> Fold(name) == Fold(SPECIAL[i])
    {
      FoldHeader(name, SPECIAL[i]);
    }
  }

  lemma {:induction false} NamesRegularIff(all: seq<Share>)
    ensures NoSpecialHeader(SectionNames(all)) <==> NamesRegular(all)
  {
    if all != [] {
      NamesRegularIff(all[1..]);
      NamesRegularCons(all);
      HeadersRegularCons(all);
    }
  }

  lemma {:induction false} HeadersRegularCons(all: seq<Share>)
    requires all != []
    ensures NoSpecialHeader(SectionNames(all))
            <==> (Served(all[0]) ==> !SpecialName(all[0].name)) && NoSpecialHeader(SectionNames(all[1..]))
  {
    var h, ns := "[" + all[0].name + "]", SectionNames(all[1..]);
    SpecialIff(all[0].name);
    if Served(all[0]) {
      assert SectionNames(all) == [h] + ns;
      NoSpecialCons(h, ns);
    } else {
      assert SectionNames(all) == [] + ns == ns;
    }
  }

  lemma {:induction false} NamesRegularCons(all: seq<Share>)
    requires all != []
    ensures NamesRegular(all) <==> (Served(all[0]) ==> !SpecialName(all[0].name)) && NamesRegular(all[1..])
  {
    assert forall s :: s in all <==> s == all[0] || s in all[1..];
  }

  lemma {:induction false} NoSpecialCons(h: string, hs: seq<string>)
    ensures NoSpecialHeader([h] + hs) <==> !SpecialHeader(h) && NoSpecialHeader(hs)
  {
    var gs := [h] + hs;
    assert gs[0] == h && forall i :: 0 <= i < |hs| ==> gs[i + 1] == hs[i];
    assert forall i :: 0 < i < |gs| ==> gs[i] == hs[i - 1];
  }

  /** The headers are those of the served shares, no two name one section, and none a special one. */
  predicate OwnSections(hs: seq<string>, all: seq<Share>) {
    hs == SectionNames(all) && Apart(hs) && NoSpecialHeader(hs)
  }

  /**
   * Every served share has exactly one section of its own and there is no other, as Samba
   * tells them apart, exactly when all users are clean, served names differ in more than case
   * and white space, and none is that of a special section.
   */
  lemma {:induction false} OwnSectionsIff(all: seq<Share>, decode: Decoder)
    requires AllValidated(all)
    ensures OwnSections(Headers(Split(RenderSmb(all, decode), '\n')), all)
            <==> UsersClean(all) && NamesApart(all) && NamesRegular(all)
  {
    RenderedSectionsIff(all, decode);
    NamesApartIff(all);
    NamesRegularIff(all);
  }

  /** A share may be called "Global": its settings become those of [global]. */
  lemma {:induction false} GlobalIsValid()
    ensures ValidShareName("Global") && SpecialName("Global")
  {
    FoldAppend("G", "lobal");
    FoldAppend("g", "lobal");
    assert "G" + "lobal" == "Global" && "g" + "lobal" == "global";
    assert "G"[1..] == "" && "g"[1..] == "" && Lower('G') == 'g' == Lower('g');
    assert SPECIAL[1] == "global";
  }

  /** Or consist of blanks: the section then has no name. */
  lemma {:induction false} BlankIsValid()
    ensures ValidShareName(" ") && SpecialName(" ")
  {
    assert " "[1..] == "" && Fold(" ") == Fold(SPECIAL[0]);
  }
}
