/**
 * A reader for the sections of smb.conf(5), and when it gets back from the written include
 * each served share with its settings.
 */
module SambaReader {
  import opened GoStrings
  import opened Options
  import opened NfsExports
  import opened ExportsMeaning
  import opened Shares

  datatype Param = Param(key: string, value: string)
  datatype Section = Section(name: string, params: seq<Param>)

  // ---- The reader -----------------------------------------------------------

  /** The lines after continuation: a backslash at the end of a line joins the next one to it. */
  function Logical(ls: seq<string>): seq<string>
    decreases |ls|
  {
    if ls == [] then []
    else if |ls| > 1 && EndsOpen(ls[0]) && !CommentLine(ls[0]) then
      Logical([ls[0][..|ls[0]| - 1] + ls[1]] + ls[2..])
    else [ls[0]] + Logical(ls[1..])
  }

  function CutRight(s: string): string {
    if s != "" && AsciiSpace(s[|s| - 1]) then CutRight(s[..|s| - 1]) else s
  }

  /** A text without the white space around it. */
  function Bared(s: string): string {
    CutRight(SkipAscii(s))
  }

  /** "key = value"; other lines are passed over. */
  function ReadParam(l: string): Option<Param> {
    var i := IndexOf(l, '=');
    if i < 0 || CommentLine(l) then None else Some(Param(Bared(l[..i]), Bared(l[i + 1..])))
  }

  function AsSeq(p: Option<Param>): seq<Param> {
    if p.Some? then [p.value] else []
  }

  /** The parameters up to the next section. */
  function ParamsOf(ls: seq<string>): seq<Param> {
    if ls == [] || HeaderLine(ls[0]) then [] else AsSeq(ReadParam(ls[0])) + ParamsOf(ls[1..])
  }

  /** What stands between '[' and the first ']'. */
  function HeaderName(l: string): string {
    var t := TrimPrefix(SkipAscii(l), "[");
    if IndexOf(t, ']') < 0 then t else t[..IndexOf(t, ']')]
  }

  function SectionsOf(ls: seq<string>): seq<Section> {
    if ls == [] then []
    else (if HeaderLine(ls[0]) then [Section(HeaderName(ls[0]), ParamsOf(ls[1..]))] else []) + SectionsOf(ls[1..])
  }

  function ReadInclude(text: string): seq<Section> {
    SectionsOf(Logical(Split(text, '\n')))
  }

  /** The last value given to a parameter. */
  function Lookup(ps: seq<Param>, key: string): Option<string> {
    if ps == [] then None
    else if ps[|ps| - 1].key == key then Some(ps[|ps| - 1].value)
    else Lookup(ps[..|ps| - 1], key)
  }

  function ReadBool(v: string): Option<bool> {
    if v == "yes" || v == "true" || v == "on" || v == "1" then Some(true)
    else if v == "no" || v == "false" || v == "off" || v == "0" then Some(false)
    else None
  }

  function Flag(ps: seq<Param>, key: string): Option<bool> {
    match Lookup(ps, key)
    case None => None
    case Some(v) => ReadBool(v)
  }

  predicate ListSep(c: char) {
    c == ' ' || c == '\t' || c == ',' || c == ';' || c == '\r' || c == '\n'
  }

  function ListEnd(v: string): (n: nat)
    ensures n <= |v| && (forall i :: 0 <= i < n ==> !ListSep(v[i])) && (n < |v| ==> ListSep(v[n]))
  {
    if v == "" || ListSep(v[0]) then 0 else 1 + ListEnd(v[1..])
  }

  /** A list of names; quotes are not interpreted. */
  function ReadList(v: string): seq<string>
    decreases |v|
  {
    if v == "" then []
    else if ListSep(v[0]) then ReadList(v[1..])
    else [v[..ListEnd(v)]] + ReadList(v[ListEnd(v)..])
  }

  // ---- What a section says of a share ---------------------------------------

  function OnlyIf(b: bool): Option<bool> {
    if b then Some(true) else None
  }

  /** Exactly the listed users, or everyone as a guest if there are none. */
  predicate AccessGiven(ps: seq<Param>, users: seq<string>) {
    if users == [] then Flag(ps, "guest ok") == Some(true) && Lookup(ps, "valid users") == None
    else Lookup(ps, "guest ok") == None && Lookup(ps, "valid users").Some? && ReadList(Lookup(ps, "valid users").value) == users
  }

  /** One line for a text: its line breaks are blanks. */
  predicate OneLined(t: string, v: string) {
    |v| == |t| && forall i :: 0 <= i < |t| ==> v[i] == if t[i] == '\n' || t[i] == '\r' then ' ' else t[i]
  }

  ghost predicate CommentGiven(ps: seq<Param>, comment: string) {
    if AllSpace(comment) then Lookup(ps, "comment") == None
    else Lookup(ps, "comment").Some? && exists t :: Stripped(comment, t) && OneLined(t, Lookup(ps, "comment").value)
  }

  predicate CaseGiven(ps: seq<Param>, mode: string) {
    Flag(ps, "case sensitive") ==
      if mode == "sensitive" then Some(true) else if mode == "insensitive" then Some(false) else None
  }

  /** The modules of the share: the recycle bin before the one for macOS. */
  predicate ModulesGiven(ps: seq<Param>, recycle: bool, fruit: bool) {
    && (Lookup(ps, "vfs objects").Some? <==> recycle || fruit)
    && (recycle || fruit ==> ReadList(Lookup(ps, "vfs objects").value)
                             == (if recycle then ["recycle"] else []) + (if fruit then ["fruit"] else []))
    && Lookup(ps, "recycle:repository") == (if recycle then Some(".recycle") else None)
    && Flag(ps, "recycle:keeptree") == OnlyIf(recycle) && Flag(ps, "recycle:versions") == OnlyIf(recycle)
    && Flag(ps, "fruit:time machine") == OnlyIf(fruit)
  }

  ghost predicate OptionsGiven(ps: seq<Param>, c: ShareConfig) {
    && CommentGiven(ps, c.smb.comment)
    && Flag(ps, "hide dot files") == OnlyIf(c.smb.hideDotFiles)
    && CaseGiven(ps, c.smb.caseSensitivity)
    && Flag(ps, "oplocks") == (if c.smb.oplocks == "disabled" then Some(false) else None)
    && Lookup(ps, "smb encrypt") == (if c.smb.encryption then Some("required") else None)
    && ModulesGiven(ps, c.recycleBin, c.smb.timeMachine)
  }

  predicate MasksGiven(ps: seq<Param>) {
    Lookup(ps, "create mask") == Some("0664") && Lookup(ps, "directory mask") == Some("0775")
    && Flag(ps, "browseable") == Some(true)
  }

  ghost predicate SectionServes(sec: Section, s: Share, c: ShareConfig) {
    && sec.name == s.name
    && Lookup(sec.params, "path") == Some(s.path)
    && Flag(sec.params, "read only") == Some(s.readOnly)
    && AccessGiven(sec.params, s.validUsers)
    && OptionsGiven(sec.params, c)
    && MasksGiven(sec.params)
  }

  /** One section for each enabled SMB share, in order. */
  ghost predicate IncludeServes(secs: seq<Section>, all: seq<Share>, decode: Decoder)
    decreases all
  {
    if all == [] then secs == []
    else if all[0].protocol == SMB && all[0].enabled then
      secs != [] && SectionServes(secs[0], all[0], decode(all[0].config)) && IncludeServes(secs[1..], all[1..], decode)
    else IncludeServes(secs, all[1..], decode)
  }

  // ---- Parameters that are printed and read ---------------------------------

  /** A parameter that may be left out. */
  datatype Item = Item(key: string, value: Option<string>)

  function PrintParam(key: string, value: string): string {
    "   " + key + " = " + value
  }

  function PrintItem(x: Item): seq<string> {
    if x.value.Some? then [PrintParam(x.key, x.value.value)] else []
  }

  function ReadItem(x: Item): seq<Param> {
    if x.value.Some? then [Param(x.key, Bared(x.value.value))] else []
  }

  function Printed(xs: seq<Item>): seq<string> {
    if xs == [] then [] else PrintItem(xs[0]) + Printed(xs[1..])
  }

  function Given(xs: seq<Item>): seq<Param> {
    if xs == [] then [] else ReadItem(xs[0]) + Given(xs[1..])
  }

  /** A key as the code writes it. */
  predicate KeyOk(k: string) {
    k != "" && 'a' <= k[0] <= 'z' && !AsciiSpace(k[|k| - 1]) && '=' !in k && '\n' !in k
  }

  predicate KeysOk(xs: seq<Item>) {
    forall i :: 0 <= i < |xs| ==> KeyOk(xs[i].key)
  }

  lemma {:induction false} PrintedAppend(a: seq<Item>, b: seq<Item>)
    ensures Printed(a + b) == Printed(a) + Printed(b)
  {
    if a == [] {
      assert a + b == b;
    } else {
      assert (a + b)[1..] == a[1..] + b;
      PrintedAppend(a[1..], b);
      Associate(PrintItem(a[0]), Printed(a[1..]), Printed(b));
    }
  }

  lemma {:induction false} PrintedOne(x: Item)
    ensures Printed([x]) == PrintItem(x)
  {
    assert [x][1..] == [] && PrintItem(x) + [] == PrintItem(x);
  }

  lemma {:induction false} PrintedCons(x: Item, xs: seq<Item>)
    ensures Printed([x] + xs) == PrintItem(x) + Printed(xs)
  {
    assert ([x] + xs)[1..] == xs;
  }

  lemma {:induction false} PrintedTwo(x: Item, y: Item)
    ensures Printed([x, y]) == PrintItem(x) + PrintItem(y)
  {
    PrintedOne(y);
    PrintedCons(x, [y]);
    assert [x] + [y] == [x, y];
  }

  lemma {:induction false} PrintedThree(x: Item, y: Item, z: Item)
    ensures Printed([x, y, z]) == PrintItem(x) + (PrintItem(y) + PrintItem(z))
  {
    PrintedTwo(y, z);
    PrintedCons(x, [y, z]);
    assert [x] + [y, z] == [x, y, z];
  }

  lemma {:induction false} PrintedFour(x: Item, y: Item, z: Item, w: Item)
    ensures Printed([x, y, z, w]) == PrintItem(x) + (PrintItem(y) + (PrintItem(z) + PrintItem(w)))
  {
    PrintedThree(y, z, w);
    PrintedCons(x, [y, z, w]);
    assert [x] + [y, z, w] == [x, y, z, w];
  }

  lemma {:induction false} GivenAppend(a: seq<Item>, b: seq<Item>)
    ensures Given(a + b) == Given(a) + Given(b)
  {
    if a == [] {
      assert a + b == b;
    } else {
      assert (a + b)[1..] == a[1..] + b;
      GivenAppend(a[1..], b);
      Associate(ReadItem(a[0]), Given(a[1..]), Given(b));
    }
  }

  lemma {:induction false} CutRightKeeps(a: string, b: string)
    requires a != "" && !AsciiSpace(a[|a| - 1]) && forall i :: 0 <= i < |b| ==> AsciiSpace(b[i])
    ensures CutRight(a + b) == a
  {
    var s := a + b;
    if b == "" {
      assert s == a;
    } else {
      assert s[..|s| - 1] == a + b[..|b| - 1];
      CutRightKeeps(a, b[..|b| - 1]);
    }
  }

  lemma {:induction false} KeyRead(k: string)
    requires KeyOk(k)
    ensures Bared("   " + k + " ") == k
  {
    var s := "   " + k + " ";
    assert s[1..][1..][1..] == k + " " && (k + " ")[0] == k[0];
    assert SkipAscii(s) == SkipAscii(s[1..]) == SkipAscii(s[1..][1..]) == SkipAscii(k + " ") == k + " ";
    CutRightKeeps(k, " ");
  }

  lemma {:induction false} ParamRead(k: string, v: string)
    requires KeyOk(k)
    ensures ReadParam(PrintParam(k, v)) == Some(Param(k, Bared(v))) && !HeaderLine(PrintParam(k, v))
  {
    KeyRead(k);
    ParamSplit("   " + k + " ", v);
    assert PrintParam(k, v) == "   " + k + " " + "=" + " " + v;
    ParamIndented(k, v);
  }

  lemma {:induction false} ParamSplit(a: string, v: string)
    requires '=' !in a
    ensures var l := a + "=" + " " + v; IndexOf(l, '=') == |a| && l[..|a|] == a && Bared(l[|a| + 1..]) == Bared(v)
  {
    var l := a + "=" + " " + v;
    assert l == a + ['='] + (" " + v);
    IndexOfAt(a, '=', " " + v);
    assert l[..|a|] == a && l[|a| + 1..] == " " + v;
    assert (" " + v)[1..] == v && SkipAscii(" " + v) == SkipAscii(v);
  }

  lemma {:induction false} ParamIndented(k: string, v: string)
    requires KeyOk(k)
    ensures !HeaderLine(PrintParam(k, v)) && !CommentLine(PrintParam(k, v))
  {
    var l := PrintParam(k, v);
    assert l[..3] == "   " && l[3] == k[0];
    SettingIsNoHeader(l);
  }

  lemma {:induction false} ItemsRead(xs: seq<Item>, rest: seq<string>)
    requires KeysOk(xs)
    ensures ParamsOf(Printed(xs) + rest) == Given(xs) + ParamsOf(rest)
    ensures SectionsOf(Printed(xs) + rest) == SectionsOf(rest)
  {
    if xs == [] {
      assert Printed(xs) + rest == rest;
    } else {
      ItemsRead(xs[1..], rest);
      ItemRead(xs[0], Printed(xs[1..]) + rest);
      Associate(PrintItem(xs[0]), Printed(xs[1..]), rest);
      Associate(ReadItem(xs[0]), Given(xs[1..]), ParamsOf(rest));
    }
  }

  lemma {:induction false} ItemRead(x: Item, rest: seq<string>)
    requires KeyOk(x.key)
    ensures ParamsOf(PrintItem(x) + rest) == ReadItem(x) + ParamsOf(rest)
    ensures SectionsOf(PrintItem(x) + rest) == SectionsOf(rest)
  {
    var ls := PrintItem(x) + rest;
    if x.value.Some? {
      ParamRead(x.key, x.value.value);
      assert ls[1..] == rest;
      assert [] + SectionsOf(rest) == SectionsOf(rest);
    } else {
      assert ls == rest && [] + ParamsOf(rest) == ParamsOf(rest);
    }
  }

  // ---- Looking up -----------------------------------------------------------

  predicate KeysApart(xs: seq<Item>) {
    forall i, j :: 0 <= i < j < |xs| ==> xs[i].key != xs[j].key
  }

  lemma {:induction false} LookupSnoc(ps: seq<Param>, p: Param, key: string)
    ensures Lookup(ps + [p], key) == if p.key == key then Some(p.value) else Lookup(ps, key)
  {
    assert (ps + [p])[..|ps|] == ps;
  }

  lemma {:induction false} GivenSnoc(xs: seq<Item>, x: Item, key: string)
    ensures Lookup(Given(xs + [x]), key) ==
            if x.key == key && x.value.Some? then Some(Bared(x.value.value)) else Lookup(Given(xs), key)
  {
    GivenAppend(xs, [x]);
    assert [x][1..] == [] && Given([x]) == ReadItem(x) + Given([]) == ReadItem(x);
    if x.value.Some? {
      LookupSnoc(Given(xs), Param(x.key, Bared(x.value.value)), key);
    } else {
      assert Given(xs) + [] == Given(xs);
    }
  }

  function BaredValue(v: Option<string>): Option<string> {
    if v.Some? then Some(Bared(v.value)) else None
  }

  lemma {:induction false} LookupAbsent(xs: seq<Item>, key: string)
    requires forall i :: 0 <= i < |xs| ==> xs[i].key != key
    ensures Lookup(Given(xs), key) == None
  {
    if xs != [] {
      var n := |xs| - 1;
      assert xs == xs[..n] + [xs[n]];
      LookupAbsent(xs[..n], key);
      GivenSnoc(xs[..n], xs[n], key);
    }
  }

  /** With keys apart, a parameter is found with its own value. */
  lemma {:induction false} LookupGiven(xs: seq<Item>, i: nat)
    requires KeysApart(xs) && i < |xs|
    ensures Lookup(Given(xs), xs[i].key) == BaredValue(xs[i].value)
  {
    var n := |xs| - 1;
    assert xs == xs[..n] + [xs[n]];
    GivenSnoc(xs[..n], xs[n], xs[i].key);
    if i < n {
      LookupGiven(xs[..n], i);
    } else {
      LookupAbsent(xs[..n], xs[n].key);
    }
  }

  // ---- Values ---------------------------------------------------------------

  /** Without white space at its ends. */
  predicate Tight(v: string) {
    v == "" || (!AsciiSpace(v[0]) && !AsciiSpace(v[|v| - 1]))
  }

  lemma {:induction false} CutRightEnds(s: string)
    ensures var r := CutRight(s); |r| <= |s| && s[..|r|] == r && (r == "" || !AsciiSpace(r[|r| - 1]))
    ensures s != "" && !AsciiSpace(s[0]) ==> CutRight(s) != ""
  {
    if s != "" && AsciiSpace(s[|s| - 1]) {
      CutRightEnds(s[..|s| - 1]);
    }
  }

  lemma {:induction false} SkipEnds(s: string)
    ensures SkipAscii(s) == "" || !AsciiSpace(SkipAscii(s)[0])
  {
    if s != "" && AsciiSpace(s[0]) {
      SkipEnds(s[1..]);
    }
  }

  /** A value reads back exactly when it is tight. */
  lemma {:induction false} BaredIff(v: string)
    ensures Bared(v) == v <==> Tight(v)
  {
    SkipEnds(v);
    CutRightEnds(SkipAscii(v));
    var t := SkipAscii(v);
    if Bared(v) != "" {
      assert Bared(v)[0] == t[..|Bared(v)|][0] == t[0];
    }
  }

  lemma {:induction false} ConfValueChars(t: string)
    ensures OneLined(t, ConfValue(t))
  {
    if t != "" {
      ConfValueChars(t[1..]);
      var v := ConfValue(t[1..]);
      assert forall i :: 0 < i < |t| ==> t[i] == t[1..][i - 1] && ConfValue(t)[i] == v[i - 1];
    }
  }

  lemma {:induction false} CommentTight(c: string)
    requires TrimSpace(c) != ""
    ensures var v := ConfValue(TrimSpace(c)); Bared(v) == v && OneLined(TrimSpace(c), v) && Stripped(c, TrimSpace(c))
  {
    var t := TrimSpace(c);
    TrimSpaceEnds(c);
    ConfValueChars(t);
    BaredIff(ConfValue(t));
    var a, b := TrimSpaceParts(c);
    assert Padded(a, t, b, c);
  }

  // ---- Lists of users -------------------------------------------------------

  predicate ListWord(u: string) {
    u != "" && forall i :: 0 <= i < |u| ==> !ListSep(u[i])
  }

  predicate ListWords(us: seq<string>) {
    forall i :: 0 <= i < |us| ==> ListWord(us[i])
  }

  lemma {:induction false} ReadListWords(v: string)
    ensures ListWords(ReadList(v))
    decreases |v|
  {
    if v != "" {
      if ListSep(v[0]) {
        ReadListWords(v[1..]);
      } else {
        ReadListWords(v[ListEnd(v)..]);
        assert ListWord(v[..ListEnd(v)]);
      }
    }
  }

  lemma {:induction false} ListEndAt(u: string, rest: string)
    requires forall i :: 0 <= i < |u| ==> !ListSep(u[i])
    requires rest == "" || ListSep(rest[0])
    ensures ListEnd(u + rest) == |u|
  {
    var v := u + rest;
    var n := ListEnd(v);
    assert forall i :: 0 <= i < |u| ==> v[i] == u[i];
    assert rest != "" ==> v[|u|] == rest[0];
  }

  lemma {:induction false} ReadListWord(u: string, rest: string)
    requires ListWord(u) && (rest == "" || ListSep(rest[0]))
    ensures ReadList(u + rest) == [u] + ReadList(rest)
  {
    ListEndAt(u, rest);
    assert (u + rest)[0] == u[0] && (u + rest)[..|u|] == u && (u + rest)[|u|..] == rest;
  }

  lemma {:induction false} ReadListJoin(us: seq<string>)
    requires ListWords(us)
    ensures ReadList(Join(us, ' ')) == us
  {
    if us != [] {
      assert ListWord(us[0]);
      if |us| == 1 {
        ReadListWord(us[0], "");
        assert us[0] + "" == us[0] && [us[0]] + [] == us;
      } else {
        ReadListJoin(us[1..]);
        var rest := " " + Join(us[1..], ' ');
        assert rest[1..] == Join(us[1..], ' ');
        ReadListWord(us[0], rest);
        assert us == [us[0]] + us[1..];
        assert us[0] + rest == Join(us, ' ');
      }
    }
  }

  /** White space that separates no users. */
  predicate OddSpace(c: char) {
    AsciiSpace(c) && !ListSep(c)
  }

  lemma {:induction false} ReadListSkip(v: string)
    requires forall i :: 0 <= i < |v| ==> !OddSpace(v[i])
    ensures ReadList(SkipAscii(v)) == ReadList(v)
  {
    if v != "" && AsciiSpace(v[0]) {
      assert !OddSpace(v[0]);
      ReadListSkip(v[1..]);
    }
  }

  /** A separator at the end does not matter. */
  lemma {:induction false} ReadListSnoc(v: string, c: char)
    requires ListSep(c)
    ensures ReadList(v + [c]) == ReadList(v)
    decreases |v|
  {
    var w := v + [c];
    if v == "" {
      assert w == [c] && w[1..] == "";
    } else if ListSep(v[0]) {
      assert w[1..] == v[1..] + [c] && w[0] == v[0];
      ReadListSnoc(v[1..], c);
    } else {
      SnocWord(v, c);
      ReadListSnoc(v[ListEnd(v)..], c);
    }
  }

  lemma {:induction false} SnocWord(v: string, c: char)
    requires ListSep(c) && v != "" && !ListSep(v[0])
    ensures 0 < ListEnd(v)
    ensures ReadList(v + [c]) == [v[..ListEnd(v)]] + ReadList(v[ListEnd(v)..] + [c])
  {
    var n := ListEnd(v);
    var u, rest := v[..n], v[n..] + [c];
    assert v + [c] == u + rest;
    assert n < |v| ==> rest[0] == v[n];
    ListEndAt(u, rest);
    assert (u + rest)[..n] == u && (u + rest)[n..] == rest && (u + rest)[0] == v[0];
  }

  lemma {:induction false} ReadListCut(v: string)
    requires forall i :: 0 <= i < |v| ==> !OddSpace(v[i])
    ensures ReadList(CutRight(v)) == ReadList(v)
  {
    if v != "" && AsciiSpace(v[|v| - 1]) {
      var w := v[..|v| - 1];
      assert v == w + [v[|v| - 1]];
      assert !OddSpace(v[|v| - 1]);
      assert forall i :: 0 <= i < |w| ==> w[i] == v[i];
      ReadListCut(w);
      ReadListSnoc(w, v[|v| - 1]);
    }
  }

  lemma {:induction false} SkipChars(v: string, i: nat)
    requires i < |SkipAscii(v)|
    ensures |SkipAscii(v)| <= |v| && SkipAscii(v)[i] == v[|v| - |SkipAscii(v)| + i]
  {
    if v != "" && AsciiSpace(v[0]) {
      SkipChars(v[1..], i);
    }
  }

  lemma {:induction false} SkipKeeps(v: string)
    requires forall i :: 0 <= i < |v| ==> !OddSpace(v[i])
    ensures forall i :: 0 <= i < |SkipAscii(v)| ==> !OddSpace(SkipAscii(v)[i])
  {
    forall i | 0 <= i < |SkipAscii(v)|
      ensures !OddSpace(SkipAscii(v)[i])
    {
      SkipChars(v, i);
    }
  }

  /** The users read back exactly when each of them is one word. */
  lemma {:induction false} UsersBackIff(us: seq<string>)
    requires forall i :: 0 <= i < |Join(us, ' ')| ==> !OddSpace(Join(us, ' ')[i])
    ensures ReadList(Bared(Join(us, ' '))) == us <==> ListWords(us)
  {
    var v := Join(us, ' ');
    ReadListSkip(v);
    SkipKeeps(v);
    ReadListCut(SkipAscii(v));
    ReadListWords(v);
    if ListWords(us) {
      ReadListJoin(us);
    }
  }

  // ---- Lines that are joined ------------------------------------------------

  predicate AllGiven(xs: seq<Item>) {
    forall i :: 0 <= i < |xs| ==> xs[i].value.Some?
  }

  /** The items that are given. */
  function Compact(xs: seq<Item>): (r: seq<Item>)
    ensures AllGiven(r)
  {
    if xs == [] then [] else (if xs[0].value.Some? then [xs[0]] else []) + Compact(xs[1..])
  }

  lemma {:induction false} CompactSame(xs: seq<Item>)
    ensures Printed(Compact(xs)) == Printed(xs) && Given(Compact(xs)) == Given(xs)
    ensures forall x :: x in Compact(xs) <==> x in xs && x.value.Some?
  {
    if xs != [] {
      CompactSame(xs[1..]);
      if xs[0].value.Some? {
        assert ([xs[0]] + Compact(xs[1..]))[1..] == Compact(xs[1..]);
      } else {
        assert [] + Compact(xs[1..]) == Compact(xs[1..]);
      }
      assert forall x :: x in xs <==> x == xs[0] || x in xs[1..];
    }
  }

  lemma {:induction false} CompactApart(xs: seq<Item>)
    requires KeysApart(xs)
    ensures KeysApart(Compact(xs))
  {
    if xs != [] {
      CompactSame(xs[1..]);
      CompactApart(xs[1..]);
      var r := Compact(xs[1..]);
      forall j | 0 <= j < |r|
        ensures r[j].key != xs[0].key
      {
        assert r[j] in xs[1..];
        var k :| 0 <= k < |xs[1..]| && xs[1..][k] == r[j];
        assert xs[k + 1] == r[j];
      }
    }
  }

  lemma {:induction false} CompactLast(xs: seq<Item>, x: Item)
    requires x.value.Some?
    ensures Compact(xs + [x]) == Compact(xs) + [x]
  {
    if xs == [] {
      assert xs + [x] == [x] && [x][1..] == [];
    } else {
      assert (xs + [x])[1..] == xs[1..] + [x] && (xs + [x])[0] == xs[0];
      CompactLast(xs[1..], x);
      Associate(if xs[0].value.Some? then [xs[0]] else [], Compact(xs[1..]), [x]);
    }
  }

  /** The line of x without its backslash, and that of y. */
  function Joined(x: Item, y: Item): Item
    requires x.value.Some? && y.value.Some? && x.value.value != ""
  {
    Item(x.key, Some(x.value.value[..|x.value.value| - 1] + PrintParam(y.key, y.value.value)))
  }

  /** The items as they are read: one that ends in a backslash swallows the next. */
  function Merged(xs: seq<Item>): (r: seq<Item>)
    requires AllGiven(xs)
    ensures AllGiven(r)
    decreases |xs|
  {
    if xs == [] then []
    else if |xs| > 1 && EndsOpen(xs[0].value.value) then Merged([Joined(xs[0], xs[1])] + xs[2..])
    else [xs[0]] + Merged(xs[1..])
  }

  /** The last line leaves nothing open. */
  predicate LastClosed(xs: seq<Item>)
    requires AllGiven(xs)
  {
    xs != [] ==> !EndsOpen(xs[|xs| - 1].value.value)
  }

  lemma {:induction false} PrintOpen(k: string, v: string)
    ensures EndsOpen(PrintParam(k, v)) <==> EndsOpen(v)
    ensures v != "" ==> PrintParam(k, v)[..|PrintParam(k, v)| - 1] == PrintParam(k, v[..|v| - 1])
  {
    var l := PrintParam(k, v);
    assert l[|l| - 1] == if v == "" then ' ' else v[|v| - 1];
  }

  lemma {:induction false} PrintLonger(k: string, v: string, w: string)
    ensures PrintParam(k, v) + w == PrintParam(k, v + w)
  {
    Associate("   " + k + " = ", v, w);
  }

  lemma {:induction false} LogicalStep(l: string, rest: seq<string>)
    ensures !EndsOpen(l) || CommentLine(l) ==> Logical([l] + rest) == [l] + Logical(rest)
    ensures EndsOpen(l) && !CommentLine(l) && rest != [] ==>
              Logical([l] + rest) == Logical([l[..|l| - 1] + rest[0]] + rest[1..])
  {
    var ls := [l] + rest;
    assert ls[1..] == rest && (rest != [] ==> ls[2..] == rest[1..] && ls[1] == rest[0]);
  }

  lemma {:induction false} LogicalPrinted(xs: seq<Item>, rest: seq<string>)
    requires AllGiven(xs) && KeysOk(xs) && LastClosed(xs)
    ensures Logical(Printed(xs) + rest) == Printed(Merged(xs)) + Logical(rest)
    decreases |xs|
  {
    if xs == [] {
      assert Printed(xs) + rest == rest && [] + Logical(rest) == Logical(rest);
    } else {
      var x, ys := xs[0], xs[1..];
      assert KeyOk(x.key);
      if EndsOpen(x.value.value) {
        var y, zs := xs[1], xs[2..];
        assert xs == [x, y] + zs;
        JoinedOk(x, y, zs);
        LogicalPrinted([Joined(x, y)] + zs, rest);
        assert ys == [y] + zs && xs == [x] + ys;
        LogicalJoined(x, y, zs, rest);
      } else {
        LogicalPrinted(ys, rest);
        LogicalKept(x, ys, rest);
        PrintedCons(x, Merged(ys));
        Associate(PrintItem(x), Printed(Merged(ys)), Logical(rest));
      }
    }
  }

  lemma {:induction false} LogicalKept(x: Item, ys: seq<Item>, rest: seq<string>)
    requires x.value.Some? && KeyOk(x.key) && !EndsOpen(x.value.value)
    ensures Logical(PrintItem(x) + Printed(ys) + rest) == PrintItem(x) + Logical(Printed(ys) + rest)
  {
    PrintOpen(x.key, x.value.value);
    Associate(PrintItem(x), Printed(ys), rest);
    LogicalStep(PrintParam(x.key, x.value.value), Printed(ys) + rest);
  }

  lemma {:induction false} LogicalJoined(x: Item, y: Item, zs: seq<Item>, rest: seq<string>)
    requires x.value.Some? && y.value.Some? && KeyOk(x.key) && EndsOpen(x.value.value)
    ensures Logical(Printed([x] + ([y] + zs)) + rest) == Logical(Printed([Joined(x, y)] + zs) + rest)
  {
    var l, m, tail := PrintParam(x.key, x.value.value), PrintParam(y.key, y.value.value), Printed(zs);
    PrintedCons(x, [y] + zs);
    PrintedCons(y, zs);
    PrintedCons(Joined(x, y), zs);
    Associate([l], [m] + tail, rest);
    Associate([m], tail, rest);
    Associate(PrintItem(Joined(x, y)), tail, rest);
    PrintOpen(x.key, x.value.value);
    ParamIndented(x.key, x.value.value);
    JoinedLines(l, m, tail + rest);
    JoinedPrint(x, y);
  }

  lemma {:induction false} JoinedLines(l: string, m: string, tail: seq<string>)
    requires EndsOpen(l) && !CommentLine(l)
    ensures Logical([l] + ([m] + tail)) == Logical([l[..|l| - 1] + m] + tail)
  {
    LogicalStep(l, [m] + tail);
    assert ([m] + tail)[1..] == tail && ([m] + tail)[0] == m;
  }

  lemma {:induction false} JoinedPrint(x: Item, y: Item)
    requires x.value.Some? && y.value.Some? && x.value.value != ""
    ensures var l := PrintParam(x.key, x.value.value);
            PrintItem(Joined(x, y)) == [l[..|l| - 1] + PrintParam(y.key, y.value.value)]
  {
    PrintOpen(x.key, x.value.value);
    PrintLonger(x.key, x.value.value[..|x.value.value| - 1], PrintParam(y.key, y.value.value));
  }

  lemma {:induction false} JoinedOk(x: Item, y: Item, zs: seq<Item>)
    requires x.value.Some? && y.value.Some? && x.value.value != "" && KeyOk(x.key)
    requires AllGiven([x, y] + zs) && KeysOk([x, y] + zs) && LastClosed([x, y] + zs)
    ensures AllGiven([Joined(x, y)] + zs) && KeysOk([Joined(x, y)] + zs) && LastClosed([Joined(x, y)] + zs)
  {
    var xs, ys := [Joined(x, y)] + zs, [x, y] + zs;
    assert forall i :: 0 < i < |xs| ==> xs[i] == ys[i + 1];
    assert ys[|ys| - 1] == if zs == [] then y else zs[|zs| - 1];
    PrintOpen(y.key, y.value.value);
    var m := PrintParam(y.key, y.value.value);
    assert Joined(x, y).value.value[|Joined(x, y).value.value| - 1] == m[|m| - 1];
  }

  predicate HasKey(xs: seq<Item>, key: string) {
    exists i :: 0 <= i < |xs| && xs[i].key == key
  }

  lemma {:induction false} HasKeyCons(x: Item, xs: seq<Item>, key: string)
    ensures HasKey([x] + xs, key) <==> x.key == key || HasKey(xs, key)
  {
    var ys := [x] + xs;
    assert ys[0] == x;
    if HasKey(ys, key) {
      var i :| 0 <= i < |ys| && ys[i].key == key;
      assert i > 0 ==> ys[i] == xs[i - 1];
    }
    if HasKey(xs, key) {
      var i :| 0 <= i < |xs| && xs[i].key == key;
      assert ys[i + 1] == xs[i];
    }
  }

  /** Joining brings no keys in. */
  lemma {:induction false} MergedKeys(xs: seq<Item>, key: string)
    requires AllGiven(xs) && !HasKey(xs, key)
    ensures !HasKey(Merged(xs), key)
    decreases |xs|
  {
    if xs != [] {
      assert xs == [xs[0]] + xs[1..];
      HasKeyCons(xs[0], xs[1..], key);
      if |xs| > 1 && EndsOpen(xs[0].value.value) {
        assert xs[1..] == [xs[1]] + xs[2..];
        HasKeyCons(xs[1], xs[2..], key);
        HasKeyCons(Joined(xs[0], xs[1]), xs[2..], key);
        MergedKeys([Joined(xs[0], xs[1])] + xs[2..], key);
      } else {
        MergedKeys(xs[1..], key);
        HasKeyCons(xs[0], Merged(xs[1..]), key);
      }
    }
  }

  lemma {:induction false} MergedKeysOk(xs: seq<Item>)
    requires AllGiven(xs) && KeysOk(xs)
    ensures KeysOk(Merged(xs))
    decreases |xs|
  {
    if xs != [] {
      if |xs| > 1 && EndsOpen(xs[0].value.value) {
        assert KeyOk(xs[0].key);
        assert forall i :: 0 <= i < |xs[2..]| ==> xs[2..][i] == xs[i + 2];
        MergedKeysOk([Joined(xs[0], xs[1])] + xs[2..]);
      } else {
        assert forall i :: 0 <= i < |xs[1..]| ==> xs[1..][i] == xs[i + 1];
        MergedKeysOk(xs[1..]);
      }
    }
  }

  predicate NoneOpen(xs: seq<Item>)
    requires AllGiven(xs)
  {
    forall i :: 0 <= i < |xs| ==> !EndsOpen(xs[i].value.value)
  }

  lemma {:induction false} MergedSame(xs: seq<Item>)
    requires AllGiven(xs) && NoneOpen(xs)
    ensures Merged(xs) == xs
  {
    if xs != [] {
      assert forall i :: 0 <= i < |xs[1..]| ==> xs[1..][i] == xs[i + 1];
      assert !EndsOpen(xs[0].value.value);
      MergedSame(xs[1..]);
      assert xs == [xs[0]] + xs[1..];
    }
  }

  /** A line that ends in a backslash costs the next one its setting. */
  lemma {:induction false} Swallowed(xs: seq<Item>) returns (k: nat)
    requires AllGiven(xs) && KeysApart(xs) && LastClosed(xs) && !NoneOpen(xs)
    ensures k < |xs| && !HasKey(Merged(xs), xs[k].key)
    decreases |xs|
  {
    var rest := xs[1..];
    assert forall i :: 0 <= i < |rest| ==> rest[i] == xs[i + 1];
    if EndsOpen(xs[0].value.value) {
      k := 1;
      var ys := [Joined(xs[0], xs[1])] + xs[2..];
      forall i | 0 <= i < |ys|
        ensures ys[i].key != xs[1].key
      {
        assert i > 0 ==> ys[i] == xs[i + 1];
      }
      MergedKeys(ys, xs[1].key);
    } else {
      var j := Swallowed(rest);
      k := j + 1;
      HasKeyCons(xs[0], Merged(rest), xs[k].key);
    }
  }
}
