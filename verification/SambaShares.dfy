/**
 * The Samba include: which lines the code writes for a share, and exactly when a server that
 * reads them serves every share as it was set up.
 */
module SambaShares {
  import opened GoStrings
  import opened Options
  import opened NfsExports
  import opened ExportsMeaning
  import opened Shares
  import opened SambaReader

  // ---- The settings of a share ----------------------------------------------

  function PathItems(s: Share): seq<Item> {
    [Item("path", Some(s.path)), Item("read only", Some(Bool(s.readOnly))),
     Item("valid users", if s.validUsers != [] then Some(Join(s.validUsers, ' ')) else None),
     Item("guest ok", if s.validUsers == [] then Some("yes") else None)]
  }

  function CommentValue(c: ShareConfig): Option<string> {
    var t := TrimSpace(c.smb.comment);
    if t != "" then Some(ConfValue(t)) else None
  }

  /** A parameter that is left out unless b. */
  function OptItem(key: string, b: bool, value: string): Item {
    Item(key, if b then Some(value) else None)
  }

  function CaseValue(c: ShareConfig): Option<string> {
    if c.smb.caseSensitivity == "sensitive" then Some("yes")
    else if c.smb.caseSensitivity == "insensitive" then Some("no")
    else None
  }

  function VfsValue(c: ShareConfig): Option<string> {
    if c.recycleBin && c.smb.timeMachine then Some("recycle fruit")
    else if c.recycleBin then Some("recycle")
    else if c.smb.timeMachine then Some("fruit")
    else None
  }

  function ShowItems(c: ShareConfig): seq<Item> {
    [Item("comment", CommentValue(c)), OptItem("hide dot files", c.smb.hideDotFiles, "yes"), Item("case sensitive", CaseValue(c))]
  }

  function LockItems(c: ShareConfig): seq<Item> {
    [OptItem("oplocks", c.smb.oplocks == "disabled", "no"), OptItem("smb encrypt", c.smb.encryption, "required")]
  }

  function VfsItems(c: ShareConfig): seq<Item> {
    [Item("vfs objects", VfsValue(c)),
     OptItem("recycle:repository", c.recycleBin, ".recycle"), OptItem("recycle:keeptree", c.recycleBin, "yes"),
     OptItem("recycle:versions", c.recycleBin, "yes"), OptItem("fruit:time machine", c.smb.timeMachine, "yes")]
  }

  const MASK_ITEMS := [Item("create mask", Some("0664")), Item("directory mask", Some("0775")), Item("browseable", Some("yes"))]

  function OptionItems(c: ShareConfig): seq<Item> {
    ShowItems(c) + (LockItems(c) + (VfsItems(c) + MASK_ITEMS))
  }

  function Items(s: Share, c: ShareConfig): seq<Item> {
    PathItems(s) + OptionItems(c)
  }

  // ---- They are the lines that the code writes ------------------------------

  lemma {:induction false} UsersPrinted(s: Share)
    ensures PrintItem(PathItems(s)[2]) + PrintItem(PathItems(s)[3]) == [UsersLine(s)]
  {
    if s.validUsers != [] {
      assert "   valid users = " == "   " + "valid users" + " = ";
    } else {
      assert "   guest ok = yes" == PrintParam("guest ok", "yes");
    }
  }

  lemma {:induction false} PathPrinted(s: Share)
    ensures Printed(PathItems(s)) == PathLines(s)
  {
    var xs := PathItems(s);
    PrintedTwo(xs[0], xs[1]);
    PrintedTwo(xs[2], xs[3]);
    PrintedAppend([xs[0], xs[1]], [xs[2], xs[3]]);
    assert xs == [xs[0], xs[1]] + [xs[2], xs[3]];
    UsersPrinted(s);
    assert "   path = " == "   " + "path" + " = ";
    assert "   read only = " == "   " + "read only" + " = ";
    var p, r := "   path = " + s.path, "   read only = " + Bool(s.readOnly);
    assert [p] + [r] + [UsersLine(s)] == PathLines(s);
  }

  lemma {:induction false} CommentText(v: string)
    ensures PrintItem(Item("comment", Some(v))) == ["   comment = " + v]
  {
    assert "   comment = " == "   " + "comment" + " = ";
  }

  lemma {:induction false} CommentPrinted(c: ShareConfig)
    ensures PrintItem(Item("comment", CommentValue(c))) == CommentLines(c)
  {
    CommentText(ConfValue(TrimSpace(c.smb.comment)));
  }

  lemma {:induction false} HideLine(b: bool)
    ensures PrintItem(OptItem("hide dot files", b, "yes")) == Line(b, "   hide dot files = yes")
  {
    assert "   hide dot files = yes" == "   " + "hide dot files" + " = " + "yes";
  }

  lemma {:induction false} CaseOnLine(b: bool)
    ensures PrintItem(OptItem("case sensitive", b, "yes")) == Line(b, "   case sensitive = yes")
  {
    assert "   case sensitive = yes" == "   " + "case sensitive" + " = " + "yes";
  }

  lemma {:induction false} CaseOffLine(b: bool)
    ensures PrintItem(OptItem("case sensitive", b, "no")) == Line(b, "   case sensitive = no")
  {
    assert "   case sensitive = no" == "   " + "case sensitive" + " = " + "no";
  }

  lemma {:induction false} OplocksLine(b: bool)
    ensures PrintItem(OptItem("oplocks", b, "no")) == Line(b, "   oplocks = no")
  {
    assert "   oplocks = no" == "   " + "oplocks" + " = " + "no";
  }

  lemma {:induction false} EncryptLine(b: bool)
    ensures PrintItem(OptItem("smb encrypt", b, "required")) == Line(b, "   smb encrypt = required")
  {
    assert "   smb encrypt = required" == "   " + "smb encrypt" + " = " + "required";
  }

  lemma {:induction false} BothModulesLine(b: bool)
    ensures PrintItem(OptItem("vfs objects", b, "recycle fruit")) == Line(b, "   vfs objects = recycle fruit")
  {
    assert "   vfs objects = recycle fruit" == "   " + "vfs objects" + " = " + "recycle fruit";
  }

  lemma {:induction false} RecycleLine(b: bool)
    ensures PrintItem(OptItem("vfs objects", b, "recycle")) == Line(b, "   vfs objects = recycle")
  {
    assert "   vfs objects = recycle" == "   " + "vfs objects" + " = " + "recycle";
  }

  lemma {:induction false} FruitLine(b: bool)
    ensures PrintItem(OptItem("vfs objects", b, "fruit")) == Line(b, "   vfs objects = fruit")
  {
    assert "   vfs objects = fruit" == "   " + "vfs objects" + " = " + "fruit";
  }

  lemma {:induction false} RepositoryLine(b: bool)
    ensures PrintItem(OptItem("recycle:repository", b, ".recycle")) == Line(b, "   recycle:repository = .recycle")
  {
    assert "   recycle:repository = .recycle" == "   " + "recycle:repository" + " = " + ".recycle";
  }

  lemma {:induction false} KeepTreeLine(b: bool)
    ensures PrintItem(OptItem("recycle:keeptree", b, "yes")) == Line(b, "   recycle:keeptree = yes")
  {
    assert "   recycle:keeptree = yes" == "   " + "recycle:keeptree" + " = " + "yes";
  }

  lemma {:induction false} VersionsLine(b: bool)
    ensures PrintItem(OptItem("recycle:versions", b, "yes")) == Line(b, "   recycle:versions = yes")
  {
    assert "   recycle:versions = yes" == "   " + "recycle:versions" + " = " + "yes";
  }

  lemma {:induction false} TimeMachineLine(b: bool)
    ensures PrintItem(OptItem("fruit:time machine", b, "yes")) == Line(b, "   fruit:time machine = yes")
  {
    assert "   fruit:time machine = yes" == "   " + "fruit:time machine" + " = " + "yes";
  }

  lemma {:induction false} CreateMaskLine(b: bool)
    ensures PrintItem(OptItem("create mask", b, "0664")) == Line(b, "   create mask = 0664")
  {
    assert "   create mask = 0664" == "   " + "create mask" + " = " + "0664";
  }

  lemma {:induction false} DirectoryMaskLine(b: bool)
    ensures PrintItem(OptItem("directory mask", b, "0775")) == Line(b, "   directory mask = 0775")
  {
    assert "   directory mask = 0775" == "   " + "directory mask" + " = " + "0775";
  }

  lemma {:induction false} BrowseableLine(b: bool)
    ensures PrintItem(OptItem("browseable", b, "yes")) == Line(b, "   browseable = yes")
  {
    assert "   browseable = yes" == "   " + "browseable" + " = " + "yes";
  }

  lemma {:induction false} DisplayPrinted(c: ShareConfig)
    ensures PrintItem(ShowItems(c)[1]) + PrintItem(ShowItems(c)[2]) == DisplayLines(c)
  {
    HideLine(c.smb.hideDotFiles);
    CasePrinted(c);
  }

  lemma {:induction false} CasePrinted(c: ShareConfig)
    ensures PrintItem(ShowItems(c)[2]) ==
            Line(c.smb.caseSensitivity == "sensitive", "   case sensitive = yes")
            + Line(c.smb.caseSensitivity == "insensitive", "   case sensitive = no")
  {
    CaseOnLine(true);
    CaseOffLine(true);
    assert "sensitive" != "insensitive";
  }

  lemma {:induction false} ShowPrinted(c: ShareConfig)
    ensures Printed(ShowItems(c)) == CommentLines(c) + DisplayLines(c)
  {
    var xs := ShowItems(c);
    PrintedThree(xs[0], xs[1], xs[2]);
    CommentPrinted(c);
    DisplayPrinted(c);
  }

  lemma {:induction false} LockPrinted(c: ShareConfig)
    ensures Printed(LockItems(c)) == LockLines(c)
  {
    var a, b := c.smb.oplocks == "disabled", c.smb.encryption;
    OplocksLine(a);
    EncryptLine(b);
    PrintedTwo(OptItem("oplocks", a, "no"), OptItem("smb encrypt", b, "required"));
  }

  lemma {:induction false} ModulesPrinted(c: ShareConfig)
    ensures PrintItem(Item("vfs objects", VfsValue(c))) == VfsLines(c)
  {
    if c.recycleBin && c.smb.timeMachine {
      BothModulesLine(true);
    } else if c.recycleBin {
      RecycleLine(true);
    } else if c.smb.timeMachine {
      FruitLine(true);
    }
  }

  lemma {:induction false} RecyclePrinted(b: bool, m: bool)
    ensures var xs := [OptItem("recycle:repository", b, ".recycle"), OptItem("recycle:keeptree", b, "yes"),
                       OptItem("recycle:versions", b, "yes"), OptItem("fruit:time machine", m, "yes")];
            Printed(xs) == Line(b, "   recycle:repository = .recycle")
                           + (Line(b, "   recycle:keeptree = yes")
                              + (Line(b, "   recycle:versions = yes") + Line(m, "   fruit:time machine = yes")))
  {
    RepositoryLine(b);
    KeepTreeLine(b);
    VersionsLine(b);
    TimeMachineLine(m);
    PrintedFour(OptItem("recycle:repository", b, ".recycle"), OptItem("recycle:keeptree", b, "yes"),
                OptItem("recycle:versions", b, "yes"), OptItem("fruit:time machine", m, "yes"));
  }

  lemma {:induction false} VfsPrinted(c: ShareConfig)
    ensures Printed(VfsItems(c)) == VfsLines(c) + RecycleLines(c)
  {
    var xs := VfsItems(c);
    ModulesPrinted(c);
    RecyclePrinted(c.recycleBin, c.smb.timeMachine);
    PrintedCons(xs[0], xs[1..]);
    assert xs == [xs[0]] + xs[1..];
  }

  lemma {:induction false} MasksPrinted()
    ensures Printed(MASK_ITEMS) + [""] == MASK_LINES
  {
    CreateMaskLine(true);
    DirectoryMaskLine(true);
    BrowseableLine(true);
    PrintedThree(MASK_ITEMS[0], MASK_ITEMS[1], MASK_ITEMS[2]);
  }

  lemma {:induction false} OptionsPrinted(c: ShareConfig)
    ensures Printed(OptionItems(c)) + [""] == OptionLines(c) + MASK_LINES
  {
    ShowPrinted(c);
    LockPrinted(c);
    VfsPrinted(c);
    MasksPrinted();
    PrintedAppend(VfsItems(c), MASK_ITEMS);
    PrintedAppend(LockItems(c), VfsItems(c) + MASK_ITEMS);
    PrintedAppend(ShowItems(c), LockItems(c) + (VfsItems(c) + MASK_ITEMS));
    FivePieces(CommentLines(c), DisplayLines(c), LockLines(c), VfsLines(c), RecycleLines(c), Printed(MASK_ITEMS), [""]);
  }

  lemma {:induction false} FivePieces(a: seq<string>, b: seq<string>, l: seq<string>, v: seq<string>, r: seq<string>,
        m: seq<string>, e: seq<string>)
    ensures (a + b) + (l + ((v + r) + m)) + e == (a + (b + (l + (v + r)))) + (m + e)
  {
  }

  lemma {:induction false} SectionPrinted(s: Share, decode: Decoder)
    ensures SectionLines(s, decode) == ["[" + s.name + "]"] + (Printed(Items(s, decode(s.config))) + [""])
  {
    var c := decode(s.config);
    PathPrinted(s);
    OptionsPrinted(c);
    PrintedAppend(PathItems(s), OptionItems(c));
    Associate(Printed(PathItems(s)), Printed(OptionItems(c)), [""]);
  }

  // ---- Their keys -----------------------------------------------------------

  /** Where a key stands among those of a share. */
  function KeyNo(k: string): int {
    match |k|
    case 4 => 0
    case 9 => 1
    case 8 => 3
    case 10 => 16
    case 7 => if k[0] == 'c' then 4 else 7
    case 11 => if k[0] == 's' then 8 else if k[0] == 'c' then 14 else if k[1] == 'a' then 2 else 9
    case 14 => if k[0] == 'h' then 5 else if k[0] == 'c' then 6 else 15
    case 16 => if k[8] == 'k' then 11 else 12
    case 18 => if k[0] == 'r' then 10 else 13
    case _ => -1
  }

  predicate KeyAt(k: string, n: int) {
    KeyNo(k) == n && KeyOk(k)
  }

  /** Items whose keys have the numbers from `from` on. */
  predicate Numbered(xs: seq<Item>, from: int) {
    forall i :: 0 <= i < |xs| ==> KeyAt(xs[i].key, from + i)
  }

  lemma {:induction false} NumberedAppend(a: seq<Item>, b: seq<Item>, from: int)
    ensures Numbered(a, from) && Numbered(b, from + |a|) ==> Numbered(a + b, from)
  {
  }

  lemma {:induction false} NumberedTwo(x: Item, y: Item, n: int)
    ensures KeyAt(x.key, n) && KeyAt(y.key, n + 1) ==> Numbered([x, y], n)
  {
  }

  lemma {:induction false} NumberedThree(x: Item, y: Item, z: Item, n: int)
    ensures KeyAt(x.key, n) && KeyAt(y.key, n + 1) && KeyAt(z.key, n + 2) ==> Numbered([x, y, z], n)
  {
  }

  lemma {:induction false} PathTexts()
    ensures KeyAt("path", 0) && KeyAt("read only", 1)
  {
  }

  lemma {:induction false} AccessTexts()
    ensures KeyAt("valid users", 2) && KeyAt("guest ok", 3)
  {
  }

  lemma {:induction false} ShowTexts()
    ensures KeyAt("comment", 4) && KeyAt("hide dot files", 5)
  {
  }

  lemma {:induction false} CaseText()
    ensures KeyAt("case sensitive", 6)
  {
  }

  lemma {:induction false} LockTexts()
    ensures KeyAt("oplocks", 7) && KeyAt("smb encrypt", 8)
  {
  }

  lemma {:induction false} ModuleTexts()
    ensures KeyAt("vfs objects", 9) && KeyAt("recycle:repository", 10)
  {
  }

  lemma {:induction false} KeepTreeText()
    ensures KeyAt("recycle:keeptree", 11)
  {
  }

  lemma {:induction false} VersionsText()
    ensures KeyAt("recycle:versions", 12)
  {
  }

  lemma {:induction false} TimeMachineText()
    ensures KeyAt("fruit:time machine", 13)
  {
  }

  lemma {:induction false} MaskTexts()
    ensures KeyAt("create mask", 14)
  {
  }

  lemma {:induction false} BrowseTexts()
    ensures KeyAt("directory mask", 15) && KeyAt("browseable", 16)
  {
  }

  lemma {:induction false} PathKeys(s: Share)
    ensures Numbered(PathItems(s), 0)
  {
    PathTexts();
    AccessTexts();
    var xs := PathItems(s);
    NumberedTwo(xs[0], xs[1], 0);
    NumberedTwo(xs[2], xs[3], 2);
    NumberedAppend([xs[0], xs[1]], [xs[2], xs[3]], 0);
    assert xs == [xs[0], xs[1]] + [xs[2], xs[3]];
  }

  lemma {:induction false} ShowKeys(c: ShareConfig)
    ensures Numbered(ShowItems(c), 4)
  {
    ShowTexts();
    CaseText();
    var xs := ShowItems(c);
    NumberedThree(xs[0], xs[1], xs[2], 4);
  }

  lemma {:induction false} LockKeys(c: ShareConfig)
    ensures Numbered(LockItems(c), 7)
  {
    LockTexts();
    var xs := LockItems(c);
    NumberedTwo(xs[0], xs[1], 7);
  }

  lemma {:induction false} VfsKeys(c: ShareConfig)
    ensures Numbered(VfsItems(c), 9)
  {
    ModuleTexts();
    KeepTreeText();
    VersionsText();
    TimeMachineText();
    var xs := VfsItems(c);
    NumberedTwo(xs[0], xs[1], 9);
    NumberedThree(xs[2], xs[3], xs[4], 11);
    NumberedAppend([xs[0], xs[1]], [xs[2], xs[3], xs[4]], 9);
    assert xs == [xs[0], xs[1]] + [xs[2], xs[3], xs[4]];
  }

  lemma {:induction false} MaskKeys()
    ensures Numbered(MASK_ITEMS, 14)
  {
    MaskTexts();
    BrowseTexts();
    NumberedThree(MASK_ITEMS[0], MASK_ITEMS[1], MASK_ITEMS[2], 14);
  }

  lemma {:induction false} ItemKeys(s: Share, c: ShareConfig)
    ensures Numbered(Items(s, c), 0) && |Items(s, c)| == 17
  {
    PathKeys(s);
    ShowKeys(c);
    LockKeys(c);
    VfsKeys(c);
    MaskKeys();
    NumberedAppend(VfsItems(c), MASK_ITEMS, 9);
    NumberedAppend(LockItems(c), VfsItems(c) + MASK_ITEMS, 7);
    NumberedAppend(ShowItems(c), LockItems(c) + (VfsItems(c) + MASK_ITEMS), 4);
    NumberedAppend(PathItems(s), OptionItems(c), 0);
  }

  lemma {:induction false} NumbersApart(xs: seq<Item>)
    requires Numbered(xs, 0)
    ensures KeysApart(xs) && KeysOk(xs)
  {
    forall i, j | 0 <= i < j < |xs|
      ensures xs[i].key != xs[j].key
    {
      assert KeyAt(xs[i].key, 0 + i) && KeyAt(xs[j].key, 0 + j);
    }
    forall i | 0 <= i < |xs|
      ensures KeyOk(xs[i].key)
    {
      assert KeyAt(xs[i].key, 0 + i);
    }
  }

  // ---- One share ------------------------------------------------------------

  /** Item i of the part that starts at item `from`. */
  lemma {:induction false} FoundIn(s: Share, c: ShareConfig, part: seq<Item>, from: nat, i: nat)
    ensures PartAt(Items(s, c), part, from) && i < |part| ==>
              Lookup(Given(Items(s, c)), part[i].key) == BaredValue(part[i].value)
  {
    ItemKeys(s, c);
    NumbersApart(Items(s, c));
    FoundPart(Items(s, c), part, from, i);
  }

  lemma {:induction false} FoundPart(xs: seq<Item>, part: seq<Item>, from: nat, i: nat)
    requires KeysApart(xs)
    ensures PartAt(xs, part, from) && i < |part| ==> Lookup(Given(xs), part[i].key) == BaredValue(part[i].value)
  {
    if PartAt(xs, part, from) && i < |part| {
      LookupGiven(xs, from + i);
      assert xs[from..from + |part|][i] == xs[from + i];
    }
  }

  predicate PartAt(xs: seq<Item>, part: seq<Item>, from: nat) {
    from + |part| <= |xs| && xs[from..from + |part|] == part
  }

  lemma {:induction false} PartOf(a: seq<Item>, part: seq<Item>, b: seq<Item>)
    ensures PartAt(a + (part + b), part, |a|)
  {
  }

  lemma {:induction false} PartsAt(s: Share, c: ShareConfig)
    ensures PartAt(Items(s, c), PathItems(s), 0) && PartAt(Items(s, c), ShowItems(c), 4)
    ensures PartAt(Items(s, c), LockItems(c), 7) && PartAt(Items(s, c), VfsItems(c), 9)
    ensures PartAt(Items(s, c), MASK_ITEMS, 14)
  {
    var p, w, l, v, m := PathItems(s), ShowItems(c), LockItems(c), VfsItems(c), MASK_ITEMS;
    FiveParts(p, w, l, v, m);
  }

  lemma {:induction false} FiveParts(p: seq<Item>, w: seq<Item>, l: seq<Item>, v: seq<Item>, m: seq<Item>)
    ensures var xs := p + (w + (l + (v + m)));
            && PartAt(xs, p, 0) && PartAt(xs, w, |p|) && PartAt(xs, l, |p| + |w|)
            && PartAt(xs, v, |p| + |w| + |l|) && PartAt(xs, m, |p| + |w| + |l| + |v|)
  {
    PartOf([], p, w + (l + (v + m)));
    PartOf(p, w, l + (v + m));
    assert p + (w + (l + (v + m))) == (p + w) + (l + (v + m)) == (p + w + l) + (v + m) == (p + w + l + v) + (m + []);
    PartOf(p + w, l, v + m);
    PartOf(p + w + l, v, m);
    PartOf(p + w + l + v, m, []);
    assert [] + (p + (w + (l + (v + m)))) == p + (w + (l + (v + m)));
  }

  lemma {:induction false} PathFound(s: Share, c: ShareConfig)
    ensures var ps := Given(Items(s, c));
            && Lookup(ps, "path") == Some(Bared(s.path))
            && Lookup(ps, "read only") == Some(Bared(Bool(s.readOnly)))
            && Lookup(ps, "valid users") == (if s.validUsers == [] then None else Some(Bared(Join(s.validUsers, ' '))))
            && Lookup(ps, "guest ok") == (if s.validUsers == [] then Some(Bared("yes")) else None)
  {
    PartsAt(s, c);
    FoundIn(s, c, PathItems(s), 0, 0);
    FoundIn(s, c, PathItems(s), 0, 1);
    FoundIn(s, c, PathItems(s), 0, 2);
    FoundIn(s, c, PathItems(s), 0, 3);
  }

  lemma {:induction false} ShowFound(s: Share, c: ShareConfig)
    ensures var ps := Given(Items(s, c));
            && Lookup(ps, "comment") == BaredValue(CommentValue(c))
            && Lookup(ps, "hide dot files") == (if c.smb.hideDotFiles then Some(Bared("yes")) else None)
            && Lookup(ps, "case sensitive") == BaredValue(CaseValue(c))
  {
    PartsAt(s, c);
    FoundIn(s, c, ShowItems(c), 4, 0);
    FoundIn(s, c, ShowItems(c), 4, 1);
    FoundIn(s, c, ShowItems(c), 4, 2);
  }

  lemma {:induction false} LockFound(s: Share, c: ShareConfig)
    ensures var ps := Given(Items(s, c));
            && Lookup(ps, "oplocks") == (if c.smb.oplocks == "disabled" then Some(Bared("no")) else None)
            && Lookup(ps, "smb encrypt") == (if c.smb.encryption then Some(Bared("required")) else None)
            && Lookup(ps, "vfs objects") == BaredValue(VfsValue(c))
  {
    PartsAt(s, c);
    FoundIn(s, c, LockItems(c), 7, 0);
    FoundIn(s, c, LockItems(c), 7, 1);
    FoundIn(s, c, VfsItems(c), 9, 0);
  }

  lemma {:induction false} VfsFound(s: Share, c: ShareConfig)
    ensures var ps := Given(Items(s, c));
            && Lookup(ps, "recycle:repository") == (if c.recycleBin then Some(Bared(".recycle")) else None)
            && Lookup(ps, "recycle:keeptree") == (if c.recycleBin then Some(Bared("yes")) else None)
            && Lookup(ps, "recycle:versions") == (if c.recycleBin then Some(Bared("yes")) else None)
            && Lookup(ps, "fruit:time machine") == (if c.smb.timeMachine then Some(Bared("yes")) else None)
  {
    PartsAt(s, c);
    FoundIn(s, c, VfsItems(c), 9, 1);
    FoundIn(s, c, VfsItems(c), 9, 2);
    FoundIn(s, c, VfsItems(c), 9, 3);
    FoundIn(s, c, VfsItems(c), 9, 4);
  }

  lemma {:induction false} MasksFound(s: Share, c: ShareConfig)
    ensures var ps := Given(Items(s, c));
            && Lookup(ps, "create mask") == Some(Bared("0664"))
            && Lookup(ps, "directory mask") == Some(Bared("0775"))
            && Lookup(ps, "browseable") == Some(Bared("yes"))
  {
    PartsAt(s, c);
    FoundIn(s, c, MASK_ITEMS, 14, 0);
    FoundIn(s, c, MASK_ITEMS, 14, 1);
    FoundIn(s, c, MASK_ITEMS, 14, 2);
  }

  lemma {:induction false} FixedTexts()
    ensures Bared("yes") == "yes" && Bared("no") == "no" && Bared("true") == "true" && Bared("false") == "false"
  {
    BaredIff("yes");
    BaredIff("no");
    BaredIff("true");
    BaredIff("false");
  }

  lemma {:induction false} FixedWords()
    ensures Bared("required") == "required" && Bared(".recycle") == ".recycle"
    ensures Bared("0664") == "0664" && Bared("0775") == "0775"
  {
    BaredIff("required");
    BaredIff(".recycle");
    BaredIff("0664");
    BaredIff("0775");
  }

  lemma {:induction false} BoolsRead()
    ensures ReadBool("yes") == Some(true) && ReadBool("true") == Some(true)
    ensures ReadBool("no") == Some(false) && ReadBool("false") == Some(false)
  {
  }

  lemma {:induction false} CommentBack(ps: seq<Param>, c: ShareConfig)
    requires Lookup(ps, "comment") == BaredValue(CommentValue(c))
    ensures CommentGiven(ps, c.smb.comment)
  {
    BlankTrimmed(c.smb.comment);
    if !AllSpace(c.smb.comment) {
      CommentTight(c.smb.comment);
    }
  }

  lemma {:induction false} ModuleNames(recycle: bool, fruit: bool)
    ensures var l := (if recycle then ["recycle"] else []) + (if fruit then ["fruit"] else []);
            ListWords(l) && (l != [] ==> Tight(Join(l, ' ')))
  {
    assert ListWord("recycle") && ListWord("fruit");
    assert ["recycle", "fruit"][1..] == ["fruit"];
    assert ["recycle"] + ["fruit"] == ["recycle", "fruit"];
  }

  lemma {:induction false} ModulesJoined(c: ShareConfig)
    requires c.recycleBin || c.smb.timeMachine
    ensures VfsValue(c) == Some(Join((if c.recycleBin then ["recycle"] else []) + (if c.smb.timeMachine then ["fruit"] else []), ' '))
  {
    assert ["recycle"] + ["fruit"] == ["recycle", "fruit"] && ["recycle", "fruit"][1..] == ["fruit"];
    assert ["recycle"] + [] == ["recycle"] && [] + ["fruit"] == ["fruit"];
    assert "recycle" + " " + "fruit" == "recycle fruit";
  }

  lemma {:induction false} ModulesRead(c: ShareConfig)
    requires c.recycleBin || c.smb.timeMachine
    ensures VfsValue(c).Some?
    ensures ReadList(Bared(VfsValue(c).value)) == (if c.recycleBin then ["recycle"] else []) + (if c.smb.timeMachine then ["fruit"] else [])
  {
    var l := (if c.recycleBin then ["recycle"] else []) + (if c.smb.timeMachine then ["fruit"] else []);
    ModuleNames(c.recycleBin, c.smb.timeMachine);
    ModulesJoined(c);
    BaredIff(Join(l, ' '));
    ReadListJoin(l);
  }

  lemma {:induction false} ModulesBack(s: Share, c: ShareConfig)
    ensures ModulesGiven(Given(Items(s, c)), c.recycleBin, c.smb.timeMachine)
  {
    LockFound(s, c);
    VfsFound(s, c);
    FixedTexts();
    FixedWords();
    BoolsRead();
    if c.recycleBin || c.smb.timeMachine {
      ModulesRead(c);
    }
  }

  lemma {:induction false} ShowBack(s: Share, c: ShareConfig)
    ensures var ps := Given(Items(s, c));
            CommentGiven(ps, c.smb.comment) && Flag(ps, "hide dot files") == OnlyIf(c.smb.hideDotFiles)
            && CaseGiven(ps, c.smb.caseSensitivity)
  {
    ShowFound(s, c);
    FixedTexts();
    BoolsRead();
    CommentBack(Given(Items(s, c)), c);
  }

  lemma {:induction false} LockBack(s: Share, c: ShareConfig)
    ensures var ps := Given(Items(s, c));
            Flag(ps, "oplocks") == (if c.smb.oplocks == "disabled" then Some(false) else None)
            && Lookup(ps, "smb encrypt") == (if c.smb.encryption then Some("required") else None)
  {
    LockFound(s, c);
    FixedTexts();
    FixedWords();
    BoolsRead();
  }

  lemma {:induction false} OptionsBack(s: Share, c: ShareConfig)
    ensures OptionsGiven(Given(Items(s, c)), c)
  {
    ShowBack(s, c);
    LockBack(s, c);
    ModulesBack(s, c);
  }

  lemma {:induction false} MasksBack(s: Share, c: ShareConfig)
    ensures MasksGiven(Given(Items(s, c)))
  {
    MasksFound(s, c);
    FixedTexts();
    FixedWords();
    BoolsRead();
  }

  /** What the path and the users must be like for the section to mean the share. */
  predicate ShareTight(s: Share) {
    Tight(s.path) && ListWords(s.validUsers)
  }

  /** Path and users are on one line each; the separators of users are those of the reader. */
  predicate OneLineEach(s: Share) {
    && Whole(s.path) && Whole(Join(s.validUsers, ' '))
    && forall i :: 0 <= i < |Join(s.validUsers, ' ')| ==> !OddSpace(Join(s.validUsers, ' ')[i])
  }

  predicate Whole(v: string) {
    '\n' !in v
  }

  /** No value ends in the backslash that would join the next line to it. */
  predicate Closed(s: Share, c: ShareConfig) {
    !EndsOpen(s.path) && !EndsOpen(Join(s.validUsers, ' ')) && !EndsOpen(TrimSpace(c.smb.comment))
  }

  lemma {:induction false} AccessBackIff(s: Share, c: ShareConfig)
    requires OneLineEach(s)
    ensures AccessGiven(Given(Items(s, c)), s.validUsers) <==> ListWords(s.validUsers)
  {
    PathFound(s, c);
    FixedTexts();
    BoolsRead();
    UsersBackIff(s.validUsers);
  }

  /** With no line joined to another. */
  lemma {:induction false} ShareBackIff(s: Share, c: ShareConfig)
    requires OneLineEach(s)
    ensures SectionServes(Section(s.name, Given(Items(s, c))), s, c) <==> ShareTight(s)
  {
    PathFound(s, c);
    FixedTexts();
    BoolsRead();
    BaredIff(s.path);
    AccessBackIff(s, c);
    OptionsBack(s, c);
    MasksBack(s, c);
  }

  // ---- The whole include ----------------------------------------------------

  predicate AllWhole(ls: seq<string>) {
    forall i :: 0 <= i < |ls| ==> Whole(ls[i])
  }

  /** The values that are given are whole, and so are the keys. */
  predicate ItemsWhole(xs: seq<Item>) {
    forall i :: 0 <= i < |xs| ==> ItemWhole(xs[i])
  }

  predicate ItemWhole(x: Item) {
    '\n' !in x.key && (x.value.Some? ==> Whole(x.value.value))
  }

  lemma {:induction false} WholePrint(key: string, value: string)
    requires '\n' !in key && Whole(value)
    ensures Whole(PrintParam(key, value))
  {
  }

  lemma {:induction false} PrintedWhole(xs: seq<Item>)
    requires ItemsWhole(xs)
    ensures AllWhole(Printed(xs))
  {
    if xs != [] {
      assert ItemWhole(xs[0]);
      assert forall i :: 0 <= i < |xs[1..]| ==> xs[1..][i] == xs[i + 1];
      PrintedWhole(xs[1..]);
      if xs[0].value.Some? {
        WholePrint(xs[0].key, xs[0].value.value);
      }
    }
  }

  lemma {:induction false} WholeAppend(a: seq<string>, b: seq<string>)
    ensures AllWhole(a) && AllWhole(b) ==> AllWhole(a + b)
  {
  }

  lemma {:induction false} WholeTexts()
    ensures Whole("yes") && Whole("no") && Whole("true") && Whole("false") && Whole("required")
    ensures Whole("recycle fruit") && Whole("recycle") && Whole("fruit") && Whole(".recycle") && Whole("0664") && Whole("0775")
  {
  }

  predicate ValueWhole(x: Item) {
    x.value.Some? ==> Whole(x.value.value)
  }

  predicate ValuesWhole(xs: seq<Item>) {
    forall i :: 0 <= i < |xs| ==> ValueWhole(xs[i])
  }

  lemma {:induction false} ValuesWholeFour(x: Item, y: Item, z: Item, w: Item)
    ensures ValueWhole(x) && ValueWhole(y) && ValueWhole(z) && ValueWhole(w) ==> ValuesWhole([x, y, z, w])
  {
  }

  lemma {:induction false} SomeWhole(key: string, v: Option<string>)
    ensures (v.Some? ==> Whole(v.value)) ==> ValueWhole(Item(key, v))
  {
  }

  lemma {:induction false} ValuesWholeAppend(a: seq<Item>, b: seq<Item>)
    ensures ValuesWhole(a) && ValuesWhole(b) ==> ValuesWhole(a + b)
  {
  }

  lemma {:induction false} PathWhole(s: Share)
    requires OneLineEach(s)
    ensures ValuesWhole(PathItems(s))
  {
    WholeTexts();
    var users := if s.validUsers != [] then Some(Join(s.validUsers, ' ')) else None;
    var guests := if s.validUsers == [] then Some("yes") else None;
    SomeWhole("path", Some(s.path));
    SomeWhole("read only", Some(Bool(s.readOnly)));
    SomeWhole("valid users", users);
    SomeWhole("guest ok", guests);
    ValuesWholeFour(Item("path", Some(s.path)), Item("read only", Some(Bool(s.readOnly))), Item("valid users", users),
                    Item("guest ok", guests));
  }

  predicate WholeIfSome(v: Option<string>) {
    v.Some? ==> Whole(v.value)
  }

  lemma {:induction false} CaseWhole(c: ShareConfig)
    ensures WholeIfSome(CaseValue(c)) && WholeIfSome(OptItem("", c.smb.hideDotFiles, "yes").value)
  {
    WholeTexts();
  }

  lemma {:induction false} ThreeValues(k: string, l: string, m: string, x: Option<string>, y: Option<string>,
        z: Option<string>)
    ensures WholeIfSome(x) && WholeIfSome(y) && WholeIfSome(z) ==> ValuesWhole([Item(k, x), Item(l, y), Item(m, z)])
  {
  }

  lemma {:induction false} ShowWhole(c: ShareConfig)
    ensures ValuesWhole(ShowItems(c))
  {
    CommentWhole(c);
    CaseWhole(c);
    ThreeValues("comment", "hide dot files", "case sensitive", CommentValue(c),
                OptItem("", c.smb.hideDotFiles, "yes").value, CaseValue(c));
  }

  lemma {:induction false} CommentWhole(c: ShareConfig)
    ensures WholeIfSome(CommentValue(c))
  {
  }

  lemma {:induction false} OtherWhole(c: ShareConfig)
    ensures ValuesWhole(LockItems(c)) && ValuesWhole(VfsItems(c)) && ValuesWhole(MASK_ITEMS)
  {
    WholeTexts();
  }

  lemma {:induction false} AllItemsWhole(s: Share, c: ShareConfig)
    requires OneLineEach(s)
    ensures ItemsWhole(Items(s, c)) && KeysOk(Items(s, c))
  {
    PathWhole(s);
    ShowWhole(c);
    OtherWhole(c);
    ValuesWholeAppend(VfsItems(c), MASK_ITEMS);
    ValuesWholeAppend(LockItems(c), VfsItems(c) + MASK_ITEMS);
    ValuesWholeAppend(ShowItems(c), LockItems(c) + (VfsItems(c) + MASK_ITEMS));
    ValuesWholeAppend(PathItems(s), OptionItems(c));
    ItemKeys(s, c);
    NumbersApart(Items(s, c));
    WholeFromValues(Items(s, c));
  }

  lemma {:induction false} WholeFromValues(xs: seq<Item>)
    requires ValuesWhole(xs) && KeysOk(xs)
    ensures ItemsWhole(xs)
  {
    forall i | 0 <= i < |xs|
      ensures ItemWhole(xs[i])
    {
      assert KeyOk(xs[i].key);
    }
  }

  lemma {:induction false} HeadWhole(name: string)
    requires ValidShareName(name)
    ensures Whole("[" + name + "]") && HeaderLine("[" + name + "]") && HeaderName("[" + name + "]") == name
  {
    var h := "[" + name + "]";
    NameLine(name);
    assert h[0] == '[' && !AsciiSpace('[');
    assert SkipAscii(h) == h;
    var t := h[1..];
    assert t == name + [']'] + "";
    assert ']' !in name;
    IndexOfAt(name, ']', "");
    assert t[..|name|] == name;
  }

  /** A served share whose settings are on one line each. */
  predicate Readable(s: Share) {
    ValidShareName(s.name) && OneLineEach(s)
  }

  lemma {:induction false} SectionWhole(s: Share, decode: Decoder)
    requires Readable(s)
    ensures AllWhole(SectionLines(s, decode))
  {
    var c := decode(s.config);
    SectionPrinted(s, decode);
    AllItemsWhole(s, c);
    PrintedWhole(Items(s, c));
    HeadWhole(s.name);
    FramedWhole("[" + s.name + "]", Printed(Items(s, c)));
  }

  lemma {:induction false} FramedWhole(head: string, mid: seq<string>)
    ensures Whole(head) && AllWhole(mid) ==> AllWhole([head] + (mid + [""]))
  {
  }

  predicate AllUnbroken(all: seq<Share>) {
    forall s :: s in all && Served(s) ==> Readable(s)
  }

  lemma {:induction false} LinesWhole(all: seq<Share>, decode: Decoder)
    requires AllUnbroken(all)
    ensures AllWhole(SmbLines(all, decode))
  {
    if all != [] {
      assert all[0] in all && forall s :: s in all[1..] ==> s in all;
      LinesWhole(all[1..], decode);
      if Served(all[0]) {
        SectionWhole(all[0], decode);
        WholeAppend(SectionLines(all[0], decode), SmbLines(all[1..], decode));
      }
    }
  }

  lemma {:induction false} IncludeLines(all: seq<Share>, decode: Decoder)
    requires AllUnbroken(all)
    ensures ReadInclude(RenderSmb(all, decode)) == SectionsOf(Logical(SmbLines(all, decode) + [""]))
  {
    var body := SmbLines(all, decode) + [""];
    var ls := [SMB_HEADER] + body;
    HeaderLineBody();
    LinesWhole(all, decode);
    WholeAppend(SmbLines(all, decode), [""]);
    WholeAppend([SMB_HEADER], body);
    assert forall i :: 0 <= i < |ls| ==> Whole(ls[i]);
    SplitJoin(ls, '\n');
    Associate([SMB_HEADER], SmbLines(all, decode), [""]);
    assert ls[1..] == body;
    OneMore(SMB_HEADER, Logical(body));
  }

  lemma {:induction false} OneMore(l: string, ls: seq<string>)
    requires !HeaderLine(l)
    ensures SectionsOf([l] + ls) == SectionsOf(ls)
  {
    assert ([l] + ls)[1..] == ls && [] + SectionsOf(ls) == SectionsOf(ls);
  }

  // ---- What a section must have ---------------------------------------------

  /** Each parameter that is given can be looked up. */
  predicate HasAll(ps: seq<Param>, xs: seq<Item>) {
    forall i :: 0 <= i < |xs| ==> HasOne(ps, xs[i])
  }

  predicate HasOne(ps: seq<Param>, x: Item) {
    x.value.Some? ==> Lookup(ps, x.key).Some?
  }

  lemma {:induction false} HasAllAppend(ps: seq<Param>, a: seq<Item>, b: seq<Item>)
    ensures HasAll(ps, a) && HasAll(ps, b) ==> HasAll(ps, a + b)
  {
  }

  lemma {:induction false} HasThree(ps: seq<Param>, x: Item, y: Item, z: Item)
    ensures HasOne(ps, x) && HasOne(ps, y) && HasOne(ps, z) ==> HasAll(ps, [x, y, z]) && HasAll(ps, [x, y])
  {
  }

  lemma {:induction false} PathNeeded(ps: seq<Param>, s: Share)
    ensures Lookup(ps, "path").Some? && Flag(ps, "read only").Some? && AccessGiven(ps, s.validUsers) ==> HasAll(ps, PathItems(s))
  {
    var xs := PathItems(s);
    HasThree(ps, xs[0], xs[1], xs[1]);
    HasThree(ps, xs[2], xs[3], xs[3]);
    HasAllAppend(ps, [xs[0], xs[1]], [xs[2], xs[3]]);
    assert xs == [xs[0], xs[1]] + [xs[2], xs[3]];
  }

  lemma {:induction false} ShowNeeded(ps: seq<Param>, c: ShareConfig)
    ensures OptionsGiven(ps, c) ==> HasAll(ps, ShowItems(c))
  {
    BlankTrimmed(c.smb.comment);
    var xs := ShowItems(c);
    HasThree(ps, xs[0], xs[1], xs[2]);
  }

  lemma {:induction false} LockNeeded(ps: seq<Param>, c: ShareConfig)
    ensures OptionsGiven(ps, c) ==> HasAll(ps, LockItems(c))
  {
    var xs := LockItems(c);
    HasThree(ps, xs[0], xs[1], xs[1]);
  }

  lemma {:induction false} VfsNeeded(ps: seq<Param>, c: ShareConfig)
    ensures OptionsGiven(ps, c) ==> HasAll(ps, VfsItems(c))
  {
    var xs := VfsItems(c);
    HasThree(ps, xs[0], xs[1], xs[1]);
    HasThree(ps, xs[2], xs[3], xs[4]);
    HasAllAppend(ps, [xs[0], xs[1]], [xs[2], xs[3], xs[4]]);
    assert xs == [xs[0], xs[1]] + [xs[2], xs[3], xs[4]];
  }

  lemma {:induction false} MasksNeeded(ps: seq<Param>)
    ensures MasksGiven(ps) ==> HasAll(ps, MASK_ITEMS)
  {
    HasThree(ps, MASK_ITEMS[0], MASK_ITEMS[1], MASK_ITEMS[2]);
  }

  lemma {:induction false} ServesNeeds(sec: Section, s: Share, c: ShareConfig)
    ensures SectionServes(sec, s, c) ==> HasAll(sec.params, Items(s, c))
  {
    var ps := sec.params;
    PathNeeded(ps, s);
    ShowNeeded(ps, c);
    LockNeeded(ps, c);
    VfsNeeded(ps, c);
    MasksNeeded(ps);
    HasAllAppend(ps, VfsItems(c), MASK_ITEMS);
    HasAllAppend(ps, LockItems(c), VfsItems(c) + MASK_ITEMS);
    HasAllAppend(ps, ShowItems(c), LockItems(c) + (VfsItems(c) + MASK_ITEMS));
    HasAllAppend(ps, PathItems(s), OptionItems(c));
  }

  // ---- When nothing is joined -----------------------------------------------

  lemma {:induction false} ConfValueLast(t: string)
    ensures EndsOpen(ConfValue(t)) <==> EndsOpen(t)
  {
    ConfValueChars(t);
    if t != "" {
      assert ConfValue(t)[|t| - 1] == if t[|t| - 1] == '\n' || t[|t| - 1] == '\r' then ' ' else t[|t| - 1];
    }
  }

  predicate ValueClosed(x: Item) {
    x.value.Some? ==> !EndsOpen(x.value.value)
  }

  predicate ValuesClosed(xs: seq<Item>) {
    forall i :: 0 <= i < |xs| ==> ValueClosed(xs[i])
  }

  lemma {:induction false} ValuesClosedAppend(a: seq<Item>, b: seq<Item>)
    ensures ValuesClosed(a + b) <==> ValuesClosed(a) && ValuesClosed(b)
  {
    var c := a + b;
    assert forall i :: 0 <= i < |a| ==> c[i] == a[i];
    assert forall i :: 0 <= i < |b| ==> c[i + |a|] == b[i];
  }

  lemma {:induction false} ClosedTwo(x: Item, y: Item)
    ensures ValuesClosed([x, y]) <==> ValueClosed(x) && ValueClosed(y)
  {
    assert [x, y][0] == x && [x, y][1] == y;
  }

  lemma {:induction false} ClosedThree(x: Item, y: Item, z: Item)
    ensures ValuesClosed([x, y, z]) <==> ValueClosed(x) && ValueClosed(y) && ValueClosed(z)
  {
    assert [x, y, z][0] == x && [x, y, z][1] == y && [x, y, z][2] == z;
  }

  lemma {:induction false} ClosedTexts()
    ensures !EndsOpen("yes") && !EndsOpen("no") && !EndsOpen("true") && !EndsOpen("false") && !EndsOpen("required")
    ensures !EndsOpen("recycle fruit") && !EndsOpen("recycle") && !EndsOpen("fruit") && !EndsOpen(".recycle")
    ensures !EndsOpen("0664") && !EndsOpen("0775")
  {
  }

  lemma {:induction false} PathClosed(s: Share)
    ensures ValuesClosed(PathItems(s)) <==> !EndsOpen(s.path) && !EndsOpen(Join(s.validUsers, ' '))
  {
    ClosedTexts();
    var xs := PathItems(s);
    ClosedTwo(xs[0], xs[1]);
    ClosedTwo(xs[2], xs[3]);
    ValuesClosedAppend([xs[0], xs[1]], [xs[2], xs[3]]);
    assert xs == [xs[0], xs[1]] + [xs[2], xs[3]];
  }

  lemma {:induction false} ShowClosed(c: ShareConfig)
    ensures ValuesClosed(ShowItems(c)) <==> !EndsOpen(TrimSpace(c.smb.comment))
  {
    ClosedTexts();
    ConfValueLast(TrimSpace(c.smb.comment));
    var xs := ShowItems(c);
    ClosedThree(xs[0], xs[1], xs[2]);
  }

  lemma {:induction false} OthersClosed(c: ShareConfig)
    ensures ValuesClosed(LockItems(c) + (VfsItems(c) + MASK_ITEMS))
  {
    ClosedTexts();
    var l, v := LockItems(c), VfsItems(c);
    ClosedTwo(l[0], l[1]);
    ClosedTwo(v[0], v[1]);
    ClosedThree(v[2], v[3], v[4]);
    ClosedThree(MASK_ITEMS[0], MASK_ITEMS[1], MASK_ITEMS[2]);
    ValuesClosedAppend([v[0], v[1]], [v[2], v[3], v[4]]);
    assert v == [v[0], v[1]] + [v[2], v[3], v[4]];
    ValuesClosedAppend(v, MASK_ITEMS);
    ValuesClosedAppend(l, v + MASK_ITEMS);
  }

  lemma {:induction false} ItemsClosed(s: Share, c: ShareConfig)
    ensures ValuesClosed(Items(s, c)) <==> Closed(s, c)
  {
    PathClosed(s);
    ShowClosed(c);
    OthersClosed(c);
    ValuesClosedAppend(ShowItems(c), LockItems(c) + (VfsItems(c) + MASK_ITEMS));
    ValuesClosedAppend(PathItems(s), OptionItems(c));
  }

  lemma {:induction false} CompactClosed(xs: seq<Item>)
    ensures NoneOpen(Compact(xs)) <==> ValuesClosed(xs)
  {
    var r := Compact(xs);
    CompactSame(xs);
    if NoneOpen(r) {
      forall i | 0 <= i < |xs|
        ensures ValueClosed(xs[i])
      {
        assert xs[i].value.Some? ==> xs[i] in r;
      }
    }
    if ValuesClosed(xs) {
      forall i | 0 <= i < |r|
        ensures !EndsOpen(r[i].value.value)
      {
        assert r[i] in r;
        var j :| 0 <= j < |xs| && xs[j] == r[i];
        assert ValueClosed(xs[j]);
      }
    }
  }

  lemma {:induction false} ItemsEnd(s: Share, c: ShareConfig)
    ensures var front := PathItems(s) + (ShowItems(c) + (LockItems(c) + (VfsItems(c) + MASK_ITEMS[..2])));
            Items(s, c) == front + [MASK_ITEMS[2]]
  {
    var m, last := MASK_ITEMS[..2], [MASK_ITEMS[2]];
    assert MASK_ITEMS == m + last;
    Associate(VfsItems(c), m, last);
    Associate(LockItems(c), VfsItems(c) + m, last);
    Associate(ShowItems(c), LockItems(c) + (VfsItems(c) + m), last);
    Associate(PathItems(s), ShowItems(c) + (LockItems(c) + (VfsItems(c) + m)), last);
  }

  lemma {:induction false} LastIsClosed(s: Share, c: ShareConfig)
    ensures LastClosed(Compact(Items(s, c)))
  {
    ItemsEnd(s, c);
    var front := PathItems(s) + (ShowItems(c) + (LockItems(c) + (VfsItems(c) + MASK_ITEMS[..2])));
    EndClosed(front, Item("browseable", Some("yes")));
  }

  lemma {:induction false} EndClosed(front: seq<Item>, x: Item)
    requires x.value.Some?
    ensures !EndsOpen(x.value.value) ==> LastClosed(Compact(front + [x]))
  {
    CompactLast(front, x);
  }

  // ---- The sections that are read -------------------------------------------

  /** The lines of a share as they are read. */
  function ReadLines(s: Share, c: ShareConfig): seq<Item> {
    Merged(Compact(Items(s, c)))
  }

  /** A section serves its share exactly when path and users are tight and no line is joined. */
  lemma {:induction false} SectionIff(s: Share, c: ShareConfig)
    requires OneLineEach(s)
    ensures SectionServes(Section(s.name, Given(ReadLines(s, c))), s, c) <==> ShareTight(s) && Closed(s, c)
  {
    ItemsClosed(s, c);
    CompactClosed(Items(s, c));
    CompactSame(Items(s, c));
    if Closed(s, c) {
      MergedSame(Compact(Items(s, c)));
      ShareBackIff(s, c);
    } else {
      OpenLoses(s, c);
    }
  }

  /** If a line is open, a parameter that is given cannot be looked up. */
  lemma {:induction false} LosesOne(xs: seq<Item>) returns (x: Item)
    requires KeysApart(xs) && LastClosed(Compact(xs)) && !NoneOpen(Compact(xs))
    ensures x in xs && x.value.Some? && Lookup(Given(Merged(Compact(xs))), x.key) == None
  {
    var r := Compact(xs);
    CompactApart(xs);
    CompactSame(xs);
    var k := Swallowed(r);
    x := r[k];
    LookupAbsent(Merged(r), x.key);
  }

  lemma {:induction false} Lacks(ps: seq<Param>, xs: seq<Item>, x: Item)
    requires x in xs && x.value.Some? && Lookup(ps, x.key) == None
    ensures !HasAll(ps, xs)
  {
    var i :| 0 <= i < |xs| && xs[i] == x;
    assert !HasOne(ps, xs[i]);
  }

  lemma {:induction false} OpenLoses(s: Share, c: ShareConfig)
    requires !NoneOpen(Compact(Items(s, c)))
    ensures !SectionServes(Section(s.name, Given(ReadLines(s, c))), s, c)
  {
    ItemKeys(s, c);
    NumbersApart(Items(s, c));
    LastIsClosed(s, c);
    var x := LosesOne(Items(s, c));
    Lacks(Given(ReadLines(s, c)), Items(s, c), x);
    ServesNeeds(Section(s.name, Given(ReadLines(s, c))), s, c);
  }

  predicate AllServable(all: seq<Share>, decode: Decoder) {
    forall s :: s in all && Served(s) ==> ShareTight(s) && Closed(s, decode(s.config))
  }

  /** No parameter comes before the first section. */
  predicate StartsSection(ls: seq<string>) {
    ParamsOf(ls) == []
  }

  lemma {:induction false} BlankStarts()
    ensures Logical([""]) == [""] && ParamsOf([""]) == [] && SectionsOf([""]) == []
  {
    assert [""][1..] == [] && AsSeq(ReadParam("")) == [];
    assert SectionsOf([""][1..]) == [];
  }

  lemma {:induction false} BlankSkipped(rest: seq<string>)
    ensures ParamsOf([""] + rest) == ParamsOf(rest) && SectionsOf([""] + rest) == SectionsOf(rest)
  {
    assert ([""] + rest)[1..] == rest && AsSeq(ReadParam("")) == [];
    assert [] + ParamsOf(rest) == ParamsOf(rest) && [] + SectionsOf(rest) == SectionsOf(rest);
  }

  lemma {:induction false} SectionLogical(s: Share, decode: Decoder, rest: seq<string>)
    requires ValidShareName(s.name)
    ensures Logical(SectionLines(s, decode) + rest)
            == ["[" + s.name + "]"] + (Printed(ReadLines(s, decode(s.config))) + ([""] + Logical(rest)))
    ensures KeysOk(ReadLines(s, decode(s.config)))
  {
    var c := decode(s.config);
    var head, xs := "[" + s.name + "]", Items(s, c);
    SectionPrinted(s, decode);
    CompactSame(xs);
    ItemKeys(s, c);
    NumbersApart(xs);
    CompactKeysOk(xs);
    LastIsClosed(s, c);
    NameLine(s.name);
    Associate(Printed(xs), [""], rest);
    Associate([head], Printed(xs) + [""], rest);
    LogicalStep(head, Printed(xs) + ([""] + rest));
    LogicalPrinted(Compact(xs), [""] + rest);
    LogicalStep("", rest);
    MergedKeysOk(Compact(xs));
  }

  lemma {:induction false} CompactKeysOk(xs: seq<Item>)
    requires KeysOk(xs)
    ensures KeysOk(Compact(xs))
  {
    CompactSame(xs);
    var r := Compact(xs);
    forall i | 0 <= i < |r|
      ensures KeyOk(r[i].key)
    {
      assert r[i] in r;
    }
  }

  lemma {:induction false} SectionRead(s: Share, decode: Decoder, rest: seq<string>)
    requires ValidShareName(s.name) && StartsSection(Logical(rest))
    ensures SectionsOf(Logical(SectionLines(s, decode) + rest))
            == [Section(s.name, Given(ReadLines(s, decode(s.config))))] + SectionsOf(Logical(rest))
    ensures StartsSection(Logical(SectionLines(s, decode) + rest))
  {
    var c := decode(s.config);
    var head, xs := "[" + s.name + "]", ReadLines(s, c);
    SectionLogical(s, decode, rest);
    HeadWhole(s.name);
    BlankSkipped(Logical(rest));
    ItemsRead(xs, [""] + Logical(rest));
    HeadRead(head, Printed(xs) + ([""] + Logical(rest)));
    assert Given(xs) + [] == Given(xs);
  }

  lemma {:induction false} HeadRead(head: string, rest: seq<string>)
    requires HeaderLine(head)
    ensures SectionsOf([head] + rest) == [Section(HeaderName(head), ParamsOf(rest))] + SectionsOf(rest)
    ensures ParamsOf([head] + rest) == []
  {
    assert ([head] + rest)[1..] == rest;
  }

  lemma {:induction false} SmbLinesHead(all: seq<Share>, decode: Decoder)
    requires all != []
    ensures SmbLines(all, decode) + [""] ==
            if Served(all[0]) then SectionLines(all[0], decode) + (SmbLines(all[1..], decode) + [""])
            else SmbLines(all[1..], decode) + [""]
  {
    var rest := SmbLines(all[1..], decode);
    if Served(all[0]) {
      Associate(SectionLines(all[0], decode), rest, [""]);
    } else {
      assert [] + rest == rest;
    }
  }

  lemma {:induction false} ServableCons(all: seq<Share>, decode: Decoder)
    requires all != []
    ensures AllServable(all, decode)
            <==> (Served(all[0]) ==> ShareTight(all[0]) && Closed(all[0], decode(all[0].config))) && AllServable(all[1..], decode)
    ensures AllUnbroken(all) <==> (Served(all[0]) ==> Readable(all[0])) && AllUnbroken(all[1..])
  {
    assert forall s :: s in all <==> s == all[0] || s in all[1..];
  }

  lemma {:induction false} SectionsServe(all: seq<Share>, decode: Decoder)
    requires AllUnbroken(all)
    ensures StartsSection(Logical(SmbLines(all, decode) + [""]))
    ensures IncludeServes(SectionsOf(Logical(SmbLines(all, decode) + [""])), all, decode) <==> AllServable(all, decode)
  {
    if all == [] {
      BlankStarts();
      assert [] + [""] == [""];
    } else {
      ServableCons(all, decode);
      SectionsServe(all[1..], decode);
      SmbLinesHead(all, decode);
      var rest := SmbLines(all[1..], decode) + [""];
      if Served(all[0]) {
        var c := decode(all[0].config);
        SectionRead(all[0], decode, rest);
        SectionIff(all[0], c);
        FirstServes(Section(all[0].name, Given(ReadLines(all[0], c))), SectionsOf(Logical(rest)), all, decode);
      }
    }
  }

  lemma {:induction false} FirstServes(sec: Section, rest: seq<Section>, all: seq<Share>, decode: Decoder)
    requires all != [] && Served(all[0])
    ensures IncludeServes([sec] + rest, all, decode)
            <==> SectionServes(sec, all[0], decode(all[0].config)) && IncludeServes(rest, all[1..], decode)
  {
    assert ([sec] + rest)[1..] == rest;
  }

  /**
   * A server that reads the written include serves exactly the enabled SMB shares, each with
   * exactly its path, its users or guests, and its settings, if and only if every path is free
   * of white space at its ends, every user is one word, and no path, list of users or comment
   * ends in a backslash.
   */
  lemma {:induction false} ServedIff(all: seq<Share>, decode: Decoder)
    requires AllUnbroken(all)
    ensures IncludeServes(ReadInclude(RenderSmb(all, decode)), all, decode) <==> AllServable(all, decode)
  {
    IncludeLines(all, decode);
    SectionsServe(all, decode);
  }
}
