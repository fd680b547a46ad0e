/**
 * The share handlers (handlers.go) over the table of shares, with the two generated files
 * and the services: requests are served one at a time, commands and writes may fail, and
 * `trail` lists every state the files pass through, so a crash shows one of them.
 */
module ShareTable {
  import opened GoStrings
  import opened GoSort
  import opened NfsExports
  import opened Shares

  // ---- Comma-separated columns -----------------------------------------------

  function TrimmedItems(xs: seq<string>): seq<string> {
    if xs == [] then []
    else (if TrimSpace(xs[0]) != "" then [TrimSpace(xs[0])] else []) + TrimmedItems(xs[1..])
  }

  function SplitCsv(s: string): seq<string> {
    TrimmedItems(Split(s, ','))
  }

  function JoinCsv(xs: seq<string>): string {
    Join(xs, ',')
  }

  predicate CsvItem(x: string) {
    x != "" && ',' !in x && TrimSpace(x) == x
  }

  predicate CsvItems(xs: seq<string>) {
    forall i :: 0 <= i < |xs| ==> CsvItem(xs[i])
  }

  method SplitCsvLoop(s: string) returns (out: seq<string>)
    ensures out == SplitCsv(s)
  {
    var ps := Split(s, ',');
    out := [];
    var i := 0;
    while i < |ps|
      invariant 0 <= i <= |ps|
      invariant out + TrimmedItems(ps[i..]) == TrimmedItems(ps)
    {
      var p := TrimSpace(ps[i]);
      TrimmedStep(ps, i, out);
      if p != "" {
        out := out + [p];
      }
      i := i + 1;
    }
    assert ps[|ps|..] == [];
  }

  lemma {:induction false} TrimmedStep(ps: seq<string>, i: nat, out: seq<string>)
    requires i < |ps|
    ensures var p := TrimSpace(ps[i]);
            out + TrimmedItems(ps[i..]) == (if p != "" then out + [p] else out) + TrimmedItems(ps[i + 1..])
  {
    assert ps[i..][1..] == ps[i + 1..];
  }

  lemma {:induction false} TrimSpaceTwice(s: string)
    ensures TrimSpace(TrimSpace(s)) == TrimSpace(s)
  {
    TrimSpaceEnds(s);
    TrimSpaceFixed(TrimSpace(s));
  }

  lemma {:induction false} TrimmedItemsOk(xs: seq<string>)
    requires forall i :: 0 <= i < |xs| ==> ',' !in xs[i]
    ensures CsvItems(TrimmedItems(xs))
  {
    if xs != [] {
      assert forall i :: 0 <= i < |xs[1..]| ==> xs[1..][i] == xs[i + 1];
      TrimmedItemsOk(xs[1..]);
      TrimmedItemOk(xs[0]);
    }
  }

  lemma {:induction false} TrimmedItemOk(x: string)
    requires ',' !in x
    ensures TrimSpace(x) == "" || CsvItem(TrimSpace(x))
  {
    TrimSpaceTwice(x);
    var a, b := TrimSpaceParts(x);
    assert forall c :: c in TrimSpace(x) ==> c in a + TrimSpace(x) + b;
  }

  lemma {:induction false} TrimmedItemsFixed(xs: seq<string>)
    requires CsvItems(xs)
    ensures TrimmedItems(xs) == xs
  {
    if xs != [] {
      TrimmedItemsFixed(xs[1..]);
      assert xs == [xs[0]] + xs[1..];
    }
  }

  lemma {:induction false} ItemsSurvive(xs: seq<string>)
    requires CsvItems(xs)
    ensures SplitCsv(JoinCsv(xs)) == xs
  {
    if xs == [] {
      assert Split("", ',') == [""] && [""][1..] == [];
      assert TrimSpace("") == "";
      assert TrimmedItems([""]) == [] + TrimmedItems([]) == [];
    } else {
      NoCommas(xs);
      SplitJoin(xs, ',');
      TrimmedItemsFixed(xs);
    }
  }

  lemma {:induction false} NoCommas(xs: seq<string>)
    requires CsvItems(xs)
    ensures forall i :: 0 <= i < |xs| ==> ',' !in xs[i]
  {
    forall i | 0 <= i < |xs|
      ensures ',' !in xs[i]
    {
      assert CsvItem(xs[i]);
    }
  }

  lemma {:induction false} SplitItemsOk(s: string)
    ensures CsvItems(SplitCsv(s))
  {
    TrimmedItemsOk(Split(s, ','));
  }

  /** A list survives the column exactly when its items are trimmed, non-empty, comma-free. */
  lemma {:induction false} CsvRoundTrip(xs: seq<string>)
    ensures SplitCsv(JoinCsv(xs)) == xs <==> CsvItems(xs)
  {
    SplitItemsOk(JoinCsv(xs));
    if CsvItems(xs) {
      ItemsSurvive(xs);
    }
  }

  /** For any column text, splitting is stable under writing back. */
  lemma {:induction false} CsvStable(s: string)
    ensures SplitCsv(JoinCsv(SplitCsv(s))) == SplitCsv(s)
  {
    TrimmedItemsOk(Split(s, ','));
    CsvRoundTrip(SplitCsv(s));
  }

  // ---- The table -------------------------------------------------------------

  datatype Row = Row(id: nat, name: string, path: string, protocol: string, readOnly: int,
                     allowedIps: string, validUsers: string, enabled: int, config: string)

  function ProtocolName(p: Protocol): string {
    if p.NFS? then "nfs" else "smb"
  }

  function BoolToInt(b: bool): int {
    if b then 1 else 0
  }

  function ToRow(id: nat, s: Share): Row {
    Row(id, s.name, s.path, ProtocolName(s.protocol), BoolToInt(s.readOnly),
        JoinCsv(s.allowedIPs), JoinCsv(s.validUsers), BoolToInt(s.enabled), s.config)
  }

  function FromRow(r: Row): Share {
    Share(r.name, r.path, if r.protocol == "nfs" then NFS else SMB, r.readOnly != 0,
          SplitCsv(r.allowedIps), SplitCsv(r.validUsers), r.enabled != 0, r.config)
  }

  /** A stored share reads back unchanged exactly when its lists survive their columns. */
  lemma {:induction false} StoredShareReadsBack(id: nat, s: Share)
    ensures FromRow(ToRow(id, s)) == s <==> CsvItems(s.allowedIPs) && CsvItems(s.validUsers)
  {
    CsvRoundTrip(s.allowedIPs);
    CsvRoundTrip(s.validUsers);
    ScalarsBack(id, s);
    ListsBack(ToRow(id, s));
  }

  lemma {:induction false} ScalarsBack(id: nat, s: Share)
    ensures var t := FromRow(ToRow(id, s));
            t.name == s.name && t.path == s.path && t.config == s.config && t.protocol == s.protocol
            && t.readOnly == s.readOnly && t.enabled == s.enabled
  {
    ProtocolBack(s.protocol);
  }

  lemma {:induction false} ListsBack(r: Row)
    ensures FromRow(r).allowedIPs == SplitCsv(r.allowedIps) && FromRow(r).validUsers == SplitCsv(r.validUsers)
  {
  }

  lemma {:induction false} ProtocolBack(p: Protocol)
    ensures ProtocolName(p) == "nfs" <==> p.NFS?
  {
    assert "nfs"[0] != "smb"[0];
  }

  function RowName(r: Row): string {
    r.name
  }

  function FromRows(rs: seq<Row>): seq<Share> {
    seq(|rs|, i requires 0 <= i < |rs| => FromRow(rs[i]))
  }

  /** SELECT ... ORDER BY name. */
  function LoadAll(table: seq<Row>): seq<Share> {
    FromRows(SortBy(table, RowName))
  }

  /** UNIQUE(name, protocol). */
  predicate UniqueKeys(rs: seq<Row>) {
    forall i, j :: 0 <= i < j < |rs| ==> !(rs[i].name == rs[j].name && rs[i].protocol == rs[j].protocol)
  }

  predicate UniqueIds(rs: seq<Row>) {
    forall i, j :: 0 <= i < j < |rs| ==> rs[i].id != rs[j].id
  }

  /** What validateShare checks. */
  predicate ValidShare(s: Share) {
    ValidShareName(s.name) && HasPrefix(s.path, "/") && !ContainsAny(s.path, "\n\r\"\0")
  }

  lemma {:induction false} PathCharsIff(path: string)
    ensures ContainsAny(path, "\n\r\"\0") <==> exists i :: 0 <= i < |path| && path[i] in ['\n', '\r', '"', '\0']
  {
    assert "\n\r\"\0" == ['\n', '\r', '"', '\0'];
  }

  /** Names of at most 80 of the admitted characters, and absolute paths on one line, without quotes. */
  lemma {:induction false} ValidShareIff(s: Share)
    ensures ValidShare(s) <==>
              && 1 <= |s.name| <= 80
              && (forall i :: 0 <= i < |s.name| ==>
                    || 'A' <= s.name[i] <= 'Z' || 'a' <= s.name[i] <= 'z' || '0' <= s.name[i] <= '9'
                    || s.name[i] in [' ', '_', '.', '-'])
              && s.path != "" && s.path[0] == '/'
              && forall i :: 0 <= i < |s.path| ==> s.path[i] !in ['\n', '\r', '"', '\0']
  {
    PathCharsIff(s.path);
  }

  predicate RowsValid(rs: seq<Row>) {
    forall r :: r in rs ==> ValidShareName(r.name) && '\n' !in r.path && (r.protocol == "nfs" || r.protocol == "smb")
  }

  predicate TableOk(rs: seq<Row>, nextId: nat) {
    UniqueKeys(rs) && UniqueIds(rs) && RowsValid(rs) && forall r :: r in rs ==> r.id < nextId
  }

  lemma {:induction false} ValidShareRow(id: nat, s: Share)
    requires ValidShare(s)
    ensures RowsValid([ToRow(id, s)])
  {
    assert "\n\r\"\0"[0] == '\n';
    assert forall i :: 0 <= i < |s.path| ==> s.path[i] !in "\n\r\"\0";
  }

  // ---- No section name twice -------------------------------------------------

  lemma {:induction false} SmbNames(ss: seq<Share>)
    ensures forall n :: n in SectionNames(ss) <==> exists s :: s in ss && Served(s) && n == "[" + s.name + "]"
  {
    if ss != [] {
      SmbNames(ss[1..]);
      assert forall s :: s in ss <==> s == ss[0] || s in ss[1..];
    }
  }

  predicate SmbNamesUnique(ss: seq<Share>) {
    forall i, j :: 0 <= i < j < |ss| && ss[i].protocol.SMB? && ss[j].protocol.SMB? ==> ss[i].name != ss[j].name
  }

  lemma {:induction false} DistinctSections(ss: seq<Share>)
    requires SmbNamesUnique(ss)
    ensures Distinct(SectionNames(ss))
  {
    if ss != [] {
      DistinctSections(ss[1..]);
      SmbNames(ss[1..]);
      if Served(ss[0]) {
        var head := "[" + ss[0].name + "]";
        forall s | s in ss[1..] && Served(s)
          ensures head != "[" + s.name + "]"
        {
          var j :| 0 <= j < |ss[1..]| && ss[1..][j] == s;
          assert ss[j + 1] == s;
          SameBracket(ss[0].name, s.name);
        }
        assert head !in SectionNames(ss[1..]);
        assert SectionNames(ss) == [head] + SectionNames(ss[1..]);
      } else {
        assert SectionNames(ss) == [] + SectionNames(ss[1..]) == SectionNames(ss[1..]);
      }
    }
  }

  lemma {:induction false} SameBracket(a: string, b: string)
    ensures "[" + a + "]" == "[" + b + "]" <==> a == b
  {
    var x, y := "[" + a + "]", "[" + b + "]";
    assert a == x[1..|x| - 1] && b == y[1..|y| - 1];
  }

  predicate SmbRowsUnique(rs: seq<Row>) {
    forall i, j :: 0 <= i < j < |rs| && rs[i].protocol == "smb" && rs[j].protocol == "smb" ==> rs[i].name != rs[j].name
  }

  lemma {:induction false} SortedKeysUnique(table: seq<Row>, rs: seq<Row>)
    requires UniqueKeys(table) && Distinct(rs) && forall r :: r in rs ==> r in table
    ensures SmbRowsUnique(rs)
  {
    forall i, j | 0 <= i < j < |rs| && rs[i].protocol == "smb" && rs[j].protocol == "smb"
      ensures rs[i].name != rs[j].name
    {
      assert rs[i] in table && rs[j] in table;
      var k :| 0 <= k < |table| && table[k] == rs[i];
      var m :| 0 <= m < |table| && table[m] == rs[j];
      assert k != m;
    }
  }

  lemma {:induction false} KeyBack(r: Row)
    requires RowsValid([r])
    ensures FromRow(r).name == r.name && (FromRow(r).protocol.SMB? <==> r.protocol == "smb")
  {
    assert r == [r][0];
  }

  lemma {:induction false} RowsNamesUnique(rs: seq<Row>)
    requires SmbRowsUnique(rs) && RowsValid(rs)
    ensures SmbNamesUnique(FromRows(rs))
  {
    forall i, j | 0 <= i < j < |rs| && FromRow(rs[i]).protocol.SMB? && FromRow(rs[j]).protocol.SMB?
      ensures FromRow(rs[i]).name != FromRow(rs[j]).name
    {
      SubsetValid(rs, [rs[i]]);
      SubsetValid(rs, [rs[j]]);
      KeyBack(rs[i]);
      KeyBack(rs[j]);
    }
  }

  lemma {:induction false} RowsValidated(rs: seq<Row>)
    requires RowsValid(rs)
    ensures AllValidated(FromRows(rs))
  {
  }

  lemma {:induction false} SubsetValid(table: seq<Row>, rs: seq<Row>)
    requires RowsValid(table) && forall r :: r in rs ==> r in table
    ensures RowsValid(rs)
  {
  }

  lemma {:induction false} LoadedNamesUnique(table: seq<Row>, nextId: nat)
    requires TableOk(table, nextId)
    ensures SmbNamesUnique(LoadAll(table)) && AllValidated(LoadAll(table))
  {
    var rs := SortBy(table, RowName);
    DistinctRows(table);
    SortedDistinct(table, RowName);
    SortedMembers(table, RowName);
    SubsetValid(table, rs);
    SortedKeysUnique(table, rs);
    RowsNamesUnique(rs);
    RowsValidated(rs);
  }

  /** A share that one of the rows reads back to. */
  predicate FromSomeRow(s: Share, rs: seq<Row>) {
    exists i :: 0 <= i < |rs| && FromRow(rs[i]) == s
  }

  lemma {:induction false} SameRowsSame(s: Share, rs: seq<Row>, table: seq<Row>)
    requires forall r :: r in rs ==> r in table
    ensures FromSomeRow(s, rs) ==> FromSomeRow(s, table)
  {
    if FromSomeRow(s, rs) {
      var i :| 0 <= i < |rs| && FromRow(rs[i]) == s;
      assert rs[i] in table;
      var j :| 0 <= j < |table| && table[j] == rs[i];
    }
  }

  lemma {:induction false} FromRowsMembers(s: Share, rs: seq<Row>)
    ensures s in FromRows(rs) <==> FromSomeRow(s, rs)
  {
    assert forall i :: 0 <= i < |rs| ==> FromRows(rs)[i] == FromRow(rs[i]);
  }

  /** A share is loaded exactly if a row of the table reads back to it. */
  lemma {:induction false} LoadedExactly(table: seq<Row>, s: Share)
    ensures |LoadAll(table)| == |table| && (s in LoadAll(table) <==> FromSomeRow(s, table))
  {
    var rs := SortBy(table, RowName);
    SortedPermutation(table, RowName);
    assert |rs| == |multiset(rs)|;
    SortedMembers(table, RowName);
    FromRowsMembers(s, rs);
    SameRowsSame(s, rs, table);
    SameRowsSame(s, table, rs);
  }

  /** They come ordered by name. */
  lemma {:induction false} LoadedInOrder(table: seq<Row>, i: nat, j: nat)
    requires i < j < |LoadAll(table)|
    ensures StrLe(LoadAll(table)[i].name, LoadAll(table)[j].name)
  {
    SortedPermutation(table, RowName);
    var rs := SortBy(table, RowName);
    assert StrLe(RowName(rs[i]), RowName(rs[j]));
  }

  /** A stored share whose lists survive is loaded as it was given. */
  lemma {:induction false} StoredIsLoaded(table: seq<Row>, id: nat, s: Share)
    requires ToRow(id, s) in table && CsvItems(s.allowedIPs) && CsvItems(s.validUsers)
    ensures s in LoadAll(table)
  {
    StoredShareReadsBack(id, s);
    LoadedExactly(table, s);
    var i :| 0 <= i < |table| && table[i] == ToRow(id, s);
  }

  lemma {:induction false} DistinctRows(table: seq<Row>)
    requires UniqueIds(table)
    ensures Distinct(table)
  {
  }

  /** The include rendered from a table has each header once, users' texts permitting. */
  lemma {:induction false} SectionsOnce(table: seq<Row>, nextId: nat, decode: Decoder)
    requires TableOk(table, nextId) && UsersClean(LoadAll(table))
    ensures Distinct(Headers(Split(RenderSmb(LoadAll(table), decode), '\n')))
  {
    LoadedNamesUnique(table, nextId);
    RenderedSectionsIff(LoadAll(table), decode);
    DistinctSections(LoadAll(table));
  }

  // ---- Sections as Samba tells them apart ------------------------------------

  predicate ServedRow(r: Row) {
    r.protocol == "smb" && r.enabled != 0
  }

  predicate RowsClean(rs: seq<Row>) {
    forall r :: r in rs && ServedRow(r) ==> CleanUsers(SplitCsv(r.validUsers))
  }

  predicate SameSectionRows(a: Row, b: Row) {
    ServedRow(a) && ServedRow(b) && Fold(a.name) == Fold(b.name)
  }

  /** What UNIQUE(name, protocol) does not give: names that differ in more than case and blanks. */
  predicate RowsApart(rs: seq<Row>) {
    forall i, j :: 0 <= i < j < |rs| ==> !SameSectionRows(rs[i], rs[j])
  }

  lemma {:induction false} ApartByMembers(rs: seq<Row>)
    requires Distinct(rs)
    ensures RowsApart(rs) <==> forall a, b :: a in rs && b in rs && a != b ==> !SameSectionRows(a, b)
  {
    if RowsApart(rs) {
      forall a, b | a in rs && b in rs && a != b
        ensures !SameSectionRows(a, b)
      {
        var i :| 0 <= i < |rs| && rs[i] == a;
        var j :| 0 <= j < |rs| && rs[j] == b;
        assert SameSectionRows(a, b) <==> SameSectionRows(b, a);
      }
    }
  }

  lemma {:induction false} ServedBack(r: Row)
    requires r.protocol == "nfs" || r.protocol == "smb"
    ensures Served(FromRow(r)) <==> ServedRow(r)
  {
  }

  lemma {:induction false} SameBack(a: Row, b: Row)
    requires (a.protocol == "nfs" || a.protocol == "smb") && (b.protocol == "nfs" || b.protocol == "smb")
    ensures SameSection(FromRow(a), FromRow(b)) <==> SameSectionRows(a, b)
  {
    ServedBack(a);
    ServedBack(b);
  }

  lemma {:induction false} ApartRowsToShares(rs: seq<Row>)
    requires RowsValid(rs)
    ensures NamesApart(FromRows(rs)) <==> RowsApart(rs)
  {
    var ss := FromRows(rs);
    forall i, j | 0 <= i < j < |rs|
      ensures SameSection(ss[i], ss[j]) <==> SameSectionRows(rs[i], rs[j])
    {
      assert rs[i] in rs && rs[j] in rs;
      SameBack(rs[i], rs[j]);
    }
  }

  lemma {:induction false} CleanRowsToShares(rs: seq<Row>)
    requires RowsValid(rs)
    ensures UsersClean(FromRows(rs)) <==> RowsClean(rs)
  {
    var ss := FromRows(rs);
    forall i | 0 <= i < |rs|
      ensures Served(ss[i]) <==> ServedRow(rs[i])
      ensures ss[i].validUsers == SplitCsv(rs[i].validUsers) && ss[i] in ss && rs[i] in rs
    {
      assert rs[i] in rs;
      ServedBack(rs[i]);
      assert ss[i] in ss;
    }
  }

  predicate RowsRegular(rs: seq<Row>) {
    forall r :: r in rs && ServedRow(r) ==> !SpecialName(r.name)
  }

  lemma {:induction false} RegularRowsToShares(rs: seq<Row>)
    requires RowsValid(rs)
    ensures NamesRegular(FromRows(rs)) <==> RowsRegular(rs)
  {
    var ss := FromRows(rs);
    forall i | 0 <= i < |rs|
      ensures Served(ss[i]) <==> ServedRow(rs[i])
      ensures ss[i].name == rs[i].name && ss[i] in ss && rs[i] in rs
    {
      assert rs[i] in rs;
      ServedBack(rs[i]);
      assert ss[i] in ss;
    }
  }

  /**
   * The include rendered from a table gives every served row one section of its own, and has
   * no other, iff its users are clean, its names differ in more than case and blanks, and
   * none is that of a special section.
   */
  lemma {:induction false} OwnSectionsOfTable(table: seq<Row>, nextId: nat, decode: Decoder)
    requires TableOk(table, nextId)
    ensures OwnSections(Headers(Split(RenderSmb(LoadAll(table), decode), '\n')), LoadAll(table))
            <==> RowsClean(table) && RowsApart(table) && RowsRegular(table)
  {
    var rs := SortBy(table, RowName);
    DistinctRows(table);
    SortedDistinct(table, RowName);
    SortedMembers(table, RowName);
    SubsetValid(table, rs);
    RowsValidated(rs);
    ApartRowsToShares(rs);
    CleanRowsToShares(rs);
    RegularRowsToShares(rs);
    ApartByMembers(rs);
    ApartByMembers(table);
    OwnSectionsIff(FromRows(rs), decode);
  }

  /** UNIQUE lets two shares into one section: "Media" and "media". */
  lemma {:induction false} CaseCollision(a: Row, b: Row)
    requires a == Row(1, "Media", "/a", "smb", 0, "", "", 1, "") && b == Row(2, "media", "/b", "smb", 0, "", "", 1, "")
    ensures TableOk([a, b], 3) && !RowsApart([a, b])
  {
    assert a.name[0] != b.name[0];
    FoldAppend("M", "edia");
    FoldAppend("m", "edia");
    assert "M" + "edia" == "Media" && "m" + "edia" == "media";
    assert "M"[1..] == "" && "m"[1..] == "" && Lower('M') == 'm' == Lower('m');
    assert SameSectionRows([a, b][0], [a, b][1]);
  }
}
