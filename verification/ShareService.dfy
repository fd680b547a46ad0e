/**
 * Serving share requests: the table is the source of truth, and after each change both
 * files are regenerated from it. Requests come one at a time; every command and every
 * database or file operation may fail; `trail` records each state of the files.
 */
module ShareService {
  import opened GoStrings
  import opened Options
  import opened NfsExports
  import opened ExportsReader
  import opened ExportsMeaning
  import opened Shares
  import SambaReader
  import SambaShares
  import opened ShareTable

  datatype Files = Files(exports: string, samba: string, exportsTmp: string, sambaTmp: string)

  datatype Outcome = Done | Rejected | ConfirmationRequired | Conflict | NotFound | DbError | ApplyFailed

  datatype Request =
    | Create(share: Share)
    | Update(id: nat, share: Share, confirm: bool)
    | Delete(id: nat, confirm: bool)

  // ---- Building the texts ----------------------------------------------------

  predicate PathAllowed(path: string) {
    !ContainsAny(path, "\n\"")
  }

  /** What ApplyNFS has checked when it succeeds. */
  predicate NfsAccepted(all: seq<Share>, decode: Decoder) {
    all == [] || (NfsAccepted(all[..|all| - 1], decode)
                  && (Exported(all[|all| - 1]) ==> ShareAccepted(all[|all| - 1], decode)))
  }

  lemma {:induction false} EachAccepted(all: seq<Share>, decode: Decoder)
    requires NfsAccepted(all, decode)
    ensures forall s :: s in all && Exported(s) ==> ShareAccepted(s, decode)
  {
    if all != [] {
      EachAccepted(all[..|all| - 1], decode);
    }
  }

  lemma {:induction false} RefusedOne(all: seq<Share>, i: nat, decode: Decoder)
    requires i < |all|
    ensures Exported(all[i]) && !ShareAccepted(all[i], decode) ==> !NfsAccepted(all, decode)
  {
    if NfsAccepted(all, decode) {
      EachAccepted(all, decode);
      assert all[i] in all;
    }
  }

  predicate ShareAccepted(s: Share, decode: Decoder) {
    PathAllowed(s.path) && AllAllowed(Entries(s, decode))
  }

  predicate AnyExported(all: seq<Share>) {
    exists s :: s in all && Exported(s)
  }

  predicate AnyServed(all: seq<Share>) {
    exists s :: s in all && Served(s)
  }

  lemma {:induction false} PrintEntriesSnoc(es: seq<Entry>, e: Entry)
    ensures PrintEntries(es + [e]) == PrintEntries(es) + " " + PrintEntry(e)
  {
    if es == [] {
      assert es + [e] == [e] && [e][1..] == [];
    } else {
      assert (es + [e])[1..] == es[1..] + [e];
      PrintEntriesSnoc(es[1..], e);
    }
  }

  lemma {:induction false} ExportLinesSnoc(all: seq<Share>, s: Share, decode: Decoder)
    ensures ExportLines(all + [s], decode) ==
      ExportLines(all, decode) + LineOf(s, decode)
  {
    if all == [] {
      assert all + [s] == [s] && [s][1..] == [];
    } else {
      assert (all + [s])[1..] == all[1..] + [s];
      ExportLinesSnoc(all[1..], s, decode);
      Associate(LineOf(all[0], decode), ExportLines(all[1..], decode), LineOf(s, decode));
    }
  }

  function LineOf(s: Share, decode: Decoder): seq<string> {
    if Exported(s) then [ExportLine(s, decode)] else []
  }

  lemma {:induction false} SmbLinesSnoc(all: seq<Share>, s: Share, decode: Decoder)
    ensures SmbLines(all + [s], decode) == SmbLines(all, decode) + Section(s, decode)
  {
    if all == [] {
      assert all + [s] == [s] && [s][1..] == [];
      UnitSection(s, decode);
    } else {
      assert (all + [s])[1..] == all[1..] + [s];
      SmbLinesSnoc(all[1..], s, decode);
      HeadSection(all, decode);
      HeadSection(all + [s], decode);
      Associate(Section(all[0], decode), SmbLines(all[1..], decode), Section(s, decode));
    }
  }

  function Section(s: Share, decode: Decoder): seq<string> {
    if Served(s) then SectionLines(s, decode) else []
  }

  lemma {:induction false} HeadSection(all: seq<Share>, decode: Decoder)
    requires all != []
    ensures SmbLines(all, decode) == Section(all[0], decode) + SmbLines(all[1..], decode)
  {
  }

  lemma {:induction false} UnitSection(s: Share, decode: Decoder)
    ensures SmbLines([s], decode) == Section(s, decode)
  {
    assert [s][1..] == [];
    HeadSection([s], decode);
    assert Section(s, decode) + [] == Section(s, decode);
  }

  /** Writing more lines at the end of a text that ends with a newline. */
  lemma {:induction false} TextSnoc(xs: seq<string>, ls: seq<string>)
    requires xs != []
    ensures Join(xs + ls + [""], '\n') == if ls == [] then Join(xs + [""], '\n') else Join(xs + [""], '\n') + Join(ls, '\n') + "\n"
  {
    JoinAppend(xs, [""], '\n');
    if ls == [] {
      assert xs + ls == xs;
    } else {
      assert xs + ls + [""] == xs + (ls + [""]);
      JoinAppend(xs, ls + [""], '\n');
      JoinAppend(ls, [""], '\n');
    }
  }

  lemma {:induction false} ExportsStep(all: seq<Share>, i: nat, decode: Decoder)
    requires i < |all|
    ensures RenderNfs(all[..i + 1], decode) ==
      if Exported(all[i]) then RenderNfs(all[..i], decode) + ExportLine(all[i], decode) + "\n" else RenderNfs(all[..i], decode)
  {
    assert all[..i + 1] == all[..i] + [all[i]];
    ExportLinesSnoc(all[..i], all[i], decode);
    if Exported(all[i]) {
      ExportsGrow(ExportLines(all[..i], decode), ExportLine(all[i], decode));
    } else {
      assert ExportLines(all[..i], decode) + [] == ExportLines(all[..i], decode);
    }
  }

  lemma {:induction false} ExportsGrow(xs: seq<string>, l: string)
    ensures Join([NFS_HEADER] + (xs + [l]) + [""], '\n') == Join([NFS_HEADER] + xs + [""], '\n') + l + "\n"
  {
    TextSnoc([NFS_HEADER] + xs, [l]);
    assert [NFS_HEADER] + (xs + [l]) == [NFS_HEADER] + xs + [l];
    assert Join([l], '\n') == l;
  }

  lemma {:induction false} IncludeStep(all: seq<Share>, i: nat, decode: Decoder)
    requires i < |all|
    ensures RenderSmb(all[..i + 1], decode) ==
      if Served(all[i]) then RenderSmb(all[..i], decode) + Join(SectionLines(all[i], decode), '\n') + "\n" else RenderSmb(all[..i], decode)
  {
    assert all[..i + 1] == all[..i] + [all[i]];
    SmbLinesSnoc(all[..i], all[i], decode);
    var xs, ls := SmbLines(all[..i], decode), Section(all[i], decode);
    TextSnoc([SMB_HEADER] + xs, ls);
    Associate([SMB_HEADER], xs, ls);
    SectionNotEmpty(all[i], decode);
  }

  lemma {:induction false} SectionNotEmpty(s: Share, decode: Decoder)
    ensures SectionLines(s, decode) != []
  {
  }

  lemma {:induction false} NoShares(decode: Decoder)
    ensures RenderNfs([], decode) == NFS_HEADER + "\n" && RenderSmb([], decode) == SMB_HEADER + "\n"
  {
    OneLineText(NFS_HEADER);
    OneLineText(SMB_HEADER);
  }

  lemma {:induction false} OneLineText(h: string)
    ensures Join([h] + [] + [""], '\n') == h + "\n"
  {
    JoinAppend([h], [""], '\n');
    assert [h] + [] + [""] == [h] + [""];
  }

  lemma {:induction false} PrintEntriesStep(es: seq<Entry>, i: nat)
    requires i < |es|
    ensures PrintEntries(es[..i + 1]) == PrintEntries(es[..i]) + " " + PrintEntry(es[i])
  {
    assert es[..i + 1] == es[..i] + [es[i]];
    PrintEntriesSnoc(es[..i], es[i]);
  }

  predicate AllAllowed(es: seq<Entry>) {
    forall i :: 0 <= i < |es| ==> ClientAllowed(es[i].client)
  }

  /** " client(options)" for each rule or host, refusing characters that break the format. */
  method BuildClients(es: seq<Entry>) returns (ok: bool, text: string)
    ensures ok <==> AllAllowed(es)
    ensures ok ==> text == PrintEntries(es)
  {
    text := "";
    var i := 0;
    while i < |es|
      invariant 0 <= i <= |es|
      invariant text == PrintEntries(es[..i])
      invariant forall j :: 0 <= j < i ==> ClientAllowed(es[j].client)
    {
      if !ClientAllowed(es[i].client) {
        return false, text;
      }
      PrintEntriesStep(es, i);
      text := text + " " + PrintEntry(es[i]);
      i := i + 1;
    }
    assert es[..|es|] == es;
    ok := true;
  }

  /** One share: the path check, mkdir -p (which may fail), and the line. */
  method BuildLine(s: Share, decode: Decoder) returns (ok: bool, line: string, ghost made: bool)
    ensures ok ==> ShareAccepted(s, decode) && line == ExportLine(s, decode)
    ensures made && ShareAccepted(s, decode) ==> ok
  {
    line := Quote(s.path);
    var mkdir := *;
    made := mkdir;
    if ContainsAny(s.path, "\n\"") || !mkdir {
      return false, line, made;
    }
    var clients;
    ok, clients := BuildClients(Entries(s, decode));
    line := line + clients;
  }

  lemma {:induction false} PathAllowedIff(path: string)
    ensures PathAllowed(path) <==> '\n' !in path && '"' !in path
  {
    var bad := "\n\"";
    assert |bad| == 2 && bad[0] == '\n' && bad[1] == '"';
    if '\n' !in path && '"' !in path {
      assert forall i :: 0 <= i < |path| ==> path[i] in path && path[i] !in bad;
    }
    if PathAllowed(path) {
      assert forall i :: 0 <= i < |path| ==> path[i] !in bad;
    }
  }

  /** A share is refused exactly for a character that would break the line. */
  lemma {:induction false} AcceptedAllowed(s: Share, decode: Decoder)
    ensures ShareAccepted(s, decode) <==> ShareAllowed(s, decode)
  {
    PathAllowedIff(s.path);
    var es := Entries(s, decode);
    assert forall i :: 0 <= i < |es| ==> es[i] in es;
  }

  /** What ApplyNFS accepts grants what the shares say exactly when paths and clients are readable. */
  lemma {:induction false} AppliedReadsBack(all: seq<Share>, decode: Decoder, strict: bool)
    requires NfsAccepted(all, decode) && forall s :: s in all && Exported(s) ==> PathKnown(s.path)
    ensures GrantedAsSaid(RenderNfs(all, decode), all, decode, strict) <==> AllReadable(all, decode, strict)
  {
    EachAccepted(all, decode);
    forall s | s in all && Exported(s)
      ensures ShareAllowed(s, decode)
    {
      AcceptedAllowed(s, decode);
    }
    GrantedIff(all, decode, strict);
  }

  /** The text grants what the shares say exactly when they are readable, however '#' is read. */
  ghost predicate ExportsRead(text: string, all: seq<Share>, decode: Decoder) {
    (forall s :: s in all && Exported(s) ==> PathKnown(s.path)) ==>
      forall strict: bool :: GrantedAsSaid(text, all, decode, strict) <==> AllReadable(all, decode, strict)
  }

  lemma {:induction false} ReadBack(all: seq<Share>, decode: Decoder)
    ensures NfsAccepted(all, decode) ==> ExportsRead(RenderNfs(all, decode), all, decode)
  {
    if NfsAccepted(all, decode) && forall s :: s in all && Exported(s) ==> PathKnown(s.path) {
      forall strict: bool {
        AppliedReadsBack(all, decode, strict);
      }
    }
  }

  /** The builder's state after the first i shares. */
  predicate ExportsUpto(all: seq<Share>, i: nat, decode: Decoder, text: string, enabled: nat) {
    && i <= |all|
    && text == RenderNfs(all[..i], decode)
    && NfsAccepted(all[..i], decode)
    && (enabled > 0 <==> AnyExported(all[..i]))
  }

  lemma {:induction false} AnyExportedStep(all: seq<Share>, i: nat)
    requires i < |all|
    ensures AnyExported(all[..i + 1]) <==> AnyExported(all[..i]) || Exported(all[i])
  {
    assert all[..i + 1] == all[..i] + [all[i]];
    assert all[i] in all[..i + 1];
  }

  lemma {:induction false} AcceptedSnoc(front: seq<Share>, s: Share, decode: Decoder)
    requires NfsAccepted(front, decode) && (Exported(s) ==> ShareAccepted(s, decode))
    ensures NfsAccepted(front + [s], decode)
  {
    assert (front + [s])[..|front|] == front;
  }

  lemma {:induction false} AcceptedStep(all: seq<Share>, i: nat, decode: Decoder)
    requires i < |all| && NfsAccepted(all[..i], decode) && (Exported(all[i]) ==> ShareAccepted(all[i], decode))
    ensures NfsAccepted(all[..i + 1], decode)
  {
    AcceptedSnoc(all[..i], all[i], decode);
    assert all[..i + 1] == all[..i] + [all[i]];
  }

  lemma {:induction false} ExportsSkip(all: seq<Share>, i: nat, decode: Decoder, text: string, enabled: nat)
    requires i < |all| && ExportsUpto(all, i, decode, text, enabled) && !Exported(all[i])
    ensures ExportsUpto(all, i + 1, decode, text, enabled)
  {
    ExportsStep(all, i, decode);
    AcceptedStep(all, i, decode);
    AnyExportedStep(all, i);
  }

  lemma {:induction false} ExportsTake(all: seq<Share>, i: nat, decode: Decoder, text: string, enabled: nat)
    requires i < |all| && ExportsUpto(all, i, decode, text, enabled)
    requires Exported(all[i]) && ShareAccepted(all[i], decode)
    ensures ExportsUpto(all, i + 1, decode, text + ExportLine(all[i], decode) + "\n", enabled + 1)
  {
    ExportsStep(all, i, decode);
    AcceptedStep(all, i, decode);
    AnyExportedStep(all, i);
  }

  lemma {:induction false} ExportsStart(all: seq<Share>, decode: Decoder)
    ensures ExportsUpto(all, 0, decode, NFS_HEADER + "\n", 0)
  {
    NoShares(decode);
    assert all[..0] == [];
  }

  lemma {:induction false} ExportsEnd(all: seq<Share>, decode: Decoder, text: string, enabled: nat)
    requires ExportsUpto(all, |all|, decode, text, enabled)
    ensures text == RenderNfs(all, decode) && NfsAccepted(all, decode) && (enabled > 0 <==> AnyExported(all))
  {
    assert all[..|all|] == all;
  }

  /** One turn of the loop over the shares. */
  method AddLine(all: seq<Share>, i: nat, decode: Decoder, text: string, enabled: nat)
    returns (ok: bool, text': string, enabled': nat, ghost made: bool)
    requires i < |all| && ExportsUpto(all, i, decode, text, enabled)
    ensures ok ==> ExportsUpto(all, i + 1, decode, text', enabled')
    ensures made && !ok ==> Exported(all[i]) && !ShareAccepted(all[i], decode)
  {
    ok, text', enabled', made := true, text, enabled, true;
    if !Exported(all[i]) {
      ExportsSkip(all, i, decode, text, enabled);
      return;
    }
    var line;
    ok, line, made := BuildLine(all[i], decode);
    if ok {
      ExportsTake(all, i, decode, text, enabled);
      enabled' := enabled + 1;
      text' := text + line + "\n";
    }
  }

  /** The whole text; `made` says that no mkdir failed. */
  method BuildExports(all: seq<Share>, decode: Decoder) returns (ok: bool, text: string, enabled: nat, ghost made: bool)
    ensures ok ==> text == RenderNfs(all, decode) && NfsAccepted(all, decode)
    ensures ok ==> (enabled > 0 <==> AnyExported(all))
    ensures made && NfsAccepted(all, decode) ==> ok
  {
    text := NFS_HEADER + "\n";
    enabled := 0;
    ok, made := true, true;
    ExportsStart(all, decode);
    var i := 0;
    while i < |all|
      invariant 0 <= i <= |all|
      invariant ExportsUpto(all, i, decode, text, enabled)
    {
      ok, text, enabled, made := AddLine(all, i, decode, text, enabled);
      if !ok {
        RefusedOne(all, i, decode);
        return;
      }
      i := i + 1;
    }
    ExportsEnd(all, decode, text, enabled);
    ok := true;
  }

  predicate NamesValid(all: seq<Share>) {
    forall s :: s in all && Served(s) ==> ValidShareName(s.name)
  }

  predicate IncludeUpto(all: seq<Share>, i: nat, decode: Decoder, text: string, enabled: nat) {
    && i <= |all|
    && text == RenderSmb(all[..i], decode)
    && NamesValid(all[..i])
    && (enabled > 0 <==> AnyServed(all[..i]))
  }

  lemma {:induction false} AnyServedStep(all: seq<Share>, i: nat)
    requires i < |all|
    ensures AnyServed(all[..i + 1]) <==> AnyServed(all[..i]) || Served(all[i])
    ensures NamesValid(all[..i + 1]) <==> NamesValid(all[..i]) && (Served(all[i]) ==> ValidShareName(all[i].name))
  {
    assert all[..i + 1] == all[..i] + [all[i]];
    assert all[i] in all[..i + 1];
  }

  lemma {:induction false} IncludeSkip(all: seq<Share>, i: nat, decode: Decoder, text: string, enabled: nat)
    requires i < |all| && IncludeUpto(all, i, decode, text, enabled) && !Served(all[i])
    ensures IncludeUpto(all, i + 1, decode, text, enabled)
  {
    IncludeStep(all, i, decode);
    AnyServedStep(all, i);
  }

  predicate SectionBuilt(s: Share, decode: Decoder, section: string) {
    ValidShareName(s.name) && section == Join(SectionLines(s, decode), '\n')
  }

  /** One share: the name check, mkdir -p (which may fail), and the section. */
  method BuildSection(s: Share, decode: Decoder) returns (ok: bool, section: string, ghost made: bool)
    ensures ok ==> SectionBuilt(s, decode, section)
    ensures made && ValidShareName(s.name) ==> ok
  {
    var mkdir := *;
    made := mkdir;
    ok := ValidShareName(s.name) && mkdir;
    section := Join(SectionLines(s, decode), '\n');
  }

  lemma {:induction false} IncludeTake(all: seq<Share>, i: nat, decode: Decoder, text: string, enabled: nat,
        section: string)
    requires i < |all| && IncludeUpto(all, i, decode, text, enabled)
    requires Served(all[i]) && SectionBuilt(all[i], decode, section)
    ensures IncludeUpto(all, i + 1, decode, text + section + "\n", enabled + 1)
  {
    IncludeStep(all, i, decode);
    AnyServedStep(all, i);
  }

  /** One turn of the loop over the shares. */
  method AddSection(all: seq<Share>, i: nat, decode: Decoder, text: string, enabled: nat)
    returns (ok: bool, text': string, enabled': nat, ghost made: bool)
    requires i < |all| && IncludeUpto(all, i, decode, text, enabled)
    ensures ok ==> IncludeUpto(all, i + 1, decode, text', enabled')
    ensures made && !ok ==> Served(all[i]) && !ValidShareName(all[i].name)
  {
    ok, text', enabled', made := true, text, enabled, true;
    if !Served(all[i]) {
      IncludeSkip(all, i, decode, text, enabled);
      return;
    }
    var section;
    ok, section, made := BuildSection(all[i], decode);
    if ok {
      IncludeTake(all, i, decode, text, enabled, section);
      enabled' := enabled + 1;
      text' := text + section + "\n";
    }
  }

  method BuildInclude(all: seq<Share>, decode: Decoder) returns (ok: bool, text: string, enabled: nat, ghost made: bool)
    ensures ok ==> text == RenderSmb(all, decode) && NamesValid(all)
    ensures ok ==> (enabled > 0 <==> AnyServed(all))
    ensures made && NamesValid(all) ==> ok
  {
    text := SMB_HEADER + "\n";
    enabled := 0;
    ok, made := true, true;
    NoShares(decode);
    var i := 0;
    while i < |all|
      invariant 0 <= i <= |all|
      invariant IncludeUpto(all, i, decode, text, enabled)
    {
      ok, text, enabled, made := AddSection(all, i, decode, text, enabled);
      if !ok {
        assert all[i] in all;
        return;
      }
      i := i + 1;
    }
    assert all[..|all|] == all;
    ok := true;
  }

  /** The include serves what the shares say exactly when each can be served, settings being on one line. */
  ghost predicate IncludeRead(text: string, all: seq<Share>, decode: Decoder) {
    SambaShares.AllUnbroken(all) ==>
      (SambaReader.IncludeServes(SambaReader.ReadInclude(text), all, decode) <==> SambaShares.AllServable(all, decode))
  }

  lemma {:induction false} IncludeBack(all: seq<Share>, decode: Decoder)
    ensures IncludeRead(RenderSmb(all, decode), all, decode)
  {
    if SambaShares.AllUnbroken(all) {
      SambaShares.ServedIff(all, decode);
    }
  }

  /** One that is let through and not served as said: a user with a blank names two users. */
  lemma {:induction false} UnservableAdmitted(s: Share)
    requires s.name == "a" && s.path == "/a" && s.validUsers == ["b c"]
    ensures ValidShare(s) && SambaShares.Readable(s) && !SambaShares.ShareTight(s)
    ensures SambaReader.ReadList(SambaReader.Bared(Join(s.validUsers, ' '))) == ["b", "c"]
  {
    assert Join(s.validUsers, ' ') == "b c";
    TwoUsers();
    SmallShareValid(s);
    assert !SambaReader.ListWord(s.validUsers[0]);
  }

  lemma {:induction false} SmallShareValid(s: Share)
    requires s.name == "a" && s.path == "/a"
    ensures ValidShare(s)
  {
    ValidShareIff(s);
  }

  lemma {:induction false} TwoUsers()
    ensures !SambaReader.ListWord("b c") && SambaReader.ReadList(SambaReader.Bared("b c")) == ["b", "c"]
  {
    assert SambaReader.ListSep("b c"[1]);
    SambaReader.BaredIff("b c");
    assert SambaReader.ListWord("b") && SambaReader.ListWord("c");
    assert ["b", "c"][1..] == ["c"] && "b" + " " + "c" == "b c" && Join(["b", "c"], ' ') == "b c";
    SambaReader.ReadListJoin(["b", "c"]);
  }

  // ---- The states the files pass through -------------------------------------

  ghost predicate Between(f: Files, e0: string, e1: string, i0: string, i1: string) {
    (f.exports == e0 || f.exports == e1) && (f.samba == i0 || f.samba == i1)
  }

  /** The new states of the trail show each file either as before or completely rewritten. */
  ghost predicate Progress(before: seq<Files>, after: seq<Files>, e0: string, e1: string, i0: string, i1: string) {
    before <= after && forall k :: |before| <= k < |after| ==> Between(after[k], e0, e1, i0, i1)
  }

  ghost predicate ExportsKnown(text: string, start: Files, tables: seq<seq<Row>>, decode: Decoder) {
    text == start.exports || exists t :: t in tables && text == RenderNfs(LoadAll(t), decode)
  }

  ghost predicate IncludeKnown(text: string, start: Files, tables: seq<seq<Row>>, decode: Decoder) {
    text == start.samba || exists t :: t in tables && text == RenderSmb(LoadAll(t), decode)
  }

  /** The file contents at the start, or a complete rendering of a table the daemon had. */
  ghost predicate Complete(f: Files, start: Files, tables: seq<seq<Row>>, decode: Decoder) {
    ExportsKnown(f.exports, start, tables, decode) && IncludeKnown(f.samba, start, tables, decode)
  }

  ghost predicate AllComplete(trail: seq<Files>, start: Files, tables: seq<seq<Row>>, decode: Decoder) {
    forall f :: f in trail ==> Complete(f, start, tables, decode)
  }

  /** From complete states, the file in question was rewritten from the table, or not at all. */
  ghost predicate ExportsRewritten(before: seq<Files>, after: seq<Files>, f: Files, start: Files,
                         tables: seq<seq<Row>>, table: seq<Row>, decode: Decoder) {
    && AllComplete(before, start, tables, decode) && f in before && table in tables
    && Progress(before, after, f.exports, RenderNfs(LoadAll(table), decode), f.samba, f.samba)
  }

  lemma {:induction false} ExportsProgressComplete(before: seq<Files>, after: seq<Files>, f: Files, start: Files,
        tables: seq<seq<Row>>, table: seq<Row>, decode: Decoder)
    ensures ExportsRewritten(before, after, f, start, tables, table, decode) ==>
              AllComplete(after, start, tables, decode)
  {
    forall g | ExportsRewritten(before, after, f, start, tables, table, decode) && g in after
      ensures Complete(g, start, tables, decode)
    {
      var k :| 0 <= k < |after| && after[k] == g;
      if k < |before| {
        assert before[k] == g;
      } else {
        assert Between(g, f.exports, RenderNfs(LoadAll(table), decode), f.samba, f.samba);
      }
    }
  }

  /** From complete states, the file in question was rewritten from the table, or not at all. */
  ghost predicate IncludeRewritten(before: seq<Files>, after: seq<Files>, f: Files, start: Files,
                         tables: seq<seq<Row>>, table: seq<Row>, decode: Decoder) {
    && AllComplete(before, start, tables, decode) && f in before && table in tables
    && Progress(before, after, f.exports, f.exports, f.samba, RenderSmb(LoadAll(table), decode))
  }

  lemma {:induction false} SambaProgressComplete(before: seq<Files>, after: seq<Files>, f: Files, start: Files,
        tables: seq<seq<Row>>, table: seq<Row>, decode: Decoder)
    ensures IncludeRewritten(before, after, f, start, tables, table, decode) ==>
              AllComplete(after, start, tables, decode)
  {
    forall g | IncludeRewritten(before, after, f, start, tables, table, decode) && g in after
      ensures Complete(g, start, tables, decode)
    {
      var k :| 0 <= k < |after| && after[k] == g;
      if k < |before| {
        assert before[k] == g;
      } else {
        assert Between(g, f.exports, f.exports, f.samba, RenderSmb(LoadAll(table), decode));
      }
    }
  }

  lemma {:induction false} MoreTables(trail: seq<Files>, start: Files, tables: seq<seq<Row>>, table: seq<Row>,
        decode: Decoder)
    requires AllComplete(trail, start, tables, decode)
    ensures AllComplete(trail, start, tables + [table], decode)
  {
    forall f | f in trail
      ensures Complete(f, start, tables + [table], decode)
    {
      assert forall t :: t in tables ==> t in tables + [table];
    }
  }

  predicate SameKey(r: Row, share: Share) {
    r.name == share.name && r.protocol == ProtocolName(share.protocol)
  }

  predicate KeyTaken(rows: seq<Row>, share: Share) {
    exists r :: r in rows && SameKey(r, share)
  }

  /** One of the shares has the name and the protocol. */
  predicate NameTaken(all: seq<Share>, share: Share) {
    exists s :: s in all && s.name == share.name && s.protocol == share.protocol
  }

  lemma {:induction false} TakenIff(rows: seq<Row>, share: Share)
    requires RowsValid(rows)
    ensures KeyTaken(rows, share) <==> NameTaken(LoadAll(rows), share)
  {
    ProtocolBack(share.protocol);
    if KeyTaken(rows, share) {
      var r :| r in rows && SameKey(r, share);
      var i :| 0 <= i < |rows| && rows[i] == r;
      KeyBack(r);
      LoadedExactly(rows, FromRow(r));
    }
    if NameTaken(LoadAll(rows), share) {
      var s :| s in LoadAll(rows) && s.name == share.name && s.protocol == share.protocol;
      LoadedExactly(rows, s);
      var i :| 0 <= i < |rows| && FromRow(rows[i]) == s;
      KeyBack(rows[i]);
      assert SameKey(rows[i], share);
    }
  }

  /** What a create request comes to when no command, file or database operation fails. */
  function CreateOutcome(share: Share, table: seq<Row>, nextId: nat, decode: Decoder): Outcome {
    if !ValidShare(share) then Rejected
    else if NameTaken(LoadAll(table), share) then Conflict
    else Applied(table + [ToRow(nextId, share)], decode)
  }

  /** Both files can be written from the table exactly when ApplyNFS accepts its shares. */
  function Applied(table: seq<Row>, decode: Decoder): Outcome {
    if NfsAccepted(LoadAll(table), decode) then Done else ApplyFailed
  }

  predicate HasId(table: seq<Row>, id: nat) {
    exists r :: r in table && r.id == id
  }

  /** Another row has the name and the protocol. */
  predicate TakenByOther(table: seq<Row>, id: nat, share: Share) {
    exists r :: r in table && r.id != id && SameKey(r, share)
  }

  /** The same for an update, `after` being the table with the row replaced. */
  function UpdateOutcome(id: nat, share: Share, confirm: bool, table: seq<Row>, after: seq<Row>, decode: Decoder): Outcome {
    if !ValidShare(share) then Rejected
    else if !share.enabled && !confirm then ConfirmationRequired
    else if !HasId(table, id) then NotFound
    else if TakenByOther(table, id, share) then Conflict
    else Applied(after, decode)
  }

  function DeleteOutcome(id: nat, confirm: bool, table: seq<Row>, after: seq<Row>, decode: Decoder): Outcome {
    if !confirm then ConfirmationRequired else if !HasId(table, id) then NotFound else Applied(after, decode)
  }

  /** Whether another row has the key, looked for by position as ids are unique. */
  predicate KeyElsewhere(table: seq<Row>, k: nat, share: Share) {
    exists j :: 0 <= j < |table| && j != k && SameKey(table[j], share)
  }

  lemma {:induction false} ElsewhereIff(table: seq<Row>, k: nat, share: Share)
    requires k < |table| && UniqueIds(table)
    ensures KeyElsewhere(table, k, share) <==> TakenByOther(table, table[k].id, share)
  {
    if KeyElsewhere(table, k, share) {
      var j :| 0 <= j < |table| && j != k && SameKey(table[j], share);
      assert table[j] in table && table[j].id != table[k].id;
    }
    if TakenByOther(table, table[k].id, share) {
      var r :| r in table && r.id != table[k].id && SameKey(r, share);
      var j :| 0 <= j < |table| && table[j] == r;
      assert j != k;
    }
  }

  lemma {:induction false} AddedOk(table: seq<Row>, nextId: nat, share: Share)
    requires TableOk(table, nextId) && ValidShare(share) && !KeyTaken(table, share)
    ensures TableOk(table + [ToRow(nextId, share)], nextId + 1) && TableOk(table, nextId + 1)
  {
    var row := ToRow(nextId, share);
    ValidShareRow(nextId, share);
    assert row in [row];
    assert forall r :: r in table ==> !SameKey(r, share);
    assert forall i :: 0 <= i < |table| ==> table[i] in table;
  }

  lemma {:induction false} ReplacedOk(table: seq<Row>, nextId: nat, k: nat, share: Share)
    requires TableOk(table, nextId) && k < |table| && ValidShare(share) && !KeyElsewhere(table, k, share)
    ensures TableOk(table[k := ToRow(table[k].id, share)], nextId)
  {
    var row := ToRow(table[k].id, share);
    ValidShareRow(table[k].id, share);
    assert row in [row] && table[k] in table;
    assert forall j :: 0 <= j < |table| && j != k ==> !SameKey(table[j], share);
  }

  lemma {:induction false} LoadedNamesValid(table: seq<Row>, nextId: nat)
    requires TableOk(table, nextId)
    ensures NamesValid(LoadAll(table))
  {
    LoadedNamesUnique(table, nextId);
  }

  // ---- The daemon ------------------------------------------------------------

  /** One SQL statement: a row is added, replaced or deleted. */
  datatype Statement = Insert(row: Row) | Replace(k: nat, row: Row) | Erase(k: nat)

  predicate Executed(a: seq<Row>, b: seq<Row>, s: Statement) {
    match s
    case Insert(row) => b == a + [row]
    case Replace(k, row) => k < |a| && b == a[k := row]
    case Erase(k) => k < |a| && b == a[..k] + a[k + 1..]
  }

  ghost predicate OneRow(a: seq<Row>, b: seq<Row>) {
    exists s :: Executed(a, b, s)
  }

  /** The tables recorded later: each one statement away from the one before. */
  ghost predicate Grown(before: seq<seq<Row>>, after: seq<seq<Row>>) {
    before != [] && before <= after && forall k :: |before| <= k < |after| ==> OneRow(after[k - 1], after[k])
  }

  lemma {:induction false} GrownOne(before: seq<seq<Row>>, a: seq<Row>, b: seq<Row>)
    requires before != [] && before[|before| - 1] == a && OneRow(a, b)
    ensures Grown(before, before + [b])
  {
  }

  lemma {:induction false} GrownTwice(a: seq<seq<Row>>, b: seq<seq<Row>>, c: seq<seq<Row>>)
    requires Grown(a, b) && Grown(b, c)
    ensures Grown(a, c)
  {
    forall k | |a| <= k < |c|
      ensures OneRow(c[k - 1], c[k])
    {
      if k < |b| {
        assert OneRow(b[k - 1], b[k]);
      }
    }
  }

  predicate Committed(o: Outcome) {
    o == Done || o == ApplyFailed
  }

  /** How many of the requests changed the table. */
  function Commits(os: seq<Outcome>): nat {
    if os == [] then 0 else Commits(os[..|os| - 1]) + if Committed(os[|os| - 1]) then 1 else 0
  }

  lemma {:induction false} CommitsSnoc(os: seq<Outcome>, o: Outcome)
    ensures Commits(os + [o]) == Commits(os) + if Committed(o) then 1 else 0
  {
    assert (os + [o])[..|os|] == os;
  }

  class Daemon {
    const decode: Decoder
    ghost const start: Files
    var table: seq<Row>
    var nextId: nat
    var files: Files
    var nfsOn: bool
    var smbOn: bool
    ghost var trail: seq<Files>
    ghost var tables: seq<seq<Row>>
    /** How many commands, file and database operations have failed. */
    ghost var faults: nat

    ghost predicate Valid()
      reads this
    {
      && TableOk(table, nextId)
      && tables != [] && table == tables[|tables| - 1] && files in trail
      && AllComplete(trail, start, tables, decode)
    }

    /** Both files are the renderings of the current table. */
    ghost predicate InStep()
      reads this
    {
      files.exports == RenderNfs(LoadAll(table), decode) && files.samba == RenderSmb(LoadAll(table), decode)
    }

    constructor (decode: Decoder, files: Files)
      ensures Valid() && table == [] && this.files == files && this.decode == decode
    {
      this.decode, start, this.files := decode, files, files;
      table, nextId, nfsOn, smbOn := [], 0, false, false;
      trail, tables, faults := [files], [[]], 0;
    }

    /** Any command, file or database operation: it may fail. */
    method Try() returns (ok: bool)
      modifies this`faults
      ensures faults == old(faults) + if ok then 0 else 1
    {
      ok := *;
      if !ok {
        faults := faults + 1;
      }
    }

    method CountFault(ghost made: bool)
      modifies this`faults
      ensures faults == old(faults) + if made then 0 else 1
    {
      faults := faults + if made then 0 else 1;
    }

    method SetFiles(f: Files)
      modifies this`files, this`trail
      ensures files == f && trail == old(trail) + [f]
    {
      files, trail := f, trail + [f];
    }

    /** writeFileAtomic on the exports file: a temporary file, possibly partial, then a rename. */
    method WriteExports(content: string) returns (ok: bool)
      modifies this`files, this`trail, this`faults
      ensures Progress(old(trail), trail, old(files).exports, content, old(files).samba, old(files).samba)
      ensures faults >= old(faults) && (ok <==> faults == old(faults))
      ensures files in trail
      ensures files.exports == if ok then content else old(files).exports
      ensures files.samba == old(files).samba
    {
      var n: int := *;
      SetFiles(files.(exportsTmp := if 0 <= n < |content| then content[..n] else content));
      ok := Try();
      if !ok {
        return;
      }
      SetFiles(files.(exportsTmp := content));
      ok := Try();
      if ok {
        SetFiles(files.(exports := content, exportsTmp := ""));
      }
    }

    method WriteInclude(content: string) returns (ok: bool)
      modifies this`files, this`trail, this`faults
      ensures Progress(old(trail), trail, old(files).exports, old(files).exports, old(files).samba, content)
      ensures faults >= old(faults) && (ok <==> faults == old(faults))
      ensures files in trail
      ensures files.samba == if ok then content else old(files).samba
      ensures files.exports == old(files).exports
    {
      var n: int := *;
      SetFiles(files.(sambaTmp := if 0 <= n < |content| then content[..n] else content));
      ok := Try();
      if !ok {
        return;
      }
      SetFiles(files.(sambaTmp := content));
      ok := Try();
      if ok {
        SetFiles(files.(samba := content, sambaTmp := ""));
      }
    }

    /** The exports file is replaced whole or not at all; the server runs iff a share needs it. */
    method ApplyNFS(all: seq<Share>) returns (ok: bool, ghost disabled: bool)
      requires files in trail
      modifies this`files, this`trail, this`nfsOn, this`faults
      ensures Progress(old(trail), trail, old(files).exports, RenderNfs(all, decode), old(files).samba, old(files).samba)
      ensures files in trail && files.samba == old(files).samba
      ensures files.exports == old(files).exports || files.exports == RenderNfs(all, decode)
      ensures ok ==> files.exports == RenderNfs(all, decode) && NfsAccepted(all, decode)
      ensures ok && AnyExported(all) ==> nfsOn
      ensures ok && !AnyExported(all) ==> nfsOn == (old(nfsOn) && !disabled)
      ensures ok ==> ExportsRead(files.exports, all, decode)
      ensures faults >= old(faults) && (faults == old(faults) ==> (ok <==> NfsAccepted(all, decode)))
    {
      disabled := false;
      var built, text, enabled;
      ghost var made;
      built, text, enabled, made := BuildExports(all, decode);
      CountFault(made);
      ReadBack(all, decode);
      if !built {
        return false, disabled;
      }
      var written := WriteExports(text);
      if !written {
        return false, disabled;
      }
      var ran := Try();
      if enabled > 0 {
        if !ran {
          return false, disabled;
        }
        nfsOn := true;
      } else if ran {
        disabled := true;
        nfsOn := false;
      }
      ok := Try();
    }

    method ApplySMB(all: seq<Share>) returns (ok: bool, ghost disabled: bool)
      requires files in trail
      modifies this`files, this`trail, this`smbOn, this`faults
      ensures Progress(old(trail), trail, old(files).exports, old(files).exports, old(files).samba, RenderSmb(all, decode))
      ensures files in trail && files.exports == old(files).exports
      ensures files.samba == old(files).samba || files.samba == RenderSmb(all, decode)
      ensures ok ==> files.samba == RenderSmb(all, decode)
      ensures ok ==> IncludeRead(files.samba, all, decode)
      ensures ok && AnyServed(all) ==> smbOn
      ensures ok && !AnyServed(all) ==> smbOn == (old(smbOn) && !disabled)
      ensures faults >= old(faults) && (faults == old(faults) ==> (ok <==> NamesValid(all)))
    {
      disabled := false;
      var built, text, enabled;
      ghost var made;
      built, text, enabled, made := BuildInclude(all, decode);
      CountFault(made);
      IncludeBack(all, decode);
      if !built {
        return false, disabled;
      }
      var written := WriteInclude(text);
      if !written {
        return false, disabled;
      }
      var testparm := Try();
      if !testparm {
        return false, disabled;
      }
      var ran := Try();
      if enabled > 0 {
        if !ran {
          return false, disabled;
        }
        smbOn := true;
      } else if ran {
        disabled := true;
        smbOn := false;
      }
      ok := true;
    }

    method ReapplyNFS() returns (ok: bool)
      requires Valid()
      modifies this`files, this`trail, this`nfsOn, this`faults
      ensures Valid()
      ensures ok ==> files.exports == RenderNfs(LoadAll(table), decode) && NfsAccepted(LoadAll(table), decode)
      ensures ok && AnyExported(LoadAll(table)) ==> nfsOn
      ensures old(trail) <= trail
      ensures faults >= old(faults) && (faults == old(faults) ==> (ok <==> NfsAccepted(LoadAll(table), decode)))
    {
      ghost var before, f := trail, files;
      ghost var disabled;
      ok, disabled := ApplyNFS(LoadAll(table));
      ExportsProgressComplete(before, trail, f, start, tables, table, decode);
    }

    method ReapplySMB() returns (ok: bool)
      requires Valid()
      modifies this`files, this`trail, this`smbOn, this`faults
      ensures Valid() && files.exports == old(files).exports
      ensures ok ==> files.samba == RenderSmb(LoadAll(table), decode)
      ensures ok && AnyServed(LoadAll(table)) ==> smbOn
      ensures old(trail) <= trail
      ensures faults >= old(faults) && (faults == old(faults) ==> ok)
    {
      ghost var before, f := trail, files;
      ghost var disabled;
      LoadedNamesValid(table, nextId);
      ok, disabled := ApplySMB(LoadAll(table));
      SambaProgressComplete(before, trail, f, start, tables, table, decode);
    }

    /** Both files again from the whole table. */
    method Reapply() returns (ok: bool)
      requires Valid()
      modifies this`files, this`trail, this`nfsOn, this`smbOn, this`faults
      ensures Valid()
      ensures ok ==> InStep() && NfsAccepted(LoadAll(table), decode)
      ensures ok && AnyExported(LoadAll(table)) ==> nfsOn
      ensures ok && AnyServed(LoadAll(table)) ==> smbOn
      ensures old(trail) <= trail
      ensures faults >= old(faults) && (faults == old(faults) ==> (ok <==> NfsAccepted(LoadAll(table), decode)))
    {
      ok := Try();
      if ok {
        ok := ReapplyNFS();
      }
      if ok {
        ok := ReapplySMB();
      }
    }

    /** A new table state, as committed by one SQL statement. */
    method Commit(rows: seq<Row>, ghost s: Statement)
      requires Valid() && TableOk(rows, nextId) && Executed(table, rows, s)
      modifies this`table, this`tables
      ensures Valid() && table == rows && Grown(old(tables), tables) && |tables| == |old(tables)| + 1
    {
      GrownOne(tables, table, rows);
      MoreTables(trail, start, tables, rows, decode);
      table, tables := rows, tables + [rows];
    }

    /** The new table and both files from it, once the statement was accepted. */
    method CommitAndApply(rows: seq<Row>, ghost s: Statement) returns (o: Outcome)
      requires Valid() && TableOk(rows, nextId) && Executed(table, rows, s)
      modifies this`table, this`tables, this`files, this`trail, this`nfsOn, this`smbOn, this`faults
      ensures Valid() && table == rows && Committed(o)
      ensures o == Done ==> InStep()
      ensures old(trail) <= trail && Grown(old(tables), tables) && |tables| == |old(tables)| + 1
      ensures faults >= old(faults) && (faults == old(faults) ==> o == Applied(rows, decode))
    {
      Commit(rows, s);
      var applied := Reapply();
      return if applied then Done else ApplyFailed;
    }

    method CreateShare(share: Share) returns (o: Outcome)
      requires Valid()
      modifies this
      ensures Valid()
      ensures o == Done ==> InStep()
      ensures o == Rejected <==> !ValidShare(share)
      ensures o == Conflict ==> ValidShare(share) && NameTaken(LoadAll(old(table)), share)
      ensures ValidShare(share) && NameTaken(LoadAll(old(table)), share) ==> o == Conflict || o == DbError
      ensures faults >= old(faults) && (faults == old(faults) ==> o == CreateOutcome(share, old(table), old(nextId), decode))
      ensures o == Done || o == ApplyFailed ==> table == old(table) + [ToRow(old(nextId), share)]
      ensures o != Done && o != ApplyFailed ==> table == old(table) && files == old(files)
      ensures old(trail) <= trail && Grown(old(tables), tables)
      ensures |tables| == |old(tables)| + if Committed(o) then 1 else 0
    {
      if !ValidShare(share) {
        return Rejected;
      }
      var row := ToRow(nextId, share);
      var dbWorks := Try();
      if !dbWorks {
        return DbError;
      }
      TakenIff(table, share);
      if KeyTaken(table, share) {
        return Conflict;
      }
      AddedOk(table, nextId, share);
      nextId := nextId + 1;
      o := CommitAndApply(table + [row], Insert(row));
    }

    method FindRow(id: nat) returns (k: int)
      ensures -1 <= k < |table|
      ensures k >= 0 ==> table[k].id == id
      ensures k < 0 ==> forall r :: r in table ==> r.id != id
    {
      k := |table| - 1;
      while k >= 0 && table[k].id != id
        invariant -1 <= k < |table|
        invariant forall j :: k < j < |table| ==> table[j].id != id
      {
        k := k - 1;
      }
    }

    method UpdateShare(id: nat, share: Share, confirm: bool) returns (o: Outcome)
      requires Valid()
      modifies this
      ensures Valid()
      ensures o == Done ==> InStep()
      ensures o == Rejected <==> !ValidShare(share)
      ensures o == ConfirmationRequired <==> ValidShare(share) && !share.enabled && !confirm
      ensures o == NotFound ==> !HasId(old(table), id)
      ensures o == Conflict ==> TakenByOther(old(table), id, share)
      ensures faults >= old(faults)
      ensures faults == old(faults) ==> o == UpdateOutcome(id, share, confirm, old(table), table, decode)
      ensures o == Done || o == ApplyFailed ==>
                exists k :: 0 <= k < |old(table)| && old(table)[k].id == id && table == old(table)[k := ToRow(id, share)]
      ensures o != Done && o != ApplyFailed ==> table == old(table) && files == old(files)
      ensures old(trail) <= trail && Grown(old(tables), tables)
      ensures |tables| == |old(tables)| + if Committed(o) then 1 else 0
    {
      if !ValidShare(share) {
        return Rejected;
      }
      if !share.enabled && !confirm {
        return ConfirmationRequired;
      }
      var row := ToRow(id, share);
      var k := FindRow(id);
      var dbWorks := Try();
      if !dbWorks {
        return DbError;
      }
      if k < 0 {
        return NotFound;
      }
      ElsewhereIff(table, k, share);
      if KeyElsewhere(table, k, share) {
        return Conflict;
      }
      ReplacedOk(table, nextId, k, share);
      o := CommitAndApply(table[k := row], Replace(k, row));
    }

    method DeleteShare(id: nat, confirm: bool) returns (o: Outcome)
      requires Valid()
      modifies this
      ensures Valid()
      ensures o == Done ==> InStep()
      ensures o == ConfirmationRequired <==> !confirm
      ensures o == NotFound ==> !HasId(old(table), id)
      ensures faults >= old(faults)
      ensures faults == old(faults) ==> o == DeleteOutcome(id, confirm, old(table), table, decode)
      ensures o == Done || o == ApplyFailed ==>
                exists k :: 0 <= k < |old(table)| && old(table)[k].id == id && table == old(table)[..k] + old(table)[k + 1..]
      ensures o != Done && o != ApplyFailed ==> table == old(table) && files == old(files)
      ensures old(trail) <= trail && Grown(old(tables), tables)
      ensures |tables| == |old(tables)| + if Committed(o) then 1 else 0
    {
      if !confirm {
        return ConfirmationRequired;
      }
      var k := FindRow(id);
      var stored := Try();
      if !stored {
        return DbError;
      }
      if k < 0 {
        return NotFound;
      }
      DeletedOk(table, nextId, k);
      o := CommitAndApply(table[..k] + table[k + 1..], Erase(k));
    }

    method Serve(r: Request) returns (o: Outcome)
      requires Valid()
      modifies this
      ensures Valid()
      ensures o == Done ==> InStep()
      ensures old(trail) <= trail && Grown(old(tables), tables)
      ensures |tables| == |old(tables)| + if Committed(o) then 1 else 0
    {
      match r {
        case Create(share) => o := CreateShare(share);
        case Update(id, share, confirm) => o := UpdateShare(id, share, confirm);
        case Delete(id, confirm) => o := DeleteShare(id, confirm);
      }
    }

    /**
     * Any sequence of requests with any failures: whenever the last one succeeded both files
     * are the renderings of the current table, and a crash at any point in between shows
     * each file as a complete rendering of one table the daemon had.
     */
    method ServeAll(rs: seq<Request>) returns (os: seq<Outcome>)
      requires Valid()
      modifies this
      ensures Valid() && |os| == |rs|
      ensures rs != [] && os[|rs| - 1] == Done ==> InStep()
      ensures old(trail) <= trail && Grown(old(tables), tables) && |tables| == |old(tables)| + Commits(os)
    {
      os := [];
      ghost var agree := InStep();
      while |os| < |rs|
        invariant Valid() && |os| <= |rs| && agree == InStep()
        invariant os != [] && os[|os| - 1] == Done ==> agree
        invariant old(trail) <= trail && Grown(old(tables), tables) && |tables| == |old(tables)| + Commits(os)
      {
        ghost var was := tables;
        var o := Serve(rs[|os|]);
        GrownTwice(old(tables), was, tables);
        CommitsSnoc(os, o);
        agree := InStep();
        os := os + [o];
      }
    }
  }

  lemma {:induction false} DeletedOk(rows: seq<Row>, nextId: nat, k: nat)
    requires TableOk(rows, nextId) && k < |rows|
    ensures TableOk(rows[..k] + rows[k + 1..], nextId)
  {
    var rest := rows[..k] + rows[k + 1..];
    forall i | 0 <= i < |rest|
      ensures rest[i] == rows[if i < k then i else i + 1]
    {
    }
  }
}
