/**
 * The NFS half of shares.go: the options of a rule and the text of /etc/exports.
 */
module NfsExports {
  import opened GoStrings
  import opened Options

  // ---- Shares (the fields the generators read) -------------------------------

  datatype Protocol = NFS | SMB

  datatype NfsAdv = NfsAdv(sync: bool, noRootSquash: bool, rootSquash: bool, allSquash: bool,
                           anonuid: int, anongid: int, noSubtreeCheck: bool, secure: bool, crossmnt: bool)

  datatype NfsRule = NfsRule(client: string, perm: string, adv: NfsAdv)

  datatype SmbOptions = SmbOptions(encryption: bool, timeMachine: bool, oplocks: string,
                                   hideDotFiles: bool, caseSensitivity: string, comment: string)

  datatype ShareConfig = ShareConfig(recycleBin: bool, smb: SmbOptions, rules: seq<NfsRule>)

  datatype Share = Share(name: string, path: string, protocol: Protocol, readOnly: bool,
                         allowedIPs: seq<string>, validUsers: seq<string>, enabled: bool, config: string)

  /** The JSON decoder of the config blob; a parameter of everything below. */
  type Decoder = string -> ShareConfig

  // ---- Options ---------------------------------------------------------------

  datatype Squash = RootSquash | NoRootSquash | AllSquash

  datatype OptTok =
    | Perm(rw: bool) | Sync(sync: bool) | Subtree(check: bool) | Port(secure: bool)
    | SquashTok(squash: Squash) | Crossmnt | AnonUid(uid: nat) | AnonGid(gid: nat) | Unknown

  function PrintTok(t: OptTok): string {
    match t
    case Perm(rw) => if rw then "rw" else "ro"
    case Sync(s) => if s then "sync" else "async"
    case Subtree(c) => if c then "subtree_check" else "no_subtree_check"
    case Port(s) => if s then "secure" else "insecure"
    case SquashTok(RootSquash) => "root_squash"
    case SquashTok(NoRootSquash) => "no_root_squash"
    case SquashTok(AllSquash) => "all_squash"
    case Crossmnt => "crossmnt"
    case AnonUid(n) => "anonuid=" + Itoa(n)
    case AnonGid(n) => "anongid=" + Itoa(n)
    case Unknown => "?"
  }

  function ParseFlag(s: string): OptTok {
    if s == "rw" then Perm(true) else if s == "ro" then Perm(false)
    else if s == "sync" then Sync(true) else if s == "async" then Sync(false)
    else if s == "subtree_check" then Subtree(true) else if s == "no_subtree_check" then Subtree(false)
    else if s == "secure" then Port(true) else if s == "insecure" then Port(false)
    else if s == "root_squash" then SquashTok(RootSquash)
    else if s == "no_root_squash" then SquashTok(NoRootSquash)
    else if s == "all_squash" then SquashTok(AllSquash)
    else if s == "crossmnt" then Crossmnt
    else Unknown
  }

  function ParseTok(s: string): OptTok {
    if |s| > 8 && s[..8] == "anonuid=" then (if ParseNat(s[8..]) >= 0 then AnonUid(ParseNat(s[8..])) else Unknown)
    else if |s| > 8 && s[..8] == "anongid=" then (if ParseNat(s[8..]) >= 0 then AnonGid(ParseNat(s[8..])) else Unknown)
    else ParseFlag(s)
  }

  predicate OptChar(c: char) {
    'a' <= c <= 'z' || c == '_' || c == '=' || IsDigit(c)
  }

  predicate OptWord(s: string) {
    s != "" && forall i :: 0 <= i < |s| ==> OptChar(s[i])
  }

  lemma {:induction false} SubtreeWords()
    ensures OptWord("subtree_check") && OptWord("no_subtree_check")
  {
  }

  lemma {:induction false} SquashWords()
    ensures OptWord("root_squash") && OptWord("no_root_squash") && OptWord("all_squash")
  {
  }

  lemma {:induction false} FlagWord(t: OptTok)
    requires t != Unknown && !t.AnonUid? && !t.AnonGid?
    ensures OptWord(PrintTok(t))
  {
    match t {
      case Subtree(_) => SubtreeWords();
      case SquashTok(_) => SquashWords();
      case _ =>
    }
  }

  lemma {:induction false} AnonWord(key: string, n: nat)
    requires OptWord(key)
    ensures OptWord(key + Itoa(n))
  {
  }

  lemma {:induction false} AnonKeys()
    ensures OptWord("anonuid=") && OptWord("anongid=")
  {
  }

  lemma {:induction false} PrintTokWord(t: OptTok)
    requires t != Unknown
    ensures OptWord(PrintTok(t))
  {
    match t {
      case AnonUid(n) =>
        AnonKeys();
        AnonWord("anonuid=", n);
      case AnonGid(n) =>
        AnonKeys();
        AnonWord("anongid=", n);
      case _ => FlagWord(t);
    }
  }

  lemma {:induction false} ParsePrintTok(t: OptTok)
    requires t != Unknown
    ensures ParseTok(PrintTok(t)) == t
  {
    match t {
      case AnonUid(n) => AnonPrint("anonuid=", n);
      case AnonGid(n) =>
        AnonPrint("anongid=", n);
        assert "anongid="[4] == 'g' && "anonuid="[4] == 'u';
      case _ => FlagPrint(t);
    }
  }

  lemma {:induction false} AnonPrint(key: string, n: nat)
    requires |key| == 8
    ensures var s := key + Itoa(n); s[..8] == key && s[8..] == Itoa(n) && ParseNat(Itoa(n)) == n && |s| > 8
  {
    ParseItoa(n);
  }

  lemma {:induction false} FlagPrint(t: OptTok)
    requires t != Unknown && !t.AnonUid? && !t.AnonGid?
    ensures ParseTok(PrintTok(t)) == ParseFlag(PrintTok(t)) == t
  {
    var s := PrintTok(t);
    assert "anonuid="[1] == 'n' && "anongid="[1] == 'n';
    if |s| > 8 {
      assert s[..8][1] == s[1];
      assert s[1] != 'n';
    }
  }

  /** The options of one client, as exports(5) understands them; 0 stands for no anonymous id. */
  datatype Opts = Opts(rw: bool, sync: bool, subtreeCheck: bool, secure: bool, squash: Squash,
                       crossmnt: bool, anonuid: nat, anongid: nat)

  const DEFAULTS := Opts(false, true, false, true, RootSquash, false, 0, 0)

  /** Which setting an option is about; each may be given at most once. */
  function Slot(t: OptTok): nat {
    match t
    case Perm(_) => 0 case Sync(_) => 1 case Subtree(_) => 2 case Port(_) => 3
    case SquashTok(_) => 4 case Crossmnt => 5 case AnonUid(_) => 6 case AnonGid(_) => 7 case Unknown => 8
  }

  function Set(o: Opts, t: OptTok): Opts {
    match t
    case Perm(rw) => o.(rw := rw)
    case Sync(s) => o.(sync := s)
    case Subtree(c) => o.(subtreeCheck := c)
    case Port(s) => o.(secure := s)
    case SquashTok(q) => o.(squash := q)
    case Crossmnt => o.(crossmnt := true)
    case AnonUid(n) => o.(anonuid := n)
    case AnonGid(n) => o.(anongid := n)
    case Unknown => o
  }

  function Decode(ts: seq<OptTok>, o: Opts, seen: set<nat>): Option<Opts> {
    if ts == [] then Some(o)
    else if ts[0] == Unknown || Slot(ts[0]) in seen then None
    else Decode(ts[1..], Set(o, ts[0]), seen + {Slot(ts[0])})
  }

  function ParseToks(ss: seq<string>): seq<OptTok> {
    if ss == [] then [] else [ParseTok(ss[0])] + ParseToks(ss[1..])
  }

  function PrintToks(ts: seq<OptTok>): (r: seq<string>)
    ensures |r| == |ts|
    ensures forall i :: 0 <= i < |ts| ==> r[i] == PrintTok(ts[i])
  {
    if ts == [] then [] else [PrintTok(ts[0])] + PrintToks(ts[1..])
  }

  /** An option list on top of default options. */
  function ReadOptsFrom(s: string, o: Opts): Option<Opts> {
    Decode(ParseToks(Split(s, ',')), o, {})
  }

  function ReadOpts(s: string): Option<Opts> {
    ReadOptsFrom(s, DEFAULTS)
  }

  predicate Known(ts: seq<OptTok>) {
    ts != [] && forall t :: t in ts ==> t != Unknown
  }

  lemma {:induction false} ParsePrintToks(ts: seq<OptTok>)
    requires forall t :: t in ts ==> t != Unknown
    ensures ParseToks(PrintToks(ts)) == ts
  {
    if ts != [] {
      assert ts[0] in ts;
      ParsePrintTok(ts[0]);
      assert forall t :: t in ts[1..] ==> t in ts;
      ParsePrintToks(ts[1..]);
      assert PrintToks(ts)[1..] == PrintToks(ts[1..]);
    }
  }

  lemma {:induction false} WordsJoin(xs: seq<string>)
    requires xs != [] && forall x :: x in xs ==> OptWord(x)
    ensures Join(xs, ',') != "" && forall i :: 0 <= i < |Join(xs, ',')| ==> OptChar(Join(xs, ',')[i]) || Join(xs, ',')[i] == ','
  {
    assert OptWord(xs[0]);
    if |xs| > 1 {
      WordsJoin(xs[1..]);
    }
  }

  /** Printed options hold no bracket or blank and split back into the tokens. */
  lemma {:induction false} PrintedOpts(ts: seq<OptTok>)
    requires Known(ts)
    ensures var s := Join(PrintToks(ts), ',');
            && ParseToks(Split(s, ',')) == ts
            && forall i :: 0 <= i < |s| ==> OptChar(s[i]) || s[i] == ','
  {
    var xs := PrintToks(ts);
    forall i | 0 <= i < |xs|
      ensures ',' !in xs[i] && OptWord(xs[i])
    {
      assert ts[i] in ts;
      PrintTokWord(ts[i]);
    }
    SplitJoin(xs, ',');
    WordsJoin(xs);
    ParsePrintToks(ts);
  }

  // ---- nfsRuleOpts -----------------------------------------------------------

  function SquashOf(adv: NfsAdv): Squash {
    if adv.allSquash then AllSquash else if adv.noRootSquash then NoRootSquash else RootSquash
  }

  function When(b: bool, t: OptTok): seq<OptTok> {
    if b then [t] else []
  }

  function IdToks(adv: NfsAdv): seq<OptTok> {
    When(adv.crossmnt, Crossmnt)
    + (When(adv.anonuid > 0, AnonUid(if adv.anonuid > 0 then adv.anonuid else 0))
       + (When(adv.anongid > 0, AnonGid(if adv.anongid > 0 then adv.anongid else 0)) + []))
  }

  function RuleToks(r: NfsRule): seq<OptTok> {
    [Perm(r.perm != "ro"), Sync(r.adv.sync), Subtree(!r.adv.noSubtreeCheck), Port(r.adv.secure),
     SquashTok(SquashOf(r.adv))] + IdToks(r.adv)
  }

  function RuleOpts(r: NfsRule): string {
    Join(PrintToks(RuleToks(r)), ',')
  }

  /** What the rule asks for. */
  function RuleMeaning(r: NfsRule): Opts {
    Opts(r.perm != "ro", r.adv.sync, !r.adv.noSubtreeCheck, r.adv.secure, SquashOf(r.adv), r.adv.crossmnt,
         if r.adv.anonuid > 0 then r.adv.anonuid else 0,
         if r.adv.anongid > 0 then r.adv.anongid else 0)
  }

  /** The option list as the code appends to it, and how it reads back. */
  method NfsRuleOpts(r: NfsRule) returns (s: string)
    ensures s == RuleOpts(r) && ReadOpts(s) == Some(RuleMeaning(r))
  {
    var o: seq<OptTok> := [];
    o := o + [if r.perm == "ro" then Perm(false) else Perm(true)];
    o := o + [Sync(r.adv.sync)];
    o := o + [Subtree(!r.adv.noSubtreeCheck)];
    o := o + [Port(r.adv.secure)];
    if r.adv.allSquash {
      o := o + [SquashTok(AllSquash)];
    } else if r.adv.noRootSquash {
      o := o + [SquashTok(NoRootSquash)];
    } else {
      o := o + [SquashTok(RootSquash)];
    }
    assert o + IdToks(r.adv) == RuleToks(r);
    var ids := AppendIds(r.adv);
    RuleOptsRead(r);
    s := Join(PrintToks(o + ids), ',');
  }

  method AppendIds(adv: NfsAdv) returns (o: seq<OptTok>)
    ensures o == IdToks(adv)
  {
    o := [];
    if adv.crossmnt {
      o := o + [Crossmnt];
    }
    if adv.anonuid > 0 {
      o := o + [AnonUid(adv.anonuid)];
    }
    if adv.anongid > 0 {
      o := o + [AnonGid(adv.anongid)];
    }
  }

  lemma {:induction false} DecodeWhen(b: bool, t: OptTok, rest: seq<OptTok>, o: Opts, seen: set<nat>)
    requires t != Unknown && Slot(t) !in seen
    ensures Decode(When(b, t) + rest, o, seen) ==
            Decode(rest, if b then Set(o, t) else o, if b then seen + {Slot(t)} else seen)
  {
    if b {
      assert ([t] + rest)[1..] == rest;
    } else {
      assert [] + rest == rest;
    }
  }

  lemma {:induction false} DecodeIds(adv: NfsAdv, o: Opts, seen: set<nat>)
    requires 5 !in seen && 6 !in seen && 7 !in seen && !o.crossmnt && o.anonuid == 0 && o.anongid == 0
    ensures Decode(IdToks(adv), o, seen) ==
            Some(o.(crossmnt := adv.crossmnt, anonuid := if adv.anonuid > 0 then adv.anonuid else 0,
                    anongid := if adv.anongid > 0 then adv.anongid else 0))
  {
    var uid, gid := if adv.anonuid > 0 then adv.anonuid else 0, if adv.anongid > 0 then adv.anongid else 0;
    var g := When(adv.anongid > 0, AnonGid(gid)) + [];
    var u := When(adv.anonuid > 0, AnonUid(uid)) + g;
    DecodeWhen(adv.crossmnt, Crossmnt, u, o, seen);
    var o1, seen1 := if adv.crossmnt then Set(o, Crossmnt) else o, if adv.crossmnt then seen + {5} else seen;
    DecodeWhen(adv.anonuid > 0, AnonUid(uid), g, o1, seen1);
    var o2, seen2 := if adv.anonuid > 0 then Set(o1, AnonUid(uid)) else o1, if adv.anonuid > 0 then seen1 + {6} else seen1;
    DecodeWhen(adv.anongid > 0, AnonGid(gid), [], o2, seen2);
  }

  lemma {:induction false} DecodeTwo(a: OptTok, b: OptTok, rest: seq<OptTok>, o: Opts, seen: set<nat>)
    requires a != Unknown && b != Unknown && Slot(a) !in seen && Slot(b) !in seen && Slot(a) != Slot(b)
    ensures Decode([a, b] + rest, o, seen) == Decode(rest, Set(Set(o, a), b), seen + {Slot(a)} + {Slot(b)})
  {
    assert [a, b] + rest == [a] + ([b] + rest);
    DecodeWhen(true, a, [b] + rest, o, seen);
    DecodeWhen(true, b, rest, Set(o, a), seen + {Slot(a)});
  }

  lemma {:induction false} DecodeFive(a: OptTok, b: OptTok, c: OptTok, d: OptTok, e: OptTok, rest: seq<OptTok>, o: Opts)
    requires Slot(a) == 0 && Slot(b) == 1 && Slot(c) == 2 && Slot(d) == 3 && Slot(e) == 4
    ensures Decode([a, b, c, d, e] + rest, o, {}) ==
            Decode(rest, Set(Set(Set(Set(Set(o, a), b), c), d), e), {0} + {1} + {2} + {3} + {4})
  {
    var tail := [c, d] + ([e] + rest);
    assert [a, b, c, d, e] + rest == [a, b] + tail;
    DecodeTwo(a, b, tail, o, {});
    assert {} + {0} == {0};
    DecodeTwo(c, d, [e] + rest, Set(Set(o, a), b), {0} + {1});
    DecodeWhen(true, e, rest, Set(Set(Set(Set(o, a), b), c), d), {0} + {1} + {2} + {3});
  }

  lemma {:induction false} RuleToksKnown(r: NfsRule)
    ensures Known(RuleToks(r))
  {
  }

  lemma {:induction false} DecodeRule(r: NfsRule)
    ensures Decode(RuleToks(r), DEFAULTS, {}) == Some(RuleMeaning(r))
  {
    DecodeFive(Perm(r.perm != "ro"), Sync(r.adv.sync), Subtree(!r.adv.noSubtreeCheck), Port(r.adv.secure),
               SquashTok(SquashOf(r.adv)), IdToks(r.adv), DEFAULTS);
    DecodeIds(r.adv, Opts(r.perm != "ro", r.adv.sync, !r.adv.noSubtreeCheck, r.adv.secure, SquashOf(r.adv), false, 0, 0),
              {0} + {1} + {2} + {3} + {4});
  }

  /** The printed options of a rule read back to what it asks for, one squash mode included. */
  lemma {:induction false} RuleOptsRead(r: NfsRule)
    ensures ReadOpts(RuleOpts(r)) == Some(RuleMeaning(r))
  {
    RuleToksKnown(r);
    PrintedOpts(RuleToks(r));
    DecodeRule(r);
  }

  // ---- One export line -------------------------------------------------------

  datatype Grant = Grant(client: string, opts: Opts)
  datatype Export = Export(path: string, grants: seq<Grant>)

  /** A client with its printed options, before they are rendered. */
  datatype Entry = Entry(client: string, toks: seq<OptTok>)

  function LegacyToks(readOnly: bool): seq<OptTok> {
    [Perm(!readOnly), Sync(true), Subtree(false)]
  }

  function LegacyMeaning(readOnly: bool): Opts {
    DEFAULTS.(rw := !readOnly)
  }

  lemma {:induction false} DecodeLegacy(readOnly: bool)
    ensures Decode(LegacyToks(readOnly), DEFAULTS, {}) == Some(LegacyMeaning(readOnly)) && Known(LegacyToks(readOnly))
  {
    var c := When(true, Subtree(false)) + [];
    var b := [Sync(true)] + c;
    assert LegacyToks(readOnly) == [Perm(!readOnly)] + b;
    DecodeWhen(true, Perm(!readOnly), b, DEFAULTS, {});
    var o1 := Set(DEFAULTS, Perm(!readOnly));
    DecodeWhen(true, Sync(true), c, o1, {} + {0});
    DecodeWhen(true, Subtree(false), [], Set(o1, Sync(true)), {} + {0} + {1});
  }

  function RuleClient(r: NfsRule): string {
    var c := TrimSpace(r.client);
    if c == "" then "*" else c
  }

  function RuleEntries(rs: seq<NfsRule>): (es: seq<Entry>)
    ensures |es| == |rs|
    ensures forall i :: 0 <= i < |rs| ==> es[i] == Entry(RuleClient(rs[i]), RuleToks(rs[i]))
  {
    if rs == [] then [] else [Entry(RuleClient(rs[0]), RuleToks(rs[0]))] + RuleEntries(rs[1..])
  }

  function HostEntries(hosts: seq<string>, readOnly: bool): (es: seq<Entry>)
    ensures |es| == |hosts|
    ensures forall i :: 0 <= i < |hosts| ==> es[i] == Entry(hosts[i], LegacyToks(readOnly))
  {
    if hosts == [] then [] else [Entry(hosts[0], LegacyToks(readOnly))] + HostEntries(hosts[1..], readOnly)
  }

  /** The clients of a share: its rules, or the older host list. */
  function Entries(s: Share, decode: Decoder): seq<Entry> {
    var rules := decode(s.config).rules;
    if rules != [] then RuleEntries(rules)
    else HostEntries(if s.allowedIPs == [] then ["*"] else s.allowedIPs, s.readOnly)
  }

  /** What the share means to an NFS server. */
  function RuleGrants(rs: seq<NfsRule>): seq<Grant> {
    if rs == [] then [] else [Grant(RuleClient(rs[0]), RuleMeaning(rs[0]))] + RuleGrants(rs[1..])
  }

  function HostGrants(hosts: seq<string>, readOnly: bool): seq<Grant> {
    if hosts == [] then [] else [Grant(hosts[0], LegacyMeaning(readOnly))] + HostGrants(hosts[1..], readOnly)
  }

  function Meaning(s: Share, decode: Decoder): Export {
    var rules := decode(s.config).rules;
    Export(s.path,
           if rules != [] then RuleGrants(rules)
           else HostGrants(if s.allowedIPs == [] then ["*"] else s.allowedIPs, s.readOnly))
  }

  predicate ClientAllowed(c: string) {
    !ContainsAny(c, " \t\r\n\"()")
  }

  function PrintEntry(e: Entry): string {
    e.client + "(" + Join(PrintToks(e.toks), ',') + ")"
  }

  function PrintEntries(es: seq<Entry>): string {
    if es == [] then "" else " " + PrintEntry(es[0]) + PrintEntries(es[1..])
  }

  /** strconv.IsPrint for the characters up to U+0377: ASCII, Latin and combining ones. */
  predicate Printable(c: char) {
    ' ' <= c <= '~' || ('\U{A1}' <= c <= '\U{377}' && c != '\U{AD}')
  }

  /** The verb %q on one character up to U+0377; the others are left as they are. */
  function QuoteChar(c: char): string {
    match c
    case '"' => "\\\""
    case '\\' => "\\\\"
    case '\U{7}' => "\\a"
    case '\U{8}' => "\\b"
    case '\U{C}' => "\\f"
    case '\n' => "\\n"
    case '\r' => "\\r"
    case '\t' => "\\t"
    case '\U{B}' => "\\v"
    case _ =>
      if Printable(c) || c > '\U{377}' then [c]
      else if c <= '\U{7F}' then "\\x" + Hex(c as int, 2)
      else "\\u" + Hex(c as int, 4)
  }

  /** The last `digits` hexadecimal digits of a number. */
  function Hex(n: nat, digits: nat): string {
    if digits == 0 then "" else Hex(n / 16, digits - 1) + [HexDigit(n % 16)]
  }

  function HexDigit(d: int): char
    requires 0 <= d < 16
  {
    if d < 10 then '0' + d as char else 'a' + (d - 10) as char
  }

  function QuoteChars(s: string): string {
    if s == "" then "" else QuoteChar(s[0]) + QuoteChars(s[1..])
  }

  function Quote(s: string): string {
    "\"" + QuoteChars(s) + "\""
  }

  function ExportLine(s: Share, decode: Decoder): string {
    Quote(s.path) + PrintEntries(Entries(s, decode))
  }

  // ---- The file --------------------------------------------------------------

  predicate Exported(s: Share) {
    s.protocol.NFS? && s.enabled
  }

  function ExportLines(all: seq<Share>, decode: Decoder): seq<string> {
    if all == [] then []
    else (if Exported(all[0]) then [ExportLine(all[0], decode)] else []) + ExportLines(all[1..], decode)
  }

  const NFS_HEADER := "# Generato da nasd - non modificare a mano"

  /** The whole file. */
  function RenderNfs(all: seq<Share>, decode: Decoder): string {
    Join([NFS_HEADER] + ExportLines(all, decode) + [""], '\n')
  }

  function Meanings(all: seq<Share>, decode: Decoder): seq<Export> {
    if all == [] then [] else (if Exported(all[0]) then [Meaning(all[0], decode)] else []) + Meanings(all[1..], decode)
  }
}
