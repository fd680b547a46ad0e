/**
 * The configuration file (yaml.go, config.go): a line parser with a section register that
 * writes the known keys into the configuration, starting from the defaults.
 */
module ConfigYaml {
  import opened GoStrings
  import opened Options

  // ---- The configuration -----------------------------------------------------

  datatype ServerConfig = ServerConfig(listen: string, tlsCert: string, tlsKey: string)
  datatype DatabaseConfig = DatabaseConfig(path: string, migrationsDir: string)
  /** The session lifetime is in nanoseconds. */
  datatype SecurityConfig = SecurityConfig(sessionTTL: int, bcryptCost: int, csrfEnabled: bool)
  datatype PathsConfig = PathsConfig(staticDir: string, sambaConf: string, exportsFile: string,
                                     miniDLNAConf: string, filesRoot: string)

  datatype Settings = Settings(server: ServerConfig, database: DatabaseConfig,
                               security: SecurityConfig, paths: PathsConfig)

  const EIGHT_HOURS: int := 8 * 3600 * 1000000000

  const DEFAULTS: Settings :=
    Settings(ServerConfig(":8443", "", ""),
             DatabaseConfig("/var/lib/nasd/nasd.db", "/usr/share/nasd/migrations"),
             SecurityConfig(EIGHT_HOURS, 12, true),
             PathsConfig("/usr/share/nasd/www", "/etc/samba/smb.conf", "/etc/exports",
                         "/etc/minidlna.conf", "/srv"))

  /** The keys the parser knows. */
  datatype Field =
    | Listen | TlsCert | TlsKey | Path | MigrationsDir | SessionTtl | BcryptCost | CsrfEnabled
    | StaticDir | SambaConf | ExportsFile | MinidlnaConf

  datatype Value = Text(text: string) | Number(n: int) | Flag(on: bool)

  predicate IsText(f: Field) {
    f != SessionTtl && f != BcryptCost && f != CsrfEnabled
  }

  function SectionOf(f: Field): string {
    match f
    case Listen | TlsCert | TlsKey => "server"
    case Path | MigrationsDir => "database"
    case SessionTtl | BcryptCost | CsrfEnabled => "security"
    case StaticDir | SambaConf | ExportsFile | MinidlnaConf => "paths"
  }

  function KeyOf(f: Field): string {
    match f
    case Listen => "listen"
    case TlsCert => "tls_cert"
    case TlsKey => "tls_key"
    case Path => "path"
    case MigrationsDir => "migrations_dir"
    case SessionTtl => "session_ttl"
    case BcryptCost => "bcrypt_cost"
    case CsrfEnabled => "csrf_enabled"
    case StaticDir => "static_dir"
    case SambaConf => "samba_conf"
    case ExportsFile => "exports"
    case MinidlnaConf => "minidlna_conf"
  }

  function FieldOf(section: string, key: string): Option<Field> {
    if section == "server" then
      if key == "listen" then Some(Listen) else if key == "tls_cert" then Some(TlsCert)
      else if key == "tls_key" then Some(TlsKey) else None
    else if section == "database" then
      if key == "path" then Some(Path) else if key == "migrations_dir" then Some(MigrationsDir) else None
    else if section == "security" then
      if key == "session_ttl" then Some(SessionTtl) else if key == "bcrypt_cost" then Some(BcryptCost)
      else if key == "csrf_enabled" then Some(CsrfEnabled) else None
    else if section == "paths" then
      if key == "static_dir" then Some(StaticDir) else if key == "samba_conf" then Some(SambaConf)
      else if key == "exports" then Some(ExportsFile)
      else if key == "minidlna_conf" then Some(MinidlnaConf) else None
    else None
  }

  function Get(s: Settings, f: Field): Value {
    match f
    case Listen => Text(s.server.listen)
    case TlsCert => Text(s.server.tlsCert)
    case TlsKey => Text(s.server.tlsKey)
    case Path => Text(s.database.path)
    case MigrationsDir => Text(s.database.migrationsDir)
    case SessionTtl => Number(s.security.sessionTTL)
    case BcryptCost => Number(s.security.bcryptCost)
    case CsrfEnabled => Flag(s.security.csrfEnabled)
    case StaticDir => Text(s.paths.staticDir)
    case SambaConf => Text(s.paths.sambaConf)
    case ExportsFile => Text(s.paths.exportsFile)
    case MinidlnaConf => Text(s.paths.miniDLNAConf)
  }

  // ---- Values ----------------------------------------------------------------

  predicate FitsInt64(n: int) {
    -0x8000_0000_0000_0000 <= n <= 0x7fff_ffff_ffff_ffff
  }

  /** strconv.Atoi for a 64-bit int. */
  function Atoi(s: string): Option<int> {
    var signed := s != "" && (s[0] == '-' || s[0] == '+');
    var n := ParseNat(if signed then s[1..] else s);
    var v := if signed && s[0] == '-' then -n else n;
    if n >= 0 && FitsInt64(v) then Some(v) else None
  }

  /** What the text means for the key; None when it is not a value of that key. */
  function Interpret(f: Field, val: string, dur: string -> Option<int>): Option<Value> {
    match f
    case SessionTtl => (match dur(val) case Some(d) => Some(Number(d)) case None => None)
    case BcryptCost => (match Atoi(val) case Some(n) => Some(Number(n)) case None => None)
    case CsrfEnabled => Some(Flag(val == "true"))
    case _ => Some(Text(val))
  }

  /** One assignment read from the file. */
  datatype Triple = Triple(section: string, key: string, val: string)

  /** The value this assignment gives to f, if any. */
  function Effect(t: Triple, f: Field, dur: string -> Option<int>): Option<Value> {
    if FieldOf(t.section, t.key) == Some(f) then Interpret(f, t.val, dur) else None
  }

  // ---- Lines -----------------------------------------------------------------

  datatype Item = Skip | Section(name: string) | Assign(key: string, val: string)

  const QUOTES := "\"'"

  function Uncommented(line: string): string {
    var i := IndexOf(line, '#');
    if i >= 0 then line[..i] else line
  }

  predicate Indented(line: string) {
    line != "" && (line[0] == ' ' || line[0] == '\t')
  }

  function Chomp(raw: string): string {
    TrimCutRight(raw, "\r")
  }

  function Unquote(s: string): string {
    Trim(s, QUOTES)
  }

  function KeyAt(trimmed: string, i: nat): string
    requires i < |trimmed|
  {
    TrimSpace(trimmed[..i])
  }

  function ValueAt(trimmed: string, i: nat): string
    requires i < |trimmed|
  {
    Unquote(TrimSpace(trimmed[i + 1..]))
  }

  /** A text without white space at either end, read as key and value. */
  function ReadPair(trimmed: string, indented: bool): Item {
    var i := IndexOf(trimmed, ':');
    if trimmed == "" || i < 0 then Skip
    else if !indented && ValueAt(trimmed, i) == "" then Section(KeyAt(trimmed, i))
    else Assign(KeyAt(trimmed, i), ValueAt(trimmed, i))
  }

  function ReadContent(line: string): Item {
    ReadPair(TrimSpace(line), Indented(line))
  }

  function ReadItem(raw: string): Item {
    ReadContent(Uncommented(Chomp(raw)))
  }

  function Items(ls: seq<string>, read: string -> Item): (r: seq<Item>)
    ensures |r| == |ls| && forall i :: 0 <= i < |ls| ==> r[i] == read(ls[i])
  {
    seq(|ls|, i requires 0 <= i < |ls| => read(ls[i]))
  }

  /** The assignments, each with the section it stands in. */
  function Triples(items: seq<Item>, section: string): seq<Triple> {
    if items == [] then []
    else match items[0]
      case Skip => Triples(items[1..], section)
      case Section(name) => Triples(items[1..], name)
      case Assign(key, val) => [Triple(section, key, val)] + Triples(items[1..], section)
  }

  function Register(item: Item, section: string): string {
    match item case Section(name) => name case _ => section
  }

  function Of(item: Item, section: string): seq<Triple> {
    match item case Assign(key, val) => [Triple(section, key, val)] case _ => []
  }

  lemma {:induction false} TriplesFrom(items: seq<Item>, k: nat, section: string)
    requires k < |items|
    ensures Triples(items[k..], section)
         == Of(items[k], section) + Triples(items[k + 1..], Register(items[k], section))
  {
    assert items[k..][1..] == items[k + 1..];
  }

  function SectionAfter(items: seq<Item>, section: string): string {
    if items == [] then section else SectionAfter(items[1..], Register(items[0], section))
  }

  lemma {:induction false} TriplesAppend(xs: seq<Item>, ys: seq<Item>, section: string)
    ensures Triples(xs + ys, section) == Triples(xs, section) + Triples(ys, SectionAfter(xs, section))
    decreases xs
  {
    if xs == [] {
      assert xs + ys == ys;
    } else {
      assert (xs + ys)[1..] == xs[1..] + ys;
      TriplesAppend(xs[1..], ys, Register(xs[0], section));
    }
  }

  function AssignmentsBy(data: string, read: string -> Item): seq<Triple> {
    Triples(Items(Split(data, '\n'), read), "")
  }

  function Assignments(data: string): seq<Triple> {
    AssignmentsBy(data, ReadItem)
  }

  /** The assignment t sets f to its value, or leaves it as it was. */
  predicate AssignedAt(t: Triple, dur: string -> Option<int>, before: Settings, after: Settings, f: Field) {
    Get(after, f) == match Effect(t, f, dur) case Some(v) => v case None => Get(before, f)
  }

  ghost predicate Assigned(t: Triple, dur: string -> Option<int>, before: Settings, after: Settings) {
    after.paths.filesRoot == before.paths.filesRoot && forall f :: AssignedAt(t, dur, before, after, f)
  }

  // ---- Meaning of a file -----------------------------------------------------

  /** The last assignment that gives f a value decides; without one f keeps its value. */
  ghost predicate Decided(ts: seq<Triple>, dur: string -> Option<int>, before: Settings, after: Settings, f: Field) {
    || (AllIdle(ts, 0, f, dur) && Get(after, f) == Get(before, f))
    || exists i :: 0 <= i < |ts| && AllIdle(ts, i + 1, f, dur) && Effect(ts[i], f, dur) == Some(Get(after, f))
  }

  predicate AllIdle(ts: seq<Triple>, from: nat, f: Field, dur: string -> Option<int>) {
    forall j :: from <= j < |ts| ==> Effect(ts[j], f, dur) == None
  }

  /** The settings after the assignments: every known key by its last value, the rest as before. */
  ghost predicate Reads(ts: seq<Triple>, dur: string -> Option<int>, before: Settings, after: Settings) {
    && after.paths.filesRoot == before.paths.filesRoot
    && forall f :: Decided(ts, dur, before, after, f)
  }

  ghost predicate Parses(data: string, dur: string -> Option<int>, before: Settings, after: Settings) {
    Reads(Assignments(data), dur, before, after)
  }

  /** The outcome is determined key by key. */
  lemma {:induction false} SameGets(a: Settings, b: Settings)
    requires a.paths.filesRoot == b.paths.filesRoot && forall f :: Get(a, f) == Get(b, f)
    ensures a == b
  {
    assert Get(a, Listen) == Get(b, Listen) && Get(a, TlsCert) == Get(b, TlsCert) && Get(a, TlsKey) == Get(b, TlsKey);
    assert Get(a, Path) == Get(b, Path) && Get(a, MigrationsDir) == Get(b, MigrationsDir);
    assert Get(a, SessionTtl) == Get(b, SessionTtl) && Get(a, BcryptCost) == Get(b, BcryptCost);
    assert Get(a, CsrfEnabled) == Get(b, CsrfEnabled) && Get(a, StaticDir) == Get(b, StaticDir);
    assert Get(a, SambaConf) == Get(b, SambaConf) && Get(a, ExportsFile) == Get(b, ExportsFile);
    assert Get(a, MinidlnaConf) == Get(b, MinidlnaConf);
  }

  lemma {:induction false} DecidedOnce(ts: seq<Triple>, dur: string -> Option<int>, before: Settings, a: Settings,
        b: Settings, f: Field)
    requires Decided(ts, dur, before, a, f) && Decided(ts, dur, before, b, f)
    ensures Get(a, f) == Get(b, f)
  {
    if !AllIdle(ts, 0, f, dur) {
      var i :| 0 <= i < |ts| && AllIdle(ts, i + 1, f, dur) && Effect(ts[i], f, dur) == Some(Get(a, f));
      var j :| 0 <= j < |ts| && AllIdle(ts, j + 1, f, dur) && Effect(ts[j], f, dur) == Some(Get(b, f));
      assert i == j;
    }
  }

  /** A file has one meaning. */
  lemma {:induction false} ParsesOnce(data: string, dur: string -> Option<int>, before: Settings, a: Settings,
        b: Settings)
    requires Parses(data, dur, before, a) && Parses(data, dur, before, b)
    ensures a == b
  {
    forall f: Field
      ensures Get(a, f) == Get(b, f)
    {
      DecidedOnce(Assignments(data), dur, before, a, b, f);
    }
    SameGets(a, b);
  }

  lemma {:induction false} DecidedStep(ts: seq<Triple>, t: Triple, dur: string -> Option<int>, before: Settings,
        mid: Settings, after: Settings, f: Field)
    requires Decided(ts, dur, before, mid, f)
    requires AssignedAt(t, dur, mid, after, f)
    ensures Decided(ts + [t], dur, before, after, f)
  {
    var all := ts + [t];
    assert all[|ts|] == t && all[..|ts|] == ts;
    if Effect(t, f, dur).Some? {
      assert AllIdle(all, |ts| + 1, f, dur);
    } else if AllIdle(ts, 0, f, dur) && Get(mid, f) == Get(before, f) {
      assert AllIdle(all, 0, f, dur);
    } else {
      var i :| 0 <= i < |ts| && AllIdle(ts, i + 1, f, dur) && Effect(ts[i], f, dur) == Some(Get(mid, f));
      assert all[i] == ts[i] && AllIdle(all, i + 1, f, dur);
    }
  }

  // ---- The parser ------------------------------------------------------------

  /** The part of the loop body that looks at one line. */
  method ScanPair(trimmed: string, indented: bool) returns (item: Item)
    ensures item == ReadPair(trimmed, indented)
  {
    if trimmed == "" {
      return Skip;
    }
    var colon := IndexOf(trimmed, ':');
    if colon < 0 {
      return Skip;
    }
    var key := KeyAt(trimmed, colon);
    var val := ValueAt(trimmed, colon);
    if !indented && val == "" {
      return Section(key);
    }
    return Assign(key, val);
  }

  method ScanLine(raw: string) returns (item: Item)
    ensures item == ReadItem(raw)
  {
    var line := Chomp(raw);
    var hash := IndexOf(line, '#');
    if hash >= 0 {
      line := line[..hash];
    }
    item := ScanPair(TrimSpace(line), Indented(line));
  }

  function Usable(s: Settings): Settings {
    s.(security := s.security.(
      sessionTTL := if s.security.sessionTTL <= 0 then EIGHT_HOURS else s.security.sessionTTL,
      bcryptCost := if s.security.bcryptCost == 0 then 12 else s.security.bcryptCost))
  }

  class Config {
    var server: ServerConfig
    var database: DatabaseConfig
    var security: SecurityConfig
    var paths: PathsConfig

    ghost function Current(): Settings
      reads this
    {
      Settings(server, database, security, paths)
    }

    constructor ()
      ensures Current() == DEFAULTS
    {
      server, database, security, paths := DEFAULTS.server, DEFAULTS.database, DEFAULTS.security, DEFAULTS.paths;
    }

    method AssignServer(key: string, val: string, dur: string -> Option<int>)
      modifies this`server
      ensures Assigned(Triple("server", key, val), dur, old(Current()), Current())
    {
      if key == "listen" {
        server := server.(listen := val);
      } else if key == "tls_cert" {
        server := server.(tlsCert := val);
      } else if key == "tls_key" {
        server := server.(tlsKey := val);
      }
    }

    method AssignDatabase(key: string, val: string, dur: string -> Option<int>)
      modifies this`database
      ensures Assigned(Triple("database", key, val), dur, old(Current()), Current())
    {
      if key == "path" {
        database := database.(path := val);
      } else if key == "migrations_dir" {
        database := database.(migrationsDir := val);
      }
    }

    /** A lifetime or cost that does not parse is ignored. */
    method AssignSecurity(key: string, val: string, dur: string -> Option<int>)
      modifies this`security
      ensures Assigned(Triple("security", key, val), dur, old(Current()), Current())
    {
      if key == "session_ttl" {
        var d := dur(val);
        if d.Some? {
          security := security.(sessionTTL := d.value);
        }
      } else if key == "bcrypt_cost" {
        var n := Atoi(val);
        if n.Some? {
          security := security.(bcryptCost := n.value);
        }
      } else if key == "csrf_enabled" {
        security := security.(csrfEnabled := val == "true");
      }
    }

    method AssignPaths(key: string, val: string, dur: string -> Option<int>)
      modifies this`paths
      ensures Assigned(Triple("paths", key, val), dur, old(Current()), Current())
    {
      if key == "static_dir" {
        paths := paths.(staticDir := val);
      } else if key == "samba_conf" {
        paths := paths.(sambaConf := val);
      } else if key == "exports" {
        paths := paths.(exportsFile := val);
      } else if key == "minidlna_conf" {
        paths := paths.(miniDLNAConf := val);
      }
    }

    method AssignValue(section: string, key: string, val: string, dur: string -> Option<int>)
      modifies this
      ensures Assigned(Triple(section, key, val), dur, old(Current()), Current())
    {
      if section == "server" {
        AssignServer(key, val, dur);
      } else if section == "database" {
        AssignDatabase(key, val, dur);
      } else if section == "security" {
        AssignSecurity(key, val, dur);
      } else if section == "paths" {
        AssignPaths(key, val, dur);
      }
    }

    /** The rest of the loop body: move the register or assign. */
    method Take(item: Item, section: string, dur: string -> Option<int>) returns (register: string)
      modifies this
      ensures register == Register(item, section)
      ensures Took(item, section, dur, old(Current()), Current())
    {
      register := section;
      match item {
        case Skip =>
        case Section(name) => register := name;
        case Assign(key, val) => AssignValue(section, key, val, dur);
      }
    }

    method Settle()
      modifies this
      ensures Current() == Usable(old(Current()))
    {
      if security.sessionTTL <= 0 {
        security := security.(sessionTTL := EIGHT_HOURS);
      }
      if security.bcryptCost == 0 {
        security := security.(bcryptCost := 12);
      }
    }

    method ParseYAML(data: string, dur: string -> Option<int>)
      modifies this
      ensures Parses(data, dur, old(Current()), Current())
    {
      var section := "";
      var lines := Split(data, '\n');
      ghost var items := Items(lines, ReadItem);
      ghost var done: seq<Triple> := [];
      ghost var before, now := Current(), Current();
      StartReading(items, dur, before);
      var k := 0;
      while k < |lines|
        invariant 0 <= k <= |lines| && now == Current()
        invariant Upto(items, k, done, section)
        invariant Reads(done, dur, before, now)
      {
        var item := ScanLine(lines[k]);
        var register := Take(item, section, dur);
        UptoNext(items, k, done, section, item);
        ReadsNext(done, item, section, dur, before, now, Current());
        done, section, k, now := done + Of(item, section), register, k + 1, Current();
      }
      UptoEnd(items, done, section);
      FinishReading(data, done, dur, before, now);
    }
  }

  ghost predicate Took(item: Item, section: string, dur: string -> Option<int>, before: Settings, after: Settings) {
    match item
    case Assign(key, val) => Assigned(Triple(section, key, val), dur, before, after)
    case _ => before == after
  }

  /** The first k items have been turned into the assignments done. */
  ghost predicate Upto(items: seq<Item>, k: nat, done: seq<Triple>, section: string) {
    k <= |items| && done + Triples(items[k..], section) == Triples(items, "")
  }

  lemma {:induction false} UptoNext(items: seq<Item>, k: nat, done: seq<Triple>, section: string, item: Item)
    requires k < |items| && items[k] == item && Upto(items, k, done, section)
    ensures Upto(items, k + 1, done + Of(item, section), Register(item, section))
  {
    TriplesFrom(items, k, section);
    Associate(done, Of(item, section), Triples(items[k + 1..], Register(item, section)));
  }

  lemma {:induction false} UptoEnd(items: seq<Item>, done: seq<Triple>, section: string)
    requires Upto(items, |items|, done, section)
    ensures done == Triples(items, "")
  {
    assert done + [] == done;
  }

  lemma {:induction false} StartReading(items: seq<Item>, dur: string -> Option<int>, s: Settings)
    ensures Upto(items, 0, [], "") && Reads([], dur, s, s)
  {
    assert items[0..] == items && [] + Triples(items, "") == Triples(items, "");
    assert forall f :: AllIdle([], 0, f, dur);
  }

  lemma {:induction false} FinishReading(data: string, done: seq<Triple>, dur: string -> Option<int>,
        before: Settings, after: Settings)
    requires done == Assignments(data) && Reads(done, dur, before, after)
    ensures Parses(data, dur, before, after)
  {
  }

  lemma {:induction false} ReadsNext(ts: seq<Triple>, item: Item, section: string, dur: string -> Option<int>,
        before: Settings, mid: Settings, after: Settings)
    requires Reads(ts, dur, before, mid) && Took(item, section, dur, mid, after)
    ensures Reads(ts + Of(item, section), dur, before, after)
  {
    if item.Assign? {
      ReadsStep(ts, Triple(section, item.key, item.val), dur, before, mid, after);
    } else {
      assert ts + Of(item, section) == ts;
    }
  }

  lemma {:induction false} ReadsStep(ts: seq<Triple>, t: Triple, dur: string -> Option<int>, before: Settings,
        mid: Settings, after: Settings)
    requires Reads(ts, dur, before, mid) && Assigned(t, dur, mid, after)
    ensures Reads(ts + [t], dur, before, after)
  {
    forall f: Field
      ensures Decided(ts + [t], dur, before, after, f)
    {
      assert Decided(ts, dur, before, mid, f) && AssignedAt(t, dur, mid, after, f);
      DecidedStep(ts, t, dur, before, mid, after, f);
    }
  }

  // ---- Load ------------------------------------------------------------------

  datatype FileRead = Content(data: string) | Missing | Unreadable

  /** What Load makes of the parsed values: those that are usable are kept. */
  predicate Kept(parsed: Settings, now: Settings) {
    && now.server == parsed.server && now.database == parsed.database && now.paths == parsed.paths
    && now.security.csrfEnabled == parsed.security.csrfEnabled
    && (parsed.security.sessionTTL > 0 ==> now.security.sessionTTL == parsed.security.sessionTTL)
    && (parsed.security.sessionTTL <= 0 ==> now.security.sessionTTL == 28_800_000_000_000)
    && (parsed.security.bcryptCost != 0 ==> now.security.bcryptCost == parsed.security.bcryptCost)
    && (parsed.security.bcryptCost == 0 ==> now.security.bcryptCost == 12)
  }

  predicate OnCsrf(t: Triple) {
    t.section == "security" && t.key == "csrf_enabled"
  }

  /** The last word of the file on CSRF protection is not "true". */
  predicate SaysOff(ts: seq<Triple>) {
    exists i :: 0 <= i < |ts| && OnCsrf(ts[i]) && ts[i].val != "true" && forall j :: i < j < |ts| ==> !OnCsrf(ts[j])
  }

  lemma {:induction false} CsrfEffect(t: Triple, dur: string -> Option<int>)
    ensures Effect(t, CsrfEnabled, dur) == if OnCsrf(t) then Some(Flag(t.val == "true")) else None
  {
    assert "security" != "server" && "security" != "database";
    assert "csrf_enabled"[0] != "session_ttl"[0] && "csrf_enabled"[0] != "bcrypt_cost"[0];
  }

  /** CSRF protection is on unless the file says otherwise. */
  lemma {:induction false} CsrfOnUnlessOff(ts: seq<Triple>, dur: string -> Option<int>, after: Settings)
    requires Reads(ts, dur, DEFAULTS, after)
    ensures after.security.csrfEnabled <==> !SaysOff(ts)
  {
    forall i | 0 <= i < |ts|
      ensures Effect(ts[i], CsrfEnabled, dur) == if OnCsrf(ts[i]) then Some(Flag(ts[i].val == "true")) else None
    {
      CsrfEffect(ts[i], dur);
    }
    assert Decided(ts, dur, DEFAULTS, after, CsrfEnabled);
    assert Get(DEFAULTS, CsrfEnabled) == Flag(true);
    if !AllIdle(ts, 0, CsrfEnabled, dur) {
      var i :| 0 <= i < |ts| && AllIdle(ts, i + 1, CsrfEnabled, dur)
               && Effect(ts[i], CsrfEnabled, dur) == Some(Get(after, CsrfEnabled));
      assert OnCsrf(ts[i]) && forall j :: i < j < |ts| ==> !OnCsrf(ts[j]);
    }
  }

  /** Load: no file gives the defaults; afterwards lifetime and cost are usable. */
  method Load(file: FileRead, dur: string -> Option<int>) returns (cfg: Config?, ghost parsed: Settings)
    ensures cfg == null <==> file.Unreadable?
    ensures file.Missing? ==> cfg != null && cfg.Current() == DEFAULTS
    ensures file.Content? ==> Parses(file.data, dur, DEFAULTS, parsed)
    ensures file.Content? ==> cfg != null
    ensures cfg != null ==> cfg.paths.filesRoot == "/srv"
    ensures cfg != null ==> cfg.security.sessionTTL > 0 && cfg.security.bcryptCost != 0
    ensures file.Content? ==> Kept(parsed, cfg.Current())
    ensures file.Content? ==> (cfg.security.csrfEnabled <==> !SaysOff(Assignments(file.data)))
    ensures file.Missing? ==> cfg.security == SecurityConfig(28_800_000_000_000, 12, true)
  {
    var c := new Config();
    parsed := c.Current();
    match file
    case Missing => return c, parsed;
    case Unreadable => return null, parsed;
    case Content(data) =>
      c.ParseYAML(data, dur);
      parsed := c.Current();
      CsrfOnUnlessOff(Assignments(data), dur, parsed);
      c.Settle();
      return c, parsed;
  }
}
