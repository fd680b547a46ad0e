/**
 * A reader for exports(5), and when it gets back from the written file the shares with their
 * clients and options.
 */
module ExportsReader {
  import opened GoStrings
  import opened Options
  import opened NfsExports

  // ---- The reader ------------------------------------------------------------

  /** A backslash and three octal digits stand for one character. */
  predicate OctalAt(s: string) {
    |s| >= 4 && s[0] == '\\' && '0' <= s[1] <= '3' && '0' <= s[2] <= '7' && '0' <= s[3] <= '7'
  }

  function Octal(s: string): char
    requires OctalAt(s)
  {
    (64 * (s[1] - '0') as int + 8 * (s[2] - '0') as int + (s[3] - '0') as int) as char
  }

  function Unescape(s: string): string {
    if s == "" then "" else if OctalAt(s) then [Octal(s)] + Unescape(s[4..]) else [s[0]] + Unescape(s[1..])
  }

  /**
   * The end of a word: white space, and in the strict reading any '#'. exports(5) says that '#'
   * introduces a comment; exportfs looks for it only where a word begins.
   */
  function TokenEnd(s: string, strict: bool): (n: nat)
    ensures n <= |s| && Bare(s[..n], strict)
    ensures n < |s| ==> AsciiSpace(s[n]) || (strict && s[n] == '#')
  {
    if s == "" || AsciiSpace(s[0]) || (strict && s[0] == '#') then 0 else 1 + TokenEnd(s[1..], strict)
  }

  /** A text within one word. */
  predicate Bare(s: string, strict: bool) {
    forall i :: 0 <= i < |s| ==> !AsciiSpace(s[i]) && (strict ==> s[i] != '#')
  }

  /** The words of the rest of a line, up to a comment. */
  function Tokens(s: string, strict: bool): seq<string>
    decreases |s|
  {
    if s == "" || s[0] == '#' then []
    else if AsciiSpace(s[0]) then Tokens(s[1..], strict)
    else [s[..TokenEnd(s, strict)]] + Tokens(s[TokenEnd(s, strict)..], strict)
  }

  /** client(options), (options) for everyone, or a client with the default options. */
  function ReadClient(w: string, def: Opts): Option<Grant> {
    var i := IndexOf(w, '(');
    if i < 0 then Some(Grant(Unescape(w), def))
    else
      var o := w[i + 1..];
      if o == "" || IndexOf(o, ')') != |o| - 1 then None
      else
        match ReadOptsFrom(o[..|o| - 1], def)
        case None => None
        case Some(x) => Some(Grant(if i == 0 then "*" else Unescape(w[..i]), x))
  }

  predicate IsDefaults(w: string) {
    w != "" && w[0] == '-'
  }

  function ReadDefaults(w: string, def: Opts): Option<Opts>
    requires IsDefaults(w)
  {
    if '(' in w then None else ReadOptsFrom(w[1..], def)
  }

  function Cons(g: Option<Grant>, gs: Option<seq<Grant>>): Option<seq<Grant>> {
    if g.Some? && gs.Some? then Some([g.value] + gs.value) else None
  }

  /** A word "-options" sets defaults for what follows; a line without a client is for everyone. */
  function ReadClients(ws: seq<string>, def: Opts, any: bool): Option<seq<Grant>>
    decreases ws
  {
    if ws == [] then Some(if any then [] else [Grant("*", def)])
    else if IsDefaults(ws[0]) then
      match ReadDefaults(ws[0], def)
      case None => None
      case Some(d) => ReadClients(ws[1..], d, any)
    else Cons(ReadClient(ws[0], def), ReadClients(ws[1..], def, true))
  }

  function ReadRest(path: string, rest: string, strict: bool): Option<Export> {
    if !HasPrefix(path, "/") || (rest != "" && !AsciiSpace(rest[0])) then None
    else
      match ReadClients(Tokens(rest, strict), DEFAULTS, false)
      case None => None
      case Some(gs) => Some(Export(path, gs))
  }

  /** A line: a quoted absolute path and the clients it is exported to. */
  function ReadLine(l: string, strict: bool): Option<Export> {
    if l == "" || l[0] != '"' then None
    else
      var j := IndexOf(l[1..], '"');
      if j < 0 then None else ReadRest(Unescape(l[1..j + 1]), l[j + 2..], strict)
  }

  /** Blank lines and comments are skipped. */
  function ReadLines(ls: seq<string>, strict: bool): Option<seq<Export>> {
    if ls == [] then Some([])
    else
      var l := SkipAscii(ls[0]);
      if l == "" || l[0] == '#' then ReadLines(ls[1..], strict)
      else
        match (ReadLine(l, strict), ReadLines(ls[1..], strict))
        case (Some(e), Some(es)) => Some([e] + es)
        case _ => None
  }

  function ReadExports(text: string, strict: bool): Option<seq<Export>> {
    ReadLines(Split(text, '\n'), strict)
  }

  // ---- Escapes ---------------------------------------------------------------

  predicate NoOctal(s: string) {
    forall i :: 0 <= i < |s| ==> !OctalAt(s[i..])
  }

  lemma {:induction false} NoOctalCons(s: string)
    requires s != ""
    ensures NoOctal(s) <==> !OctalAt(s) && NoOctal(s[1..])
  {
    var t := s[1..];
    assert s[0..] == s;
    forall i | 0 <= i < |t|
      ensures t[i..] == s[i + 1..]
    {
    }
    if !OctalAt(s) && NoOctal(t) {
      forall i | 0 <= i < |s|
        ensures !OctalAt(s[i..])
      {
        assert i > 0 ==> s[i..] == t[i - 1..];
      }
    }
    if NoOctal(s) {
      forall i | 0 <= i < |t|
        ensures !OctalAt(t[i..])
      {
        assert !OctalAt(s[i + 1..]);
      }
    }
  }

  lemma {:induction false} UnescapeShrinks(s: string)
    ensures |Unescape(s)| <= |s|
    ensures if NoOctal(s) then Unescape(s) == s else |Unescape(s)| < |s|
    decreases |s|
  {
    if s != "" {
      NoOctalCons(s);
      if OctalAt(s) {
        UnescapeShrinks(s[4..]);
      } else {
        UnescapeShrinks(s[1..]);
        assert s == [s[0]] + s[1..];
      }
    }
  }

  // ---- One client ------------------------------------------------------------

  /** What a client's text must be like for the line to mean that client. */
  predicate ClientReadable(c: string, strict: bool) {
    c != "" && c[0] != '#' && c[0] != '-' && Bare(c, strict) && NoOctal(c)
  }

  /** Option text: no white space, bracket or '#'. */
  predicate OptsText(o: string) {
    forall i :: 0 <= i < |o| ==> OptChar(o[i]) || o[i] == ','
  }

  predicate Ended(t: string, strict: bool) {
    t != "" ==> AsciiSpace(t[0]) || (strict && t[0] == '#')
  }

  lemma {:induction false} TokensWord(w: string, t: string, strict: bool)
    requires w != "" && w[0] != '#' && Bare(w, strict) && Ended(t, strict)
    ensures Tokens(w + t, strict) == [w] + Tokens(t, strict)
  {
    var s := w + t;
    var n := TokenEnd(s, strict);
    assert forall i :: 0 <= i < |w| ==> s[i] == w[i];
    assert forall i :: 0 <= i < n ==> s[..n][i] == s[i];
    assert t != "" ==> s[|w|] == t[0];
    assert s[..|w|] == w && s[|w|..] == t;
  }

  function Bracketed(o: string): string {
    "(" + o + ")"
  }

  lemma {:induction false} BracketBare(o: string, strict: bool)
    requires OptsText(o)
    ensures Bare(Bracketed(o), strict)
  {
  }

  lemma {:induction false} ClientBracket(c: string, o: string, def: Opts)
    requires '(' !in c && OptsText(o)
    ensures ReadClient(c + Bracketed(o), def) ==
            match ReadOptsFrom(o, def) case None => None case Some(x) => Some(Grant(if c == "" then "*" else Unescape(c), x))
  {
    var w := c + Bracketed(o);
    assert w == c + ['('] + (o + ")");
    IndexOfAt(c, '(', o + ")");
    assert w[..|c|] == c && w[|c| + 1..] == o + ")";
    assert ')' !in o;
    IndexOfAt(o, ')', "");
    assert o + [')'] + "" == o + ")";
    assert (o + ")")[..|o|] == o;
  }

  lemma {:induction false} ClientChars(c: string)
    requires ClientAllowed(c)
    ensures forall x :: x in c ==> x != ' ' && x != '\t' && x != '\r' && x != '\n' && x != '"' && x != '(' && x != ')'
  {
    var bad := " \t\r\n\"()";
    assert bad[0] == ' ' && bad[1] == '\t' && bad[2] == '\r' && bad[3] == '\n' && bad[4] == '"' && bad[5] == '('
        && bad[6] == ')';
    assert forall i :: 0 <= i < |c| ==> c[i] !in bad;
  }

  lemma {:induction false} AllowedPart(c: string, i: nat, j: nat)
    requires ClientAllowed(c) && i <= j <= |c|
    ensures ClientAllowed(c[i..j])
  {
    var x := c[i..j];
    forall k | 0 <= k < |x|
      ensures x[k] !in " \t\r\n\"()"
    {
      assert x[k] == c[i + k];
    }
  }

  // ---- A client that is not readable -----------------------------------------

  /** If a client comes first it is everyone or a text of at most n characters. */
  predicate BeginsShort(r: Option<seq<Grant>>, n: int) {
    r.Some? && r.value != [] ==> r.value[0].client == "*" || |r.value[0].client| <= n
  }

  lemma {:induction false} HeadShort(w: string, ws: seq<string>, def: Opts, any: bool, n: int)
    requires !IsDefaults(w)
    requires ReadClient(w, def).Some? ==> ReadClient(w, def).value.client == "*" || |ReadClient(w, def).value.client| <= n
    ensures BeginsShort(ReadClients([w] + ws, def, any), n)
  {
    assert ([w] + ws)[1..] == ws;
  }

  lemma {:induction false} DefaultsShort(w: string, ws: seq<string>, def: Opts, any: bool, n: int)
    requires IsDefaults(w)
    requires ReadDefaults(w, def).Some? ==> BeginsShort(ReadClients(ws, ReadDefaults(w, def).value, any), n)
    ensures BeginsShort(ReadClients([w] + ws, def, any), n)
  {
    assert ([w] + ws)[1..] == ws;
  }

  lemma {:induction false} BadDefaults(w: string, ws: seq<string>, def: Opts, any: bool)
    requires IsDefaults(w) && '(' in w
    ensures ReadClients([w] + ws, def, any) == None
  {
  }

  lemma {:induction false} TokensSkip(x: char, t: string, strict: bool)
    requires AsciiSpace(x)
    ensures Tokens([x] + t, strict) == Tokens(t, strict)
  {
    assert ([x] + t)[1..] == t && ([x] + t)[0] == x && x != '#';
  }

  /** White space in front of a client's text is passed over. */
  lemma {:induction false} LeadingSpace(x: string, o: string, rest: string, strict: bool)
    requires x != "" && AsciiSpace(x[0])
    ensures Tokens(x + Bracketed(o) + rest, strict) == Tokens(x[1..] + Bracketed(o) + rest, strict)
  {
    var y := x[1..];
    TokensSkip(x[0], y + Bracketed(o) + rest, strict);
    assert x == [x[0]] + y;
    Associate([x[0]], y, Bracketed(o));
    Associate([x[0]], y + Bracketed(o), rest);
  }

  lemma {:induction false} EmptyRead(o: string, rest: string, strict: bool, def: Opts, any: bool)
    requires OptsText(o) && Ended(rest, strict)
    ensures BeginsShort(ReadClients(Tokens(Bracketed(o) + rest, strict), def, any), -1)
  {
    BracketBare(o, strict);
    TokensWord(Bracketed(o), rest, strict);
    ClientBracket("", o, def);
    assert "" + Bracketed(o) == Bracketed(o);
    HeadShort(Bracketed(o), Tokens(rest, strict), def, any, -1);
  }

  /** A client's text up to its end reads as everyone or as something no longer. */
  lemma {:induction false} PartRead(x: string, o: string, rest: string, strict: bool, def: Opts, any: bool)
    requires ClientAllowed(x) && OptsText(o) && Ended(rest, strict)
    ensures BeginsShort(ReadClients(Tokens(x + Bracketed(o) + rest, strict), def, any), |x|)
    decreases |x|, 1
  {
    if x == "" {
      EmptyRead(o, rest, strict, def, any);
      assert x + Bracketed(o) == Bracketed(o);
    } else if x[0] == '#' {
      Associate(x, Bracketed(o), rest);
      assert (x + (Bracketed(o) + rest))[0] == '#';
    } else if AsciiSpace(x[0]) {
      AllowedPart(x, 1, |x|);
      PartRead(x[1..], o, rest, strict, def, any);
      LeadingSpace(x, o, rest, strict);
    } else if Bare(x, strict) {
      WholeRead(x, o, rest, strict, def, any);
    } else {
      CutRead(x, o, rest, strict, def, any);
    }
  }

  lemma {:induction false} WholeTokens(x: string, o: string, rest: string, strict: bool)
    requires x != "" && x[0] != '#' && Bare(x, strict) && OptsText(o) && Ended(rest, strict)
    ensures Tokens(x + Bracketed(o) + rest, strict) == [x + Bracketed(o)] + Tokens(rest, strict)
  {
    BracketBare(o, strict);
    TokensWord(x + Bracketed(o), rest, strict);
  }

  lemma {:induction false} WholeRead(x: string, o: string, rest: string, strict: bool, def: Opts, any: bool)
    requires x != "" && x[0] != '#' && Bare(x, strict) && ClientAllowed(x) && OptsText(o) && Ended(rest, strict)
    ensures BeginsShort(ReadClients(Tokens(x + Bracketed(o) + rest, strict), def, any), |Unescape(x)|)
    ensures |Unescape(x)| <= |x|
  {
    ClientChars(x);
    WholeTokens(x, o, rest, strict);
    UnescapeShrinks(x);
    var w := x + Bracketed(o);
    if x[0] == '-' {
      assert w[|x|] == '(';
      BadDefaults(w, Tokens(rest, strict), def, any);
    } else {
      ClientBracket(x, o, def);
      HeadShort(w, Tokens(rest, strict), def, any, |Unescape(x)|);
    }
  }

  /** With a break inside the text only a part of it can come first. */
  lemma {:induction false} CutRead(x: string, o: string, rest: string, strict: bool, def: Opts, any: bool)
    requires ClientAllowed(x) && OptsText(o) && Ended(rest, strict)
    requires x != "" && x[0] != '#' && !AsciiSpace(x[0]) && !Bare(x, strict)
    ensures BeginsShort(ReadClients(Tokens(x + Bracketed(o) + rest, strict), def, any), |x| - 1)
    decreases |x|, 0
  {
    var n := TokenEnd(x, strict);
    assert x[..|x|] == x;
    var w, tail := x[..n], x[n..];
    CutTokens(x, o, rest, strict, n);
    var ts := Tokens(tail + Bracketed(o) + rest, strict);
    if IsDefaults(w) {
      AllowedPart(x, n, |x|);
      if ReadDefaults(w, def).Some? {
        PartRead(tail, o, rest, strict, ReadDefaults(w, def).value, any);
      }
      DefaultsShort(w, ts, def, any, |x| - 1);
    } else {
      ClientChars(x);
      assert forall y :: y in w ==> y in x;
      UnescapeShrinks(w);
      HeadShort(w, ts, def, any, |x| - 1);
    }
  }

  lemma {:induction false} CutTokens(x: string, o: string, rest: string, strict: bool, n: nat)
    requires x != "" && x[0] != '#' && !AsciiSpace(x[0]) && n == TokenEnd(x, strict) && n < |x|
    ensures n > 0
    ensures Tokens(x + Bracketed(o) + rest, strict) == [x[..n]] + Tokens(x[n..] + Bracketed(o) + rest, strict)
  {
    assert n > 0;
    assert x + Bracketed(o) + rest == x[..n] + (x[n..] + Bracketed(o) + rest);
    TokensWord(x[..n], x[n..] + Bracketed(o) + rest, strict);
  }

  lemma {:induction false} EveryoneReadable(strict: bool)
    ensures ClientReadable("*", strict)
  {
    assert "*"[0..] == "*";
  }

  predicate NotFirst(r: Option<seq<Grant>>, c: string) {
    r.Some? && r.value != [] ==> r.value[0].client != c
  }

  lemma {:induction false} ShortNotFirst(r: Option<seq<Grant>>, n: int, c: string)
    ensures BeginsShort(r, n) && n < |c| && c != "*" ==> NotFirst(r, c)
  {
  }

  lemma {:induction false} HashDiffers(c: string, t: string, strict: bool, any: bool)
    requires c != "" && c[0] == '#'
    ensures NotFirst(ReadClients(Tokens(c + t, strict), DEFAULTS, any), c)
  {
    assert (c + t)[0] == '#' && c[0] != "*"[0];
  }

  lemma {:induction false} SpaceDiffers(c: string, o: string, rest: string, strict: bool, any: bool)
    requires ClientAllowed(c) && c != "" && AsciiSpace(c[0]) && OptsText(o) && Ended(rest, strict)
    ensures NotFirst(ReadClients(Tokens(c + Bracketed(o) + rest, strict), DEFAULTS, any), c)
  {
    var x := c[1..];
    AllowedPart(c, 1, |c|);
    PartRead(x, o, rest, strict, DEFAULTS, any);
    LeadingSpace(c, o, rest, strict);
    assert c[0] != '*';
    ShortNotFirst(ReadClients(Tokens(c + Bracketed(o) + rest, strict), DEFAULTS, any), |x|, c);
  }

  lemma {:induction false} EmptyDiffers(o: string, rest: string, strict: bool, any: bool)
    requires OptsText(o) && Ended(rest, strict)
    ensures NotFirst(ReadClients(Tokens("" + Bracketed(o) + rest, strict), DEFAULTS, any), "")
  {
    EmptyRead(o, rest, strict, DEFAULTS, any);
    assert "" + Bracketed(o) == Bracketed(o);
    ShortNotFirst(ReadClients(Tokens(Bracketed(o) + rest, strict), DEFAULTS, any), -1, "");
  }

  lemma {:induction false} CutDiffers(c: string, o: string, rest: string, strict: bool, any: bool)
    requires ClientAllowed(c) && OptsText(o) && Ended(rest, strict)
    requires c != "" && c[0] != '#' && !AsciiSpace(c[0]) && !Bare(c, strict)
    ensures NotFirst(ReadClients(Tokens(c + Bracketed(o) + rest, strict), DEFAULTS, any), c)
  {
    CutRead(c, o, rest, strict, DEFAULTS, any);
    EveryoneReadable(strict);
    ShortNotFirst(ReadClients(Tokens(c + Bracketed(o) + rest, strict), DEFAULTS, any), |c| - 1, c);
  }

  lemma {:induction false} OctalDiffers(c: string, o: string, rest: string, strict: bool, any: bool)
    requires ClientAllowed(c) && OptsText(o) && Ended(rest, strict)
    requires c != "" && c[0] != '#' && Bare(c, strict) && !NoOctal(c)
    ensures NotFirst(ReadClients(Tokens(c + Bracketed(o) + rest, strict), DEFAULTS, any), c)
  {
    WholeRead(c, o, rest, strict, DEFAULTS, any);
    UnescapeShrinks(c);
    EveryoneReadable(strict);
    ShortNotFirst(ReadClients(Tokens(c + Bracketed(o) + rest, strict), DEFAULTS, any), |Unescape(c)|, c);
  }

  lemma {:induction false} DashDiffers(c: string, o: string, rest: string, strict: bool, any: bool)
    requires c != "" && c[0] == '-' && Bare(c, strict) && OptsText(o) && Ended(rest, strict)
    ensures NotFirst(ReadClients(Tokens(c + Bracketed(o) + rest, strict), DEFAULTS, any), c)
  {
    WholeTokens(c, o, rest, strict);
    assert (c + Bracketed(o))[|c|] == '(';
    BadDefaults(c + Bracketed(o), Tokens(rest, strict), DEFAULTS, any);
  }

  /** A client that is not readable never comes first in what is read. */
  lemma {:induction false} UnreadableDiffers(c: string, o: string, rest: string, strict: bool, any: bool)
    requires ClientAllowed(c) && !ClientReadable(c, strict) && OptsText(o) && Ended(rest, strict)
    ensures NotFirst(ReadClients(Tokens(c + Bracketed(o) + rest, strict), DEFAULTS, any), c)
  {
    if c == "" {
      EmptyDiffers(o, rest, strict, any);
    } else if c[0] == '#' {
      Associate(c, Bracketed(o), rest);
      HashDiffers(c, Bracketed(o) + rest, strict, any);
    } else if AsciiSpace(c[0]) {
      SpaceDiffers(c, o, rest, strict, any);
    } else if !Bare(c, strict) {
      CutDiffers(c, o, rest, strict, any);
    } else if c[0] == '-' {
      DashDiffers(c, o, rest, strict, any);
    } else {
      OctalDiffers(c, o, rest, strict, any);
    }
  }

  /** A readable client reads back with its options. */
  lemma {:induction false} ReadableRead(c: string, o: string, rest: string, strict: bool, x: Opts, any: bool)
    requires ClientReadable(c, strict) && '(' !in c && OptsText(o) && Ended(rest, strict)
    requires ReadOpts(o) == Some(x)
    ensures ReadClients(Tokens(c + Bracketed(o) + rest, strict), DEFAULTS, any)
            == Cons(Some(Grant(c, x)), ReadClients(Tokens(rest, strict), DEFAULTS, true))
  {
    WholeTokens(c, o, rest, strict);
    ClientBracket(c, o, DEFAULTS);
    UnescapeShrinks(c);
    var w, ts := c + Bracketed(o), Tokens(rest, strict);
    assert ([w] + ts)[1..] == ts;
  }

  // ---- All clients of a line -------------------------------------------------

  /** What the entries mean: allowed clients whose printed options decode. */
  predicate Means(es: seq<Entry>, gs: seq<Grant>) {
    |es| == |gs| && forall i :: 0 <= i < |es| ==> MeansOne(es[i], gs[i])
  }

  predicate MeansOne(e: Entry, g: Grant) {
    ClientAllowed(e.client) && Known(e.toks) && g.client == e.client && Decode(e.toks, DEFAULTS, {}) == Some(g.opts)
  }

  predicate EntriesReadable(es: seq<Entry>, strict: bool) {
    forall i :: 0 <= i < |es| ==> ClientReadable(es[i].client, strict)
  }

  lemma {:induction false} PrintedText(e: Entry, g: Grant)
    requires MeansOne(e, g)
    ensures var o := Join(PrintToks(e.toks), ',');
            OptsText(o) && ReadOpts(o) == Some(g.opts) && PrintEntry(e) == e.client + Bracketed(o)
  {
    PrintedOpts(e.toks);
  }

  lemma {:induction false} RestEnded(es: seq<Entry>, strict: bool)
    ensures Ended(PrintEntries(es), strict)
  {
  }

  lemma {:induction false} SkipBlank(t: string, strict: bool)
    ensures Tokens(" " + t, strict) == Tokens(t, strict)
  {
    assert (" " + t)[1..] == t;
  }

  lemma {:induction false} ConsIff(g: Grant, r: Option<seq<Grant>>, gs: seq<Grant>)
    ensures Cons(Some(g), r) == Some([g] + gs) <==> r == Some(gs)
  {
    if r.Some? && [g] + r.value == [g] + gs {
      assert r.value == ([g] + r.value)[1..] == ([g] + gs)[1..] == gs;
    }
  }

  lemma {:induction false} FirstEntry(es: seq<Entry>, gs: seq<Grant>, strict: bool, any: bool)
    requires Means(es, gs) && es != []
    ensures var r := ReadClients(Tokens(PrintEntries(es), strict), DEFAULTS, any);
            if ClientReadable(es[0].client, strict)
            then r == Cons(Some(gs[0]), ReadClients(Tokens(PrintEntries(es[1..]), strict), DEFAULTS, true))
            else r != Some(gs)
  {
    var e, rest := es[0], PrintEntries(es[1..]);
    assert MeansOne(e, gs[0]);
    var o := Join(PrintToks(e.toks), ',');
    PrintedText(e, gs[0]);
    RestEnded(es[1..], strict);
    assert PrintEntries(es) == " " + (e.client + Bracketed(o) + rest);
    SkipBlank(e.client + Bracketed(o) + rest, strict);
    if ClientReadable(e.client, strict) {
      ClientChars(e.client);
      ReadableRead(e.client, o, rest, strict, gs[0].opts, any);
    } else {
      UnreadableDiffers(e.client, o, rest, strict, any);
    }
  }

  lemma {:induction false} MeansTail(es: seq<Entry>, gs: seq<Grant>)
    requires Means(es, gs) && es != []
    ensures Means(es[1..], gs[1..]) && gs == [gs[0]] + gs[1..]
  {
  }

  /** The clients read back exactly when each is readable and there is one. */
  lemma {:induction false} EntriesIff(es: seq<Entry>, gs: seq<Grant>, strict: bool, any: bool)
    requires Means(es, gs)
    ensures ReadClients(Tokens(PrintEntries(es), strict), DEFAULTS, any) == Some(gs)
            <==> EntriesReadable(es, strict) && (any || es != [])
    decreases es
  {
    if es != [] {
      MeansTail(es, gs);
      EntriesIff(es[1..], gs[1..], strict, true);
      FirstEntry(es, gs, strict, any);
      ConsIff(gs[0], ReadClients(Tokens(PrintEntries(es[1..]), strict), DEFAULTS, true), gs[1..]);
      ReadableCons(es, strict);
    }
  }

  lemma {:induction false} ReadableCons(es: seq<Entry>, strict: bool)
    requires es != []
    ensures EntriesReadable(es, strict) <==> ClientReadable(es[0].client, strict) && EntriesReadable(es[1..], strict)
  {
    assert forall i :: 0 < i < |es| ==> es[i] == es[1..][i - 1];
  }

  // ---- The path --------------------------------------------------------------

  /** A path that %q leaves as it is. */
  predicate Unescaped(path: string) {
    forall i :: 0 <= i < |path| ==> QuoteChar(path[i]) == [path[i]]
  }

  lemma {:induction false} QuoteCharCases(c: char)
    ensures QuoteChar(c) == [c] || (|QuoteChar(c)| >= 2 && QuoteChar(c)[0] == '\\' && !('0' <= QuoteChar(c)[1] <= '7'))
    ensures QuoteChar(c) == [c] ==> c != '\\' && c != '"' && c != '\n'
    ensures QuoteChar('\\') == "\\\\"
  {
  }

  lemma {:induction false} QuoteCons(c: char, r: string)
    ensures QuoteChars([c] + r) == QuoteChar(c) + QuoteChars(r)
  {
    assert ([c] + r)[1..] == r;
  }

  lemma {:induction false} UnescapePast(c: char, r: string)
    requires c != '\\' || !OctalAt([c] + r)
    ensures Unescape([c] + r) == [c] + Unescape(r)
  {
    assert ([c] + r)[1..] == r;
  }

  /** A character that %q escapes reads back as a backslash first. */
  lemma {:induction false} EscapedStart(c: char, r: string)
    requires QuoteChar(c) != [c]
    ensures var u := Unescape(QuoteChars([c] + r)); u != "" && u[0] == '\\'
  {
    QuoteCharCases(c);
    QuoteCons(c, r);
    var q := QuoteChar(c) + QuoteChars(r);
    assert q[1] == QuoteChar(c)[1] && !OctalAt(q);
  }

  lemma {:induction false} PlainStart(c: char, r: string)
    requires QuoteChar(c) == [c]
    ensures Unescape(QuoteChars([c] + r)) == [c] + Unescape(QuoteChars(r))
  {
    QuoteCharCases(c);
    QuoteCons(c, r);
    UnescapePast(c, QuoteChars(r));
  }

  /** Quoting and reading back does not put "60" or "06" in front of a text. */
  lemma {:induction false} NotShifted(r: string, a: char, b: char)
    requires (a == '6' && b == '0') || (a == '0' && b == '6')
    ensures Unescape(QuoteChars(r)) != [a, b] + r
    decreases |r|
  {
    if r != "" {
      var c, t := r[0], r[1..];
      assert r == [c] + t;
      if QuoteChar(c) == [c] {
        PlainStart(c, t);
        NotShifted(t, b, a);
        assert ([c] + Unescape(QuoteChars(t)))[1..] == Unescape(QuoteChars(t));
        assert ([a, b] + r)[1..] == [b, c] + t;
      } else {
        EscapedStart(c, t);
      }
    }
  }

  /** The number of backslashes in front. */
  function Lead(s: string): nat {
    if s != "" && s[0] == '\\' then 1 + Lead(s[1..]) else 0
  }

  function AfterBackslash(r: string): string {
    Unescape("\\" + QuoteChars(r))
  }

  lemma {:induction false} QuotedBackslash(r: string)
    ensures QuoteChars("\\" + r) == "\\" + ("\\" + QuoteChars(r))
    ensures Unescape(QuoteChars("\\" + r)) == "\\" + AfterBackslash(r)
  {
    QuoteCharCases('\\');
    QuoteCons('\\', r);
    UnescapePast('\\', "\\" + QuoteChars(r));
  }

  lemma {:induction false} LeadGrows(r: string)
    ensures Lead(AfterBackslash(r)) >= 2 * Lead(r)
    decreases |r|
  {
    if r != "" && r[0] == '\\' {
      var t := r[1..];
      assert r == "\\" + t;
      LeadGrows(t);
      QuotedBackslash(t);
      UnescapePast('\\', QuoteChars(r));
      assert AfterBackslash(r) == "\\" + ("\\" + AfterBackslash(t));
      assert ("\\" + ("\\" + AfterBackslash(t)))[1..] == "\\" + AfterBackslash(t);
      assert ("\\" + AfterBackslash(t))[1..] == AfterBackslash(t);
    }
  }

  predicate Digits3(d: string) {
    |d| >= 3 && '0' <= d[0] <= '3' && '0' <= d[1] <= '7' && '0' <= d[2] <= '7'
  }

  lemma {:induction false} OctalIsDigits(d: string)
    ensures OctalAt("\\" + d) <==> Digits3(d)
    ensures Digits3(d) ==> Octal("\\" + d) as int == 64 * (d[0] - '0') as int + 8 * (d[1] - '0') as int + (d[2] - '0') as int
  {
    var s := "\\" + d;
    assert forall i :: 0 <= i < |d| ==> s[i + 1] == d[i];
  }

  lemma {:induction false} ThreeDigits(r: string)
    requires Digits3(QuoteChars(r))
    ensures Digits3(r) && QuoteChars(r) == r[..3] + QuoteChars(r[3..])
  {
    QuotedDigit(r);
    var r1 := r[1..];
    assert QuoteChars(r1) == QuoteChars(r)[1..];
    QuotedDigit(r1);
    var r2 := r1[1..];
    assert QuoteChars(r2) == QuoteChars(r1)[1..];
    QuotedDigit(r2);
    assert r2[1..] == r[3..] && r[..3] == [r[0], r1[0], r2[0]];
  }

  lemma {:induction false} OctalDigits(r: string)
    requires OctalAt("\\" + QuoteChars(r))
    ensures Digits3(r) && QuoteChars(r) == r[..3] + QuoteChars(r[3..])
    ensures OctalAt("\\" + r) && Octal("\\" + QuoteChars(r)) == Octal("\\" + r)
  {
    OctalIsDigits(QuoteChars(r));
    ThreeDigits(r);
    OctalIsDigits(r);
    assert forall i :: 0 <= i < 3 ==> QuoteChars(r)[i] == r[i];
  }

  /** A quoted text that starts with a digit is the quotation of one that does. */
  lemma {:induction false} QuotedDigit(r: string)
    requires QuoteChars(r) != "" && '0' <= QuoteChars(r)[0] <= '7'
    ensures r != "" && QuoteChars(r) == [r[0]] + QuoteChars(r[1..])
  {
    QuoteCharCases(r[0]);
  }

  lemma {:induction false} OctalValue(r: string)
    requires OctalAt("\\" + r) && Octal("\\" + r) == r[0]
    ensures r[0] == '0' && r[1] == '6' && r[2] == '0'
  {
    var s := "\\" + r;
    assert s[1] == r[0] && s[2] == r[1] && s[3] == r[2];
  }

  lemma {:induction false} BackslashDiffers(r: string)
    ensures AfterBackslash(r) != r
  {
    var t := "\\" + QuoteChars(r);
    if r != "" && r[0] == '\\' {
      LeadGrows(r);
    } else if OctalAt(t) {
      OctalDigits(r);
      var r1 := r[3..];
      assert t[4..] == QuoteChars(r1);
      assert AfterBackslash(r) == [Octal("\\" + r)] + Unescape(QuoteChars(r1));
      assert AfterBackslash(r)[1..] == Unescape(QuoteChars(r1));
      assert r == [r[0]] + ([r[1], r[2]] + r1);
      assert r[1..] == [r[1], r[2]] + r1;
      if Octal("\\" + r) == r[0] {
        OctalValue(r);
        NotShifted(r1, '6', '0');
      }
    } else {
      UnescapePast('\\', QuoteChars(r));
    }
  }

  /** A path reads back exactly when %q leaves it as it is. */
  lemma {:induction false} PathBack(p: string)
    ensures Unescape(QuoteChars(p)) == p <==> Unescaped(p)
    decreases |p|
  {
    if p != "" {
      var c, r := p[0], p[1..];
      assert p == [c] + r;
      UnescapedCons(c, r);
      if QuoteChar(c) == [c] {
        PathBack(r);
        PlainStart(c, r);
        assert ([c] + Unescape(QuoteChars(r)))[1..] == Unescape(QuoteChars(r));
      } else if c == '\\' {
        QuotedBackslash(r);
        BackslashDiffers(r);
        assert ("\\" + AfterBackslash(r))[1..] == AfterBackslash(r) && p[1..] == r;
      } else {
        EscapedStart(c, r);
      }
    }
  }

  lemma {:induction false} UnescapedCons(c: char, r: string)
    ensures Unescaped([c] + r) <==> QuoteChar(c) == [c] && Unescaped(r)
  {
    var p := [c] + r;
    assert p[0] == c && forall i :: 0 <= i < |r| ==> p[i + 1] == r[i];
    assert forall i :: 0 < i < |p| ==> p[i] == r[i - 1];
  }

  lemma {:induction false} NoQuote(p: string)
    requires '"' !in p && '\n' !in p
    ensures '"' !in QuoteChars(p) && '\n' !in QuoteChars(p)
  {
    if p != "" {
      NoQuote(p[1..]);
      EscapeChars(p[0]);
    }
  }

  lemma {:induction false} EscapeChars(c: char)
    requires c != '"' && c != '\n'
    ensures '"' !in QuoteChar(c) && '\n' !in QuoteChar(c)
  {
    HexChars(c as int, 2);
    HexChars(c as int, 4);
  }

  lemma {:induction false} HexChars(n: nat, digits: nat)
    ensures '"' !in Hex(n, digits) && '\n' !in Hex(n, digits)
  {
    if digits > 0 {
      HexChars(n / 16, digits - 1);
    }
  }

  // ---- Lines and files -------------------------------------------------------

  /** strconv.IsPrint, on which %q depends, is modelled up to U+0377. */
  predicate PathKnown(p: string) {
    forall i :: 0 <= i < |p| ==> p[i] <= '\U{377}'
  }

  predicate PathReadable(p: string) {
    HasPrefix(p, "/") && Unescaped(p)
  }

  lemma {:induction false} QuotedParts(q: string, rest: string, strict: bool)
    requires '"' !in q
    ensures ReadLine("\"" + q + "\"" + rest, strict) == ReadRest(Unescape(q), rest, strict)
  {
    var l := "\"" + q + "\"" + rest;
    assert l[1..] == q + ['"'] + rest;
    IndexOfAt(q, '"', rest);
    assert l[1..|q| + 1] == q && l[|q| + 2..] == rest;
  }

  lemma {:induction false} LineParts(path: string, rest: string, strict: bool)
    requires '"' !in path && '\n' !in path
    ensures ReadLine(Quote(path) + rest, strict) == ReadRest(Unescape(QuoteChars(path)), rest, strict)
  {
    NoQuote(path);
    QuotedParts(QuoteChars(path), rest, strict);
  }

  lemma {:induction false} RestBlank(es: seq<Entry>)
    ensures PrintEntries(es) == "" || PrintEntries(es)[0] == ' '
  {
  }

  /** One line reads back exactly when its path and each of its clients do. */
  lemma {:induction false} LineIff(path: string, es: seq<Entry>, gs: seq<Grant>, strict: bool)
    requires '"' !in path && '\n' !in path && es != [] && Means(es, gs)
    ensures ReadLine(Quote(path) + PrintEntries(es), strict) == Some(Export(path, gs))
            <==> PathReadable(path) && EntriesReadable(es, strict)
  {
    LineParts(path, PrintEntries(es), strict);
    RestBlank(es);
    PathBack(path);
    EntriesIff(es, gs, strict, false);
  }

  lemma {:induction false} RulesMean(rs: seq<NfsRule>)
    requires forall e :: e in RuleEntries(rs) ==> ClientAllowed(e.client)
    ensures Means(RuleEntries(rs), RuleGrants(rs))
  {
    if rs != [] {
      var es := RuleEntries(rs);
      assert es[1..] == RuleEntries(rs[1..]);
      assert forall e :: e in es[1..] ==> e in es;
      RulesMean(rs[1..]);
      assert es[0] in es;
      RuleToksKnown(rs[0]);
      DecodeRule(rs[0]);
      MeansCons(es[0], Grant(RuleClient(rs[0]), RuleMeaning(rs[0])), es[1..], RuleGrants(rs[1..]));
      assert es == [es[0]] + es[1..];
    }
  }

  lemma {:induction false} MeansCons(e: Entry, g: Grant, es: seq<Entry>, gs: seq<Grant>)
    requires Means(es, gs) && MeansOne(e, g)
    ensures Means([e] + es, [g] + gs)
  {
  }

  lemma {:induction false} HostsMean(hosts: seq<string>, readOnly: bool)
    requires forall e :: e in HostEntries(hosts, readOnly) ==> ClientAllowed(e.client)
    ensures Means(HostEntries(hosts, readOnly), HostGrants(hosts, readOnly))
  {
    if hosts != [] {
      var es := HostEntries(hosts, readOnly);
      assert es[1..] == HostEntries(hosts[1..], readOnly);
      assert forall e :: e in es[1..] ==> e in es;
      HostsMean(hosts[1..], readOnly);
      assert es[0] in es;
      DecodeLegacy(readOnly);
      MeansCons(es[0], Grant(hosts[0], LegacyMeaning(readOnly)), es[1..], HostGrants(hosts[1..], readOnly));
      assert es == [es[0]] + es[1..];
    }
  }

  /** What ApplyNFS checks of a share before it writes the line. */
  predicate ShareAllowed(s: Share, decode: Decoder) {
    '"' !in s.path && '\n' !in s.path && forall e :: e in Entries(s, decode) ==> ClientAllowed(e.client)
  }

  predicate ShareReadable(s: Share, decode: Decoder, strict: bool) {
    PathReadable(s.path) && EntriesReadable(Entries(s, decode), strict)
  }

  lemma {:induction false} EntriesMean(s: Share, decode: Decoder)
    requires ShareAllowed(s, decode)
    ensures Entries(s, decode) != [] && Means(Entries(s, decode), Meaning(s, decode).grants)
  {
    var rules := decode(s.config).rules;
    if rules != [] {
      RulesMean(rules);
    } else {
      HostsMean(if s.allowedIPs == [] then ["*"] else s.allowedIPs, s.readOnly);
    }
  }

  /** The line of a share that the code writes reads back to the share exactly when it is readable. */
  lemma {:induction false} ShareLineIff(s: Share, decode: Decoder, strict: bool)
    requires ShareAllowed(s, decode) && PathKnown(s.path)
    ensures ReadLine(ExportLine(s, decode), strict) == Some(Meaning(s, decode)) <==> ShareReadable(s, decode, strict)
  {
    EntriesMean(s, decode);
    LineIff(s.path, Entries(s, decode), Meaning(s, decode).grants, strict);
  }

  predicate AllWritten(all: seq<Share>, decode: Decoder) {
    forall s :: s in all && Exported(s) ==> ShareAllowed(s, decode) && PathKnown(s.path)
  }

  predicate AllReadable(all: seq<Share>, decode: Decoder, strict: bool) {
    forall s :: s in all && Exported(s) ==> ShareReadable(s, decode, strict)
  }

  lemma {:induction false} EntryUnbroken(e: Entry, g: Grant)
    requires MeansOne(e, g)
    ensures '\n' !in PrintEntry(e)
  {
    ClientChars(e.client);
    PrintedText(e, g);
    var o := Join(PrintToks(e.toks), ',');
    assert '\n' !in o;
  }

  lemma {:induction false} EntriesUnbroken(es: seq<Entry>, gs: seq<Grant>)
    requires Means(es, gs)
    ensures '\n' !in PrintEntries(es)
    decreases es
  {
    if es != [] {
      MeansTail(es, gs);
      EntriesUnbroken(es[1..], gs[1..]);
      assert MeansOne(es[0], gs[0]);
      EntryUnbroken(es[0], gs[0]);
    }
  }

  lemma {:induction false} LineUnbroken(s: Share, decode: Decoder)
    requires ShareAllowed(s, decode)
    ensures var l := ExportLine(s, decode); '\n' !in l && l != "" && l[0] == '"'
  {
    EntriesMean(s, decode);
    EntriesUnbroken(Entries(s, decode), Meaning(s, decode).grants);
    NoQuote(s.path);
  }

  lemma {:induction false} LineStep(l: string, rest: seq<string>, strict: bool)
    requires l != "" && l[0] == '"'
    ensures ReadLines([l] + rest, strict) ==
            match (ReadLine(l, strict), ReadLines(rest, strict))
            case (Some(e), Some(es)) => Some([e] + es)
            case _ => None
  {
    assert ([l] + rest)[1..] == rest;
  }

  lemma {:induction false} LinesCons(l: string, rest: seq<string>, e: Export, es: seq<Export>, strict: bool)
    requires l != "" && l[0] == '"'
    ensures ReadLines([l] + rest, strict) == Some([e] + es)
            <==> ReadLine(l, strict) == Some(e) && ReadLines(rest, strict) == Some(es)
  {
    LineStep(l, rest, strict);
    match (ReadLine(l, strict), ReadLines(rest, strict))
    case (Some(d), Some(ds)) =>
      assert ([d] + ds)[1..] == ds && ([e] + es)[1..] == es && ([d] + ds)[0] == d && ([e] + es)[0] == e;
    case _ =>
  }

  lemma {:induction false} ExportedStep(s: Share, ls: seq<string>, ms: seq<Export>, decode: Decoder, strict: bool)
    requires ShareAllowed(s, decode) && PathKnown(s.path)
    ensures ReadLines([ExportLine(s, decode)] + ls, strict) == Some([Meaning(s, decode)] + ms)
            <==> ShareReadable(s, decode, strict) && ReadLines(ls, strict) == Some(ms)
    ensures '\n' !in ExportLine(s, decode)
  {
    LineUnbroken(s, decode);
    ShareLineIff(s, decode, strict);
    LinesCons(ExportLine(s, decode), ls, Meaning(s, decode), ms, strict);
  }

  lemma {:induction false} LinesHead(all: seq<Share>, decode: Decoder)
    requires all != []
    ensures var ls := ExportLines(all[1..], decode); var ms := Meanings(all[1..], decode);
            if Exported(all[0])
            then ExportLines(all, decode) == [ExportLine(all[0], decode)] + ls
                 && Meanings(all, decode) == [Meaning(all[0], decode)] + ms
            else ExportLines(all, decode) == ls && Meanings(all, decode) == ms
  {
    var ls, ms := ExportLines(all[1..], decode), Meanings(all[1..], decode);
    assert [] + ls == ls && [] + ms == ms;
  }

  lemma {:induction false} ReadableHead(all: seq<Share>, decode: Decoder, strict: bool)
    requires all != []
    ensures AllReadable(all, decode, strict)
            <==> (Exported(all[0]) ==> ShareReadable(all[0], decode, strict)) && AllReadable(all[1..], decode, strict)
    ensures AllWritten(all, decode)
            <==> (Exported(all[0]) ==> ShareAllowed(all[0], decode) && PathKnown(all[0].path))
                 && AllWritten(all[1..], decode)
  {
    assert forall t :: t in all <==> t == all[0] || t in all[1..];
  }

  lemma {:induction false} LinesIff(all: seq<Share>, decode: Decoder, strict: bool)
    requires AllWritten(all, decode)
    ensures ReadLines(ExportLines(all, decode) + [""], strict) == Some(Meanings(all, decode)) <==> AllReadable(all, decode, strict)
    ensures forall l :: l in ExportLines(all, decode) ==> '\n' !in l
    decreases all
  {
    if all == [] {
      assert [] + [""] == [""] && [""][1..] == [];
    } else {
      ReadableHead(all, decode, strict);
      LinesIff(all[1..], decode, strict);
      LinesHead(all, decode);
      if Exported(all[0]) {
        Associate([ExportLine(all[0], decode)], ExportLines(all[1..], decode), [""]);
        ExportedStep(all[0], ExportLines(all[1..], decode) + [""], Meanings(all[1..], decode), decode, strict);
      }
    }
  }

  lemma {:induction false} CommentSkipped(h: string, body: seq<string>, strict: bool)
    requires '\n' !in h && h != "" && h[0] == '#' && forall l :: l in body ==> '\n' !in l
    ensures ReadExports(Join([h] + body, '\n'), strict) == ReadLines(body, strict)
  {
    var ls := [h] + body;
    forall i | 0 <= i < |ls|
      ensures '\n' !in ls[i]
    {
      assert i > 0 ==> ls[i] == body[i - 1];
    }
    SplitJoin(ls, '\n');
    assert ls[1..] == body;
  }

  lemma {:induction false} HeaderOk()
    ensures '\n' !in NFS_HEADER && NFS_HEADER != "" && NFS_HEADER[0] == '#'
  {
  }

  /**
   * The file that the code writes reads back to exactly the enabled NFS shares, in order and
   * each with its clients and their options, if and only if every path is left alone by %q
   * and every client is one word that is neither a comment nor a list of default options.
   */
  lemma {:induction false} ExportsReadBackIff(all: seq<Share>, decode: Decoder, strict: bool)
    requires AllWritten(all, decode)
    ensures ReadExports(RenderNfs(all, decode), strict) == Some(Meanings(all, decode)) <==> AllReadable(all, decode, strict)
  {
    LinesIff(all, decode, strict);
    var body := ExportLines(all, decode) + [""];
    assert [NFS_HEADER] + ExportLines(all, decode) + [""] == [NFS_HEADER] + body;
    HeaderOk();
    CommentSkipped(NFS_HEADER, body, strict);
  }

  // ---- Clients that the code lets through ------------------------------------

  /** A first client that starts with '#' leaves a share exported to everyone. */
  lemma {:induction false} HashOpensShare(path: string, es: seq<Entry>, strict: bool)
    requires PathReadable(path) && '"' !in path && '\n' !in path
    requires es != [] && es[0].client != "" && es[0].client[0] == '#'
    ensures ReadLine(Quote(path) + PrintEntries(es), strict) == Some(Export(path, [Grant("*", DEFAULTS)]))
  {
    LineParts(path, PrintEntries(es), strict);
    RestBlank(es);
    PathBack(path);
    HashTokens(es, strict);
  }

  lemma {:induction false} HashTokens(es: seq<Entry>, strict: bool)
    requires es != [] && es[0].client != "" && es[0].client[0] == '#'
    ensures Tokens(PrintEntries(es), strict) == []
  {
    var t := PrintEntry(es[0]) + PrintEntries(es[1..]);
    assert PrintEntries(es) == " " + t;
    SkipBlank(t, strict);
    assert t[0] == '#';
  }

  /** Such clients are accepted, and so is a client that reads as default options. */
  lemma {:induction false} HashAllowed()
    ensures ClientAllowed("#x") && !ClientReadable("#x", false)
    ensures ClientAllowed("-ro") && !ClientReadable("-ro", false)
    ensures ClientAllowed("a\U{B}b") && !ClientReadable("a\U{B}b", false)
  {
    assert !AsciiSpace('a') && AsciiSpace("a\U{B}b"[1]);
  }
}
