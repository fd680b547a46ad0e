/**
 * What the configuration parser (yaml.go) makes of files: comments change nothing, and a
 * printed two-level file gives back every known key exactly when its values are readable.
 */
module ConfigPrint {
  import opened GoStrings
  import opened Options
  import opened ConfigYaml

  // ---- Blank lines and comments ----------------------------------------------

  /** Cutting carriage returns from the end keeps everything up to another character. */
  lemma {:induction false} ChompKeeps(raw: string, i: nat)
    requires i < |raw| && raw[i] != '\r'
    ensures |Chomp(raw)| > i
  {
    if raw[|raw| - 1] == '\r' {
      ChompKeeps(raw[..|raw| - 1], i);
    }
  }

  lemma {:induction false} BlankTrimmed(s: string)
    requires AllSpace(s)
    ensures TrimSpace(s) == ""
  {
    TrimLeftPadded(s, "");
    assert s + "" == s;
  }

  lemma {:induction false} ItemsAppend(xs: seq<string>, ys: seq<string>, read: string -> Item)
    ensures Items(xs + ys, read) == Items(xs, read) + Items(ys, read)
  {
  }

  lemma {:induction false} SkippedItem(xs: seq<Item>, ys: seq<Item>, section: string)
    ensures Triples(xs + [Skip] + ys, section) == Triples(xs + ys, section)
  {
    TriplesAppend(xs, [Skip] + ys, section);
    TriplesAppend(xs, ys, section);
    assert xs + [Skip] + ys == xs + ([Skip] + ys);
    assert ([Skip] + ys)[1..] == ys;
  }

  lemma {:induction false} SkippedLine(xs: seq<string>, c: string, ys: seq<string>, read: string -> Item,
        section: string)
    requires read(c) == Skip
    ensures Triples(Items(xs + [c] + ys, read), section) == Triples(Items(xs + ys, read), section)
  {
    assert Items(xs + [c] + ys, read) == Items(xs, read) + [Skip] + Items(ys, read);
    ItemsAppend(xs, ys, read);
    SkippedItem(Items(xs, read), Items(ys, read), section);
  }

  predicate LineTexts(ls: seq<string>) {
    forall i :: 0 <= i < |ls| ==> '\n' !in ls[i]
  }

  lemma {:induction false} LinesOf(ls: seq<string>, read: string -> Item)
    requires ls != [] && LineTexts(ls)
    ensures AssignmentsBy(Join(ls, '\n'), read) == Triples(Items(ls, read), "")
  {
    SplitJoin(ls, '\n');
  }

  /** Nothing but white space before the comment, if any. */
  predicate Ignored(c: string) {
    AllSpace(Uncommented(c))
  }

  lemma {:induction false} ChompedIgnored(c: string)
    requires Ignored(c)
    ensures Ignored(Chomp(c))
  {
    var i, line := IndexOf(c, '#'), Chomp(c);
    if i >= 0 {
      ChompKeeps(c, i);
      assert line == c[..i] + ['#'] + line[i + 1..];
      IndexOfAt(c[..i], '#', line[i + 1..]);
    }
  }

  lemma {:induction false} IgnoredSkipped(c: string)
    requires Ignored(c)
    ensures ReadItem(c) == Skip
  {
    ChompedIgnored(c);
    BlankTrimmed(Uncommented(Chomp(c)));
  }

  lemma {:induction false} InsertedSkip(xs: seq<string>, c: string, ys: seq<string>, read: string -> Item)
    requires LineTexts(xs) && LineTexts(ys) && '\n' !in c && xs + ys != [] && read(c) == Skip
    ensures AssignmentsBy(Join(xs + [c] + ys, '\n'), read) == AssignmentsBy(Join(xs + ys, '\n'), read)
  {
    LinesOf(xs + [c] + ys, read);
    LinesOf(xs + ys, read);
    SkippedLine(xs, c, ys, read, "");
  }

  /** Inserting a blank or comment line anywhere changes nothing. */
  lemma {:induction false} InsertedLine(xs: seq<string>, c: string, ys: seq<string>)
    requires LineTexts(xs) && LineTexts(ys) && '\n' !in c && xs + ys != [] && Ignored(c)
    ensures Assignments(Join(xs + [c] + ys, '\n')) == Assignments(Join(xs + ys, '\n'))
  {
    IgnoredSkipped(c);
    InsertedSkip(xs, c, ys, ReadItem);
  }

  // ---- Printed files ---------------------------------------------------------

  predicate IsQuote(c: char) {
    c == '"' || c == '\''
  }

  /** No quote at either end. */
  predicate Bare(v: string) {
    v == "" || (!IsQuote(v[0]) && !IsQuote(v[|v| - 1]))
  }

  /** What a quoted value must satisfy to be read back. */
  predicate Readable(v: string) {
    '#' !in v && '\n' !in v && Bare(v)
  }

  predicate PlainName(s: string) {
    s != "" && '#' !in s && ':' !in s && '\n' !in s && !IsSpace(s[0]) && !IsSpace(s[|s| - 1])
  }

  lemma {:induction false} CutLeftStops(s: string, cut: string)
    ensures var r := TrimCutLeft(s, cut); r == "" || r[0] !in cut
  {
    if s != "" && s[0] in cut {
      CutLeftStops(s[1..], cut);
    }
  }

  lemma {:induction false} CutRightStops(s: string, cut: string)
    ensures var r := TrimCutRight(s, cut); r == "" || r[|r| - 1] !in cut
  {
    if s != "" && s[|s| - 1] in cut {
      CutRightStops(s[..|s| - 1], cut);
    }
  }

  lemma {:induction false} TrimStops(s: string, cut: string)
    ensures var r := Trim(s, cut); r == "" || (r[0] !in cut && r[|r| - 1] !in cut)
  {
    CutLeftStops(s, cut);
    CutRightStops(TrimCutLeft(s, cut), cut);
  }

  lemma {:induction false} TrimWrapped(c: char, v: string, cut: string)
    requires c in cut && (v == "" || (v[0] !in cut && v[|v| - 1] !in cut))
    ensures Trim([c] + v + [c], cut) == v
  {
    var s := [c] + v + [c];
    assert s[1..] == v + [c];
    if v == "" {
      assert (v + [c])[1..] == "";
    } else {
      assert s[0] == c && (v + [c])[0] == v[0];
      assert TrimCutLeft(s, cut) == v + [c];
      assert (v + [c])[..|v|] == v && (v + [c])[|v|] == c;
      assert TrimCutRight(v, cut) == v;
    }
  }

  lemma {:induction false} Quotes()
    ensures forall c :: c in QUOTES <==> IsQuote(c)
  {
    assert QUOTES == ['"', '\''];
  }

  lemma {:induction false} UnquoteBare(s: string)
    ensures Bare(Unquote(s))
  {
    Quotes();
    TrimStops(s, QUOTES);
  }

  function Quoted(v: string): string {
    ['"'] + v + ['"']
  }

  lemma {:induction false} UnquoteQuoted(v: string)
    requires Bare(v)
    ensures Unquote(Quoted(v)) == v
  {
    Quotes();
    TrimWrapped('"', v, QUOTES);
  }

  function Entry(key: string, rest: string): string {
    [' ', ' '] + (key + [':'] + rest)
  }

  function EntryLine(key: string, v: string): string {
    Entry(key, [' '] + Quoted(v))
  }

  function Heading(name: string): string {
    name + [':']
  }

  lemma {:induction false} TrimRightKeeps(s: string, i: nat)
    requires i < |s| && !IsSpace(s[i])
    ensures |TrimRight(s)| > i
  {
    if IsSpace(s[|s| - 1]) {
      TrimRightKeeps(s[..|s| - 1], i);
    }
  }

  lemma {:induction false} PrefixPast(key: string, rest: string, t: string)
    requires t <= key + [':'] + rest && |t| > |key|
    ensures t == key + [':'] + t[|key| + 1..] && t[|key| + 1..] <= rest
  {
  }

  lemma {:induction false} TrimRightFixed(s: string)
    requires s != "" && !IsSpace(s[|s| - 1])
    ensures TrimRight(s) == s
  {
  }

  /** Trimming keeps the key and its colon at the front. */
  lemma {:induction false} EntryTrimmed(key: string, rest: string) returns (tail: string)
    requires PlainName(key)
    ensures TrimSpace(Entry(key, rest)) == key + [':'] + tail && tail <= rest
  {
    var s := key + [':'] + rest;
    TrimLeftPadded([' ', ' '], s);
    TrimRightKeeps(s, |key|);
    var t := TrimRight(s);
    tail := t[|key| + 1..];
    PrefixPast(key, rest, t);
  }

  lemma {:induction false} EntryTrimmedWhole(key: string, rest: string)
    requires PlainName(key) && rest != "" && !IsSpace(rest[|rest| - 1])
    ensures TrimSpace(Entry(key, rest)) == key + [':'] + rest
  {
    var s := key + [':'] + rest;
    TrimLeftPadded([' ', ' '], s);
    assert s[|s| - 1] == rest[|rest| - 1];
    TrimRightFixed(s);
  }

  lemma {:induction false} PairParts(key: string, tail: string, t: string)
    requires PlainName(key) && t == key + [':'] + tail
    ensures IndexOf(t, ':') == |key| && KeyAt(t, |key|) == key && t[|key| + 1..] == tail
  {
    IndexOfAt(key, ':', tail);
    TrimSpaceFixed(key);
    assert t[..|key|] == key;
  }

  lemma {:induction false} PairRead(key: string, tail: string, t: string)
    requires PlainName(key) && t == key + [':'] + tail
    ensures ReadPair(t, true) == Assign(key, Unquote(TrimSpace(tail)))
    ensures tail == "" ==> ReadPair(t, false) == Section(key)
  {
    PairParts(key, tail, t);
  }

  lemma {:induction false} WholeLine(line: string)
    requires line != "" && line[|line| - 1] != '\r' && '#' !in line
    ensures Uncommented(Chomp(line)) == line
  {
  }

  lemma {:induction false} QuotedTrimmed(v: string)
    ensures TrimSpace([' '] + Quoted(v)) == Quoted(v)
  {
    TrimSpacePadded([' '], Quoted(v), "");
    assert [' '] + Quoted(v) + "" == [' '] + Quoted(v);
  }

  lemma {:induction false} EntryRead(key: string, v: string)
    requires PlainName(key) && '#' !in v && Bare(v)
    ensures ReadItem(EntryLine(key, v)) == Assign(key, v)
  {
    var rest := [' '] + Quoted(v);
    var line := EntryLine(key, v);
    assert line[|line| - 1] == rest[|rest| - 1] == '"';
    WholeLine(line);
    EntryTrimmedWhole(key, rest);
    PairRead(key, rest, key + [':'] + rest);
    QuotedTrimmed(v);
    UnquoteQuoted(v);
  }

  lemma {:induction false} HeadingPair(name: string)
    requires PlainName(name)
    ensures ReadPair(Heading(name), false) == Section(name)
  {
    PairRead(name, "", Heading(name));
  }

  lemma {:induction false} HeadingTrimmed(name: string)
    requires PlainName(name)
    ensures TrimSpace(Heading(name)) == Heading(name) && !Indented(Heading(name))
  {
    var line := Heading(name);
    assert line[0] == name[0] && line[|line| - 1] == ':';
    TrimSpaceFixed(line);
  }

  lemma {:induction false} HeadingContent(name: string)
    requires PlainName(name)
    ensures ReadContent(Heading(name)) == Section(name)
  {
    HeadingTrimmed(name);
    HeadingPair(name);
  }

  lemma {:induction false} HeadingRead(name: string)
    requires PlainName(name)
    ensures ReadItem(Heading(name)) == Section(name)
  {
    var line := Heading(name);
    assert line[|line| - 1] == ':';
    WholeLine(line);
    HeadingContent(name);
  }

  // ---- Lines as people write them ----------------------------------------------

  /** A value in double quotes, in single quotes, or bare and without white space at its ends. */
  predicate Wrapped(w: string, v: string) {
    || w == ['"'] + v + ['"']
    || w == ['\''] + v + ['\'']
    || (w == v && v != "" && !IsSpace(v[0]) && !IsSpace(v[|v| - 1]))
  }

  lemma {:induction false} UnquoteSingle(v: string)
    requires Bare(v)
    ensures Unquote(['\''] + v + ['\'']) == v
  {
    Quotes();
    TrimWrapped('\'', v, QUOTES);
  }

  lemma {:induction false} UnquoteNothing(v: string)
    requires Bare(v)
    ensures Unquote(v) == v
  {
    Quotes();
    assert TrimCutLeft(v, QUOTES) == v;
    assert TrimCutRight(v, QUOTES) == v;
  }

  lemma {:induction false} WrappedValue(w: string, v: string)
    requires Wrapped(w, v) && Bare(v)
    ensures Unquote(w) == v
  {
    UnquoteQuoted(v);
    UnquoteSingle(v);
    UnquoteNothing(v);
  }

  lemma {:induction false} WrappedEnds(w: string, v: string)
    requires Wrapped(w, v)
    ensures w != "" && !IsSpace(w[0]) && !IsSpace(w[|w| - 1])
  {
  }

  lemma {:induction false} ColonAt(k: string, rest: string)
    requires ':' !in k
    ensures var t := k + [':'] + rest; IndexOf(t, ':') == |k| && t[..|k|] == k && t[|k| + 1..] == rest
  {
    IndexOfAt(k, ':', rest);
  }

  lemma {:induction false} KeyAndGap(key: string, gap: string)
    requires PlainName(key) && AllSpace(gap)
    ensures ':' !in key + gap && TrimSpace(key + gap) == key
  {
    TrimSpacePadded("", key, gap);
    assert "" + key + gap == key + gap;
    assert forall i :: 0 <= i < |gap| ==> gap[i] != ':';
  }

  lemma {:induction false} LoosePair(key: string, gap: string, lead: string, w: string, v: string)
    requires PlainName(key) && AllSpace(gap) && AllSpace(lead) && Wrapped(w, v) && Bare(v)
    ensures ReadPair(key + gap + [':'] + (lead + w), true) == Assign(key, v)
  {
    KeyAndGap(key, gap);
    ColonAt(key + gap, lead + w);
    WrappedValue(w, v);
    WrappedEnds(w, v);
    TrimSpacePadded(lead, w, "");
    assert lead + w + "" == lead + w;
  }

  lemma {:induction false} LooseTrimmed(pad: string, body: string, tail: string)
    requires AllSpace(pad) && AllSpace(tail) && body != "" && !IsSpace(body[0]) && !IsSpace(body[|body| - 1])
    requires pad != "" && (pad[0] == ' ' || pad[0] == '\t')
    ensures ReadContent(pad + body + tail) == ReadPair(body, true)
  {
    TrimSpacePadded(pad, body, tail);
    assert (pad + body + tail)[0] == pad[0];
  }

  /**
   * An entry may be indented by blanks or tabs, have white space around the key, the colon and
   * the value, and have the value in either kind of quotes.
   */
  lemma {:induction false} LooseEntry(pad: string, key: string, gap: string, lead: string, w: string, v: string,
        tail: string)
    requires pad != "" && (pad[0] == ' ' || pad[0] == '\t') && AllSpace(pad) && AllSpace(tail)
    requires PlainName(key) && AllSpace(gap) && AllSpace(lead) && Wrapped(w, v) && Bare(v)
    ensures ReadContent(pad + (key + gap + [':'] + (lead + w)) + tail) == Assign(key, v)
  {
    var body := key + gap + [':'] + (lead + w);
    LoosePair(key, gap, lead, w, v);
    WrappedEnds(w, v);
    assert body[0] == key[0] && body[|body| - 1] == w[|w| - 1];
    LooseTrimmed(pad, body, tail);
  }

  /** A comment at the end of a line is not part of it. */
  lemma {:induction false} CommentCut(line: string, note: string)
    requires '#' !in line
    ensures ReadItem(line + ['#'] + note) == ReadContent(line)
  {
    var raw := line + ['#'] + note;
    ChompKeeps(raw, |line|);
    ChompPrefix(raw);
    CommentStart(line, note, Chomp(raw));
  }

  lemma {:induction false} CommentStart(line: string, note: string, c: string)
    requires '#' !in line && c <= line + ['#'] + note && |c| > |line|
    ensures Uncommented(c) == line
  {
    var raw := line + ['#'] + note;
    assert c == raw[..|c|] && c[..|line|] == line && c[|line|] == '#';
    assert c == line + ['#'] + c[|line| + 1..];
    IndexOfAt(line, '#', c[|line| + 1..]);
  }

  /** Nor is a carriage return. */
  lemma {:induction false} ReturnCut(line: string)
    requires '#' !in line && line != "" && line[|line| - 1] != '\r'
    ensures ReadItem(line + ['\r']) == ReadContent(line)
  {
    var raw := line + ['\r'];
    assert raw[..|raw| - 1] == line && raw[|raw| - 1] in "\r";
    assert Chomp(raw) == Chomp(line);
    WholeLine(line);
  }

  lemma {:induction false} ChompPrefix(raw: string)
    ensures Chomp(raw) <= raw
  {
    if raw != "" && raw[|raw| - 1] in "\r" {
      ChompPrefix(raw[..|raw| - 1]);
    }
  }

  /** What a reader must do on the lines of a printed file. */
  ghost predicate ReadsLines(read: string -> Item) {
    && read("") == Skip
    && (forall name :: PlainName(name) ==> read(Heading(name)) == Section(name))
    && (forall key, v :: PlainName(key) && '#' !in v && Bare(v) ==> read(EntryLine(key, v)) == Assign(key, v))
  }

  lemma {:induction false} LinesRead()
    ensures ReadsLines(ReadItem)
  {
    IgnoredSkipped("");
    forall name | PlainName(name)
      ensures ReadItem(Heading(name)) == Section(name)
    {
      HeadingRead(name);
    }
    forall key, v | PlainName(key) && '#' !in v && Bare(v)
      ensures ReadItem(EntryLine(key, v)) == Assign(key, v)
    {
      EntryRead(key, v);
    }
  }

  datatype Block = Block(name: string, entries: seq<(string, string)>)

  function EntryLines(es: seq<(string, string)>): seq<string> {
    if es == [] then [] else [EntryLine(es[0].0, es[0].1)] + EntryLines(es[1..])
  }

  function DocLines(doc: seq<Block>): seq<string> {
    if doc == [] then [] else [Heading(doc[0].name)] + EntryLines(doc[0].entries) + DocLines(doc[1..])
  }

  /** A two-level file with quoted values. */
  function Printed(doc: seq<Block>): string {
    Join(DocLines(doc) + [""], '\n')
  }

  function EntryTriples(section: string, es: seq<(string, string)>): seq<Triple> {
    if es == [] then [] else [Triple(section, es[0].0, es[0].1)] + EntryTriples(section, es[1..])
  }

  function DocTriples(doc: seq<Block>): seq<Triple> {
    if doc == [] then [] else EntryTriples(doc[0].name, doc[0].entries) + DocTriples(doc[1..])
  }

  predicate PrintableEntries(es: seq<(string, string)>) {
    forall i :: 0 <= i < |es| ==> PlainName(es[i].0) && Readable(es[i].1)
  }

  predicate Printable(doc: seq<Block>) {
    forall i :: 0 <= i < |doc| ==> PlainName(doc[i].name) && PrintableEntries(doc[i].entries)
  }

  lemma {:induction false} EntriesRead(es: seq<(string, string)>, section: string, read: string -> Item)
    requires PrintableEntries(es) && ReadsLines(read)
    ensures Triples(Items(EntryLines(es), read), section) == EntryTriples(section, es)
    ensures SectionAfter(Items(EntryLines(es), read), section) == section
  {
    if es != [] {
      EntriesRead(es[1..], section, read);
      var items := Items(EntryLines(es), read);
      assert items[0] == Assign(es[0].0, es[0].1);
      assert items[1..] == Items(EntryLines(es[1..]), read);
    }
  }

  lemma {:induction false} HeadedItems(head: string, name: string, ls: seq<string>, read: string -> Item,
        section: string)
    requires read(head) == Section(name)
    ensures Triples(Items([head] + ls, read), section) == Triples(Items(ls, read), name)
  {
    var items := Items([head] + ls, read);
    assert items[0] == read(([head] + ls)[0]) && items[1..] == Items(ls, read);
  }

  lemma {:induction false} BlockRead(b: Block, rest: seq<string>, section: string, read: string -> Item)
    requires PlainName(b.name) && PrintableEntries(b.entries) && ReadsLines(read)
    ensures Triples(Items([Heading(b.name)] + (EntryLines(b.entries) + rest), read), section)
         == EntryTriples(b.name, b.entries) + Triples(Items(rest, read), b.name)
  {
    var es := EntryLines(b.entries);
    HeadedItems(Heading(b.name), b.name, es + rest, read, section);
    ItemsAppend(es, rest, read);
    EntriesRead(b.entries, b.name, read);
    TriplesAppend(Items(es, read), Items(rest, read), b.name);
  }

  lemma {:induction false} DocRead(doc: seq<Block>, section: string, read: string -> Item)
    requires Printable(doc) && ReadsLines(read)
    ensures Triples(Items(DocLines(doc) + [""], read), section) == DocTriples(doc)
  {
    if doc == [] {
      EmptyLineRead(section, read);
      assert DocLines(doc) + [""] == [""];
    } else {
      var b, rest := doc[0], DocLines(doc[1..]) + [""];
      DocRead(doc[1..], b.name, read);
      DocLinesHead(doc);
      BlockRead(b, rest, section, read);
    }
  }

  lemma {:induction false} DocLinesHead(doc: seq<Block>)
    requires doc != []
    ensures DocLines(doc) + [""] == [Heading(doc[0].name)] + (EntryLines(doc[0].entries) + (DocLines(doc[1..]) + [""]))
  {
    var h, es, ls := [Heading(doc[0].name)], EntryLines(doc[0].entries), DocLines(doc[1..]);
    Associate(h, es, ls);
    Associate(h + es, ls, [""]);
    Associate(h, es, ls + [""]);
  }

  lemma {:induction false} EmptyLineRead(section: string, read: string -> Item)
    requires ReadsLines(read)
    ensures Triples(Items([""], read), section) == []
  {
    assert Items([""], read) == [Skip] && [Skip][1..] == [];
  }

  lemma {:induction false} EntryLineTexts(es: seq<(string, string)>)
    requires PrintableEntries(es)
    ensures LineTexts(EntryLines(es))
  {
    if es != [] {
      EntryLineTexts(es[1..]);
    }
  }

  lemma {:induction false} DocLineTexts(doc: seq<Block>)
    requires Printable(doc)
    ensures LineTexts(DocLines(doc))
  {
    if doc != [] {
      EntryLineTexts(doc[0].entries);
      DocLineTexts(doc[1..]);
    }
  }

  lemma {:induction false} PrintedReadsBackBy(doc: seq<Block>, read: string -> Item)
    requires Printable(doc) && ReadsLines(read)
    ensures AssignmentsBy(Printed(doc), read) == DocTriples(doc)
  {
    DocRead(doc, "", read);
    DocLineTexts(doc);
    LinesOf(DocLines(doc) + [""], read);
  }

  /** A printed file is read back as exactly its entries, in order. */
  lemma {:induction false} PrintedReadsBack(doc: seq<Block>)
    requires Printable(doc)
    ensures Assignments(Printed(doc)) == DocTriples(doc)
  {
    LinesRead();
    PrintedReadsBackBy(doc, ReadItem);
  }

  // ---- Every known key survives a round trip through a printed file ----------

  lemma {:induction false} KeysKnown(f: Field)
    ensures FieldOf(SectionOf(f), KeyOf(f)) == Some(f)
  {
  }

  predicate Word(s: string) {
    s != "" && forall i :: 0 <= i < |s| ==> 'a' <= s[i] <= 'z' || s[i] == '_'
  }

  lemma {:induction false} WordPlain(s: string)
    requires Word(s)
    ensures PlainName(s)
  {
  }

  lemma {:induction false} SectionWord(f: Field)
    ensures Word(SectionOf(f))
  {
  }

  lemma {:induction false} KeyWord(f: Field)
    ensures Word(KeyOf(f))
  {
  }

  lemma {:induction false} PlainKeys(f: Field)
    ensures PlainName(SectionOf(f)) && PlainName(KeyOf(f))
  {
    SectionWord(f);
    KeyWord(f);
    WordPlain(SectionOf(f));
    WordPlain(KeyOf(f));
  }

  function Decimal(n: int): string {
    if n < 0 then ['-'] + Itoa(-n) else Itoa(n)
  }

  lemma {:induction false} AtoiUnsigned(d: string)
    requires d != "" && IsDigit(d[0]) && ParseNat(d) >= 0 && FitsInt64(ParseNat(d))
    ensures Atoi(d) == Some(ParseNat(d))
  {
  }

  lemma {:induction false} AtoiNegative(d: string)
    requires ParseNat(d) >= 0 && FitsInt64(-ParseNat(d))
    ensures Atoi(['-'] + d) == Some(-ParseNat(d))
  {
    assert (['-'] + d)[1..] == d;
  }

  lemma {:induction false} AtoiDecimal(n: int)
    requires FitsInt64(n)
    ensures Atoi(Decimal(n)) == Some(n)
  {
    if n < 0 {
      ParseItoa(-n);
      AtoiNegative(Itoa(-n));
    } else {
      ParseItoa(n);
      AtoiUnsigned(Itoa(n));
    }
  }

  lemma {:induction false} DecimalReadable(n: int)
    ensures Readable(Decimal(n))
  {
    var d := Decimal(n);
    assert forall i :: 0 <= i < |d| ==> d[i] == '-' || IsDigit(d[i]);
  }

  function TextOf(s: Settings, ttl: string, f: Field): string {
    match f
    case SessionTtl => ttl
    case BcryptCost => Decimal(s.security.bcryptCost)
    case CsrfEnabled => if s.security.csrfEnabled then "true" else "false"
    case _ => Get(s, f).text
  }

  /** The settings that a printed file can carry; ttl is the lifetime written as a duration. */
  ghost predicate Writable(s: Settings, ttl: string, dur: string -> Option<int>) {
    && (forall f :: IsText(f) ==> Readable(TextOf(s, ttl, f)))
    && Readable(ttl) && dur(ttl) == Some(s.security.sessionTTL)
    && FitsInt64(s.security.bcryptCost)
  }

  lemma {:induction false} TextOfMeans(s: Settings, ttl: string, dur: string -> Option<int>, f: Field)
    requires Writable(s, ttl, dur)
    ensures Readable(TextOf(s, ttl, f)) && Interpret(f, TextOf(s, ttl, f), dur) == Some(Get(s, f))
  {
    match f
    case BcryptCost =>
      AtoiDecimal(s.security.bcryptCost);
      DecimalReadable(s.security.bcryptCost);
    case _ =>
  }

  const SERVER_KEYS := [Listen, TlsCert, TlsKey]
  const DATABASE_KEYS := [Path, MigrationsDir]
  const SECURITY_KEYS := [SessionTtl, BcryptCost, CsrfEnabled]
  const PATHS_KEYS := [StaticDir, SambaConf, ExportsFile, MinidlnaConf]

  function EntriesOf(s: Settings, ttl: string, fs: seq<Field>): seq<(string, string)> {
    if fs == [] then [] else [(KeyOf(fs[0]), TextOf(s, ttl, fs[0]))] + EntriesOf(s, ttl, fs[1..])
  }

  function BlockOf(s: Settings, ttl: string, section: string, fs: seq<Field>): Block {
    Block(section, EntriesOf(s, ttl, fs))
  }

  function FileOf(s: Settings, ttl: string): seq<Block> {
    [BlockOf(s, ttl, "server", SERVER_KEYS), BlockOf(s, ttl, "database", DATABASE_KEYS),
     BlockOf(s, ttl, "security", SECURITY_KEYS), BlockOf(s, ttl, "paths", PATHS_KEYS)]
  }

  function TriplesOf(s: Settings, ttl: string, fs: seq<Field>): seq<Triple> {
    if fs == [] then []
    else [Triple(SectionOf(fs[0]), KeyOf(fs[0]), TextOf(s, ttl, fs[0]))] + TriplesOf(s, ttl, fs[1..])
  }

  lemma {:induction false} BlockTriples(s: Settings, ttl: string, section: string, fs: seq<Field>)
    requires AllIn(fs, section)
    ensures EntryTriples(section, EntriesOf(s, ttl, fs)) == TriplesOf(s, ttl, fs)
  {
    if fs != [] {
      BlockTriples(s, ttl, section, fs[1..]);
    }
  }

  lemma {:induction false} BlockPrintable(s: Settings, ttl: string, dur: string -> Option<int>, fs: seq<Field>)
    requires Writable(s, ttl, dur)
    ensures PrintableEntries(EntriesOf(s, ttl, fs))
  {
    if fs != [] {
      BlockPrintable(s, ttl, dur, fs[1..]);
      TextOfMeans(s, ttl, dur, fs[0]);
      PlainKeys(fs[0]);
    }
  }

  /** Among assignments to different keys, the one that names f decides. */
  lemma {:induction false} TriplesOfAt(s: Settings, ttl: string, fs: seq<Field>, i: nat)
    requires i < |fs|
    ensures |TriplesOf(s, ttl, fs)| == |fs|
    ensures TriplesOf(s, ttl, fs)[i] == Triple(SectionOf(fs[i]), KeyOf(fs[i]), TextOf(s, ttl, fs[i]))
  {
    if i > 0 {
      TriplesOfAt(s, ttl, fs[1..], i - 1);
    } else if |fs| > 1 {
      TriplesOfAt(s, ttl, fs[1..], 0);
    }
  }

  lemma {:induction false} NamedOnce(s: Settings, ttl: string, dur: string -> Option<int>, fs: seq<Field>, i: nat,
        before: Settings, after: Settings)
    requires Writable(s, ttl, dur) && i < |fs|
    requires forall j :: 0 <= j < |fs| && j != i ==> fs[j] != fs[i]
    requires Decided(TriplesOf(s, ttl, fs), dur, before, after, fs[i])
    ensures Get(after, fs[i]) == Get(s, fs[i])
  {
    var ts, f := TriplesOf(s, ttl, fs), fs[i];
    forall j | 0 <= j < |fs|
      ensures |ts| == |fs|
      ensures Effect(ts[j], f, dur) == if j == i then Some(Get(s, f)) else None
    {
      TriplesOfAt(s, ttl, fs, j);
      KeysKnown(fs[j]);
      TextOfMeans(s, ttl, dur, f);
    }
    TriplesOfAt(s, ttl, fs, i);
    assert Effect(ts[i], f, dur).Some?;
  }

  const ALL_KEYS := SERVER_KEYS + DATABASE_KEYS + SECURITY_KEYS + PATHS_KEYS

  function Position(f: Field): nat {
    match f
    case Listen => 0 case TlsCert => 1 case TlsKey => 2
    case Path => 3 case MigrationsDir => 4
    case SessionTtl => 5 case BcryptCost => 6 case CsrfEnabled => 7
    case StaticDir => 8 case SambaConf => 9 case ExportsFile => 10 case MinidlnaConf => 11
  }

  lemma {:induction false} AllKeys(f: Field)
    ensures Position(f) < |ALL_KEYS| && ALL_KEYS[Position(f)] == f
    ensures forall j :: 0 <= j < |ALL_KEYS| && j != Position(f) ==> ALL_KEYS[j] != f
  {
    assert ALL_KEYS == [Listen, TlsCert, TlsKey, Path, MigrationsDir, SessionTtl, BcryptCost, CsrfEnabled,
                        StaticDir, SambaConf, ExportsFile, MinidlnaConf];
  }

  lemma {:induction false} TriplesOfAppend(s: Settings, ttl: string, xs: seq<Field>, ys: seq<Field>)
    ensures TriplesOf(s, ttl, xs + ys) == TriplesOf(s, ttl, xs) + TriplesOf(s, ttl, ys)
  {
    if xs == [] {
      assert xs + ys == ys;
    } else {
      assert (xs + ys)[1..] == xs[1..] + ys;
      TriplesOfAppend(s, ttl, xs[1..], ys);
    }
  }

  lemma {:induction false} FourTriples(s: Settings, ttl: string, a: seq<Field>, b: seq<Field>, c: seq<Field>,
        d: seq<Field>)
    ensures TriplesOf(s, ttl, a + b + c + d)
         == TriplesOf(s, ttl, a) + TriplesOf(s, ttl, b) + TriplesOf(s, ttl, c) + TriplesOf(s, ttl, d)
  {
    TriplesOfAppend(s, ttl, a + b + c, d);
    TriplesOfAppend(s, ttl, a + b, c);
    TriplesOfAppend(s, ttl, a, b);
  }

  predicate AllIn(fs: seq<Field>, section: string) {
    forall i :: 0 <= i < |fs| ==> SectionOf(fs[i]) == section
  }

  lemma {:induction false} KeysInSections()
    ensures AllIn(SERVER_KEYS, "server") && AllIn(DATABASE_KEYS, "database")
    ensures AllIn(SECURITY_KEYS, "security") && AllIn(PATHS_KEYS, "paths")
  {
  }

  lemma {:induction false} FourBlockTriples(s: Settings, ttl: string, k: string, a: seq<Field>, l: string,
        b: seq<Field>, m: string, c: seq<Field>, n: string, d: seq<Field>)
    requires AllIn(a, k) && AllIn(b, l) && AllIn(c, m) && AllIn(d, n)
    ensures DocTriples([BlockOf(s, ttl, k, a), BlockOf(s, ttl, l, b), BlockOf(s, ttl, m, c), BlockOf(s, ttl, n, d)])
         == TriplesOf(s, ttl, a + b + c + d)
  {
    FourBlocks(BlockOf(s, ttl, k, a), BlockOf(s, ttl, l, b), BlockOf(s, ttl, m, c), BlockOf(s, ttl, n, d));
    FourTriples(s, ttl, a, b, c, d);
    BlockTriples(s, ttl, k, a);
    BlockTriples(s, ttl, l, b);
    BlockTriples(s, ttl, m, c);
    BlockTriples(s, ttl, n, d);
  }

  lemma {:induction false} FileTriples(s: Settings, ttl: string)
    ensures DocTriples(FileOf(s, ttl)) == TriplesOf(s, ttl, ALL_KEYS)
  {
    KeysInSections();
    FourBlockTriples(s, ttl, "server", SERVER_KEYS, "database", DATABASE_KEYS,
                     "security", SECURITY_KEYS, "paths", PATHS_KEYS);
  }

  function TriplesIn(b: Block): seq<Triple> {
    EntryTriples(b.name, b.entries)
  }

  lemma {:induction false} TwoBlocks(a: Block, b: Block, rest: seq<Block>)
    ensures DocTriples([a, b] + rest) == TriplesIn(a) + (TriplesIn(b) + DocTriples(rest))
  {
    var doc := [a, b] + rest;
    assert doc[1..] == [b] + rest && doc[1..][1..] == rest;
  }

  lemma {:induction false} FourBlocks(a: Block, b: Block, c: Block, d: Block)
    ensures DocTriples([a, b, c, d]) == TriplesIn(a) + TriplesIn(b) + TriplesIn(c) + TriplesIn(d)
  {
    assert [a, b, c, d] == [a, b] + [c, d] && [c, d] == [c, d] + [];
    TwoBlocks(c, d, []);
    TwoBlocks(a, b, [c, d]);
  }

  lemma {:induction false} FilePrintable(s: Settings, ttl: string, dur: string -> Option<int>)
    requires Writable(s, ttl, dur)
    ensures Printable(FileOf(s, ttl))
  {
    BlockPrintable(s, ttl, dur, SERVER_KEYS);
    BlockPrintable(s, ttl, dur, DATABASE_KEYS);
    BlockPrintable(s, ttl, dur, SECURITY_KEYS);
    BlockPrintable(s, ttl, dur, PATHS_KEYS);
    PlainKeys(Listen);
    PlainKeys(Path);
    PlainKeys(SessionTtl);
    PlainKeys(StaticDir);
  }

  lemma {:induction false} FileMeaning(s: Settings, ttl: string, dur: string -> Option<int>, before: Settings,
        after: Settings)
    requires Writable(s, ttl, dur) && Parses(Printed(FileOf(s, ttl)), dur, before, after)
    ensures Reads(TriplesOf(s, ttl, ALL_KEYS), dur, before, after)
  {
    FilePrintable(s, ttl, dur);
    PrintedReadsBack(FileOf(s, ttl));
    FileTriples(s, ttl);
  }

  lemma {:induction false} FieldRecovered(s: Settings, ttl: string, dur: string -> Option<int>, before: Settings,
        after: Settings, f: Field)
    requires Writable(s, ttl, dur) && Reads(TriplesOf(s, ttl, ALL_KEYS), dur, before, after)
    ensures Get(after, f) == Get(s, f)
  {
    AllKeys(f);
    assert Decided(TriplesOf(s, ttl, ALL_KEYS), dur, before, after, f);
    NamedOnce(s, ttl, dur, ALL_KEYS, Position(f), before, after);
  }

  lemma {:induction false} GetWithRoot(s: Settings, root: string, f: Field)
    ensures Get(s.(paths := s.paths.(filesRoot := root)), f) == Get(s, f)
  {
  }

  /** Reading the file printed from settings gives these settings, except for files_root. */
  lemma {:induction false} SettingsRoundTrip(s: Settings, ttl: string, dur: string -> Option<int>, before: Settings,
        after: Settings)
    requires Writable(s, ttl, dur)
    requires Parses(Printed(FileOf(s, ttl)), dur, before, after)
    ensures after == s.(paths := s.paths.(filesRoot := before.paths.filesRoot))
  {
    FileMeaning(s, ttl, dur, before, after);
    forall f: Field
      ensures Get(after, f) == Get(s.(paths := s.paths.(filesRoot := before.paths.filesRoot)), f)
    {
      FieldRecovered(s, ttl, dur, before, after, f);
      GetWithRoot(s, before.paths.filesRoot, f);
    }
    SameGets(after, s.(paths := s.paths.(filesRoot := before.paths.filesRoot)));
  }

  // ---- Exactly which values survive ------------------------------------------

  lemma {:induction false} DropAvoids(s: string, i: nat, c: char)
    requires i <= |s| && c !in s
    ensures c !in s[i..]
  {
  }

  lemma {:induction false} TakeAvoids(s: string, n: nat, c: char)
    requires n <= |s| && c !in s
    ensures c !in s[..n]
  {
  }

  lemma {:induction false} TrimSpaceAvoids(s: string, c: char)
    requires c !in s
    ensures c !in TrimSpace(s)
  {
    var l := TrimLeft(s);
    DropAvoids(s, |s| - |l|, c);
    TakeAvoids(l, |TrimRight(l)|, c);
  }

  lemma {:induction false} TrimCutAvoids(s: string, cut: string, c: char)
    requires c !in s
    ensures c !in Trim(s, cut) && c !in TrimCutRight(s, cut)
  {
    var l := TrimCutLeft(s, cut);
    DropAvoids(s, |s| - |l|, c);
    TakeAvoids(l, |TrimCutRight(l, cut)|, c);
    TakeAvoids(s, |TrimCutRight(s, cut)|, c);
  }

  lemma {:induction false} TrimAvoids(s: string, c: char)
    requires c !in s
    ensures c !in TrimSpace(s) && c !in Unquote(s) && c !in Chomp(s)
  {
    TrimSpaceAvoids(s, c);
    TrimCutAvoids(s, QUOTES, c);
    TrimCutAvoids(s, "\r", c);
  }

  lemma {:induction false} ValueAvoids(t: string, c: char)
    requires c !in t
    ensures c !in Unquote(TrimSpace(t))
  {
    TrimAvoids(t, c);
    TrimAvoids(TrimSpace(t), c);
  }

  lemma {:induction false} PairValue(trimmed: string, indented: bool)
    requires ReadPair(trimmed, indented).Assign?
    ensures IndexOf(trimmed, ':') >= 0
    ensures ReadPair(trimmed, indented).val == ValueAt(trimmed, IndexOf(trimmed, ':'))
  {
  }

  lemma {:induction false} ValueAtAvoids(trimmed: string, i: nat, c: char)
    requires i < |trimmed| && c !in trimmed
    ensures c !in ValueAt(trimmed, i)
  {
    DropAvoids(trimmed, i + 1, c);
    ValueAvoids(trimmed[i + 1..], c);
  }

  lemma {:induction false} PairAvoids(trimmed: string, indented: bool, c: char)
    requires c !in trimmed && ReadPair(trimmed, indented).Assign?
    ensures c !in ReadPair(trimmed, indented).val
  {
    PairValue(trimmed, indented);
    ValueAtAvoids(trimmed, IndexOf(trimmed, ':'), c);
  }

  lemma {:induction false} PairBare(trimmed: string, indented: bool)
    requires ReadPair(trimmed, indented).Assign?
    ensures Bare(ReadPair(trimmed, indented).val)
  {
    PairValue(trimmed, indented);
    ValueAtBare(trimmed, IndexOf(trimmed, ':'));
  }

  lemma {:induction false} ValueAtBare(trimmed: string, i: nat)
    requires i < |trimmed|
    ensures Bare(ValueAt(trimmed, i))
  {
    UnquoteBare(TrimSpace(trimmed[i + 1..]));
  }

  /** No line gives a value that could not have been printed. */
  lemma {:induction false} ItemReadable(raw: string)
    requires '\n' !in raw && ReadItem(raw).Assign?
    ensures Readable(ReadItem(raw).val)
  {
    TrimAvoids(raw, '\n');
    var line := Uncommented(Chomp(raw));
    assert '\n' !in line && '#' !in line;
    TrimAvoids(line, '\n');
    TrimAvoids(line, '#');
    PairAvoids(TrimSpace(line), Indented(line), '\n');
    PairAvoids(TrimSpace(line), Indented(line), '#');
    PairBare(TrimSpace(line), Indented(line));
  }

  predicate ReadableItems(items: seq<Item>) {
    forall i :: 0 <= i < |items| && items[i].Assign? ==> Readable(items[i].val)
  }

  lemma {:induction false} TriplesReadable(items: seq<Item>, section: string)
    requires ReadableItems(items)
    ensures forall i :: 0 <= i < |Triples(items, section)| ==> Readable(Triples(items, section)[i].val)
  {
    if items != [] {
      TriplesReadable(items[1..], Register(items[0], section));
    }
  }

  lemma {:induction false} SplitFirst(s: string, a: string, c: char)
    requires a <= s && c !in a
    ensures a <= Split(s, c)[0]
  {
    if a != "" {
      assert a[0] in a;
      SplitFirst(s[1..], a[1..], c);
    }
  }

  lemma {:induction false} UncommentedKeeps(line: string, a: string)
    requires a <= line && '#' !in a
    ensures a <= Uncommented(line)
  {
    var i := IndexOf(line, '#');
    assert i >= 0 ==> line[i] == '#';
    assert forall k :: 0 <= k < |a| ==> a[k] == line[k] && a[k] != '#';
  }

  lemma {:induction false} ChompedKeeps(raw: string, a: string)
    requires a <= raw && a != "" && a[|a| - 1] != '\r'
    ensures a <= Chomp(raw)
  {
    ChompKeeps(raw, |a| - 1);
  }

  function Opening(key: string): string {
    Entry(key, [' ', '"'])
  }

  /** Whatever happens to the end of the line, it still assigns to its key. */
  lemma {:induction false} OpenedLine(key: string, raw: string)
    requires PlainName(key) && Opening(key) <= raw
    ensures ReadItem(raw).Assign? && ReadItem(raw).key == key
  {
    var a := Opening(key);
    assert a[|a| - 1] == '"' && '#' !in a;
    ChompedKeeps(raw, a);
    UncommentedKeeps(Chomp(raw), a);
    OpenedContent(key, Uncommented(Chomp(raw)));
  }

  lemma {:induction false} OpenedContent(key: string, line: string)
    requires PlainName(key) && Opening(key) <= line
    ensures ReadContent(line).Assign? && ReadContent(line).key == key
  {
    var rest := [' ', '"'] + line[|Opening(key)|..];
    assert line == Entry(key, rest);
    assert line[0] == ' ';
    var tail := EntryTrimmed(key, rest);
    PairRead(key, tail, key + [':'] + tail);
  }

  function OneEntry(section: string, key: string, v: string): seq<Block> {
    [Block(section, [(key, v)])]
  }

  lemma {:induction false} OneEntryText(section: string, key: string, v: string)
    ensures Printed(OneEntry(section, key, v)) == Heading(section) + ['\n'] + (EntryLine(key, v) + ['\n'])
    ensures DocTriples(OneEntry(section, key, v)) == [Triple(section, key, v)]
  {
    var doc, h, e := OneEntry(section, key, v), Heading(section), EntryLine(key, v);
    assert doc[1..] == [] && doc[0].entries[1..] == [];
    assert EntryTriples(section, doc[0].entries) == [Triple(section, key, v)];
    assert EntryLines(doc[0].entries) == [e];
    assert DocLines(doc) + [""] == [h, e, ""];
    var ls := [h, e, ""];
    assert ls[1..] == [e, ""] && ls[1..][1..] == [""];
    assert Join(ls[1..], '\n') == e + ['\n'] + "";
    assert e + ['\n'] + "" == e + ['\n'];
  }

  /** The lines of a printed entry: its heading, then a line that opens with the key. */
  lemma {:induction false} OneEntryLines(section: string, key: string, v: string)
    requires PlainName(section) && PlainName(key)
    ensures var ls := Split(Printed(OneEntry(section, key, v)), '\n');
            |ls| >= 2 && ls[0] == Heading(section) && Opening(key) <= ls[1]
  {
    var e := EntryLine(key, v) + ['\n'];
    OneEntryText(section, key, v);
    SplitAt(Heading(section), '\n', e);
    SplitNone(Heading(section), '\n');
    assert Opening(key) <= e;
    SplitFirst(e, Opening(key), '\n');
  }

  lemma {:induction false} HeadTriple(items: seq<Item>, section: string)
    requires |items| >= 2 && items[0] == Section(section) && items[1].Assign?
    ensures |Triples(items, "")| > 0
    ensures Triples(items, "")[0].section == section && Triples(items, "")[0].key == items[1].key
  {
    assert items[1..][0] == items[1];
  }

  lemma {:induction false} AssignmentsReadable(data: string)
    ensures forall i :: 0 <= i < |Assignments(data)| ==> Readable(Assignments(data)[i].val)
  {
    var ls := Split(data, '\n');
    var items := Items(ls, ReadItem);
    forall i | 0 <= i < |items| && items[i].Assign?
      ensures Readable(items[i].val)
    {
      ItemReadable(ls[i]);
    }
    TriplesReadable(items, "");
  }

  lemma {:induction false} OneEntryAssigns(section: string, key: string, v: string)
    requires PlainName(section) && PlainName(key)
    ensures var ts := Assignments(Printed(OneEntry(section, key, v)));
            ts != [] && ts[0].section == section && ts[0].key == key
  {
    var ls := Split(Printed(OneEntry(section, key, v)), '\n');
    OneEntryLines(section, key, v);
    HeadingRead(section);
    OpenedLine(key, ls[1]);
    HeadTriple(Items(ls, ReadItem), section);
  }

  lemma {:induction false} DecidedText(ts: seq<Triple>, dur: string -> Option<int>, before: Settings, after: Settings,
        f: Field) returns (i: nat)
    requires IsText(f) && Decided(ts, dur, before, after, f)
    requires ts != [] && FieldOf(ts[0].section, ts[0].key) == Some(f)
    ensures i < |ts| && Get(after, f) == Text(ts[i].val)
  {
    assert Effect(ts[0], f, dur) == Some(Text(ts[0].val));
    i :| 0 <= i < |ts| && AllIdle(ts, i + 1, f, dur) && Effect(ts[i], f, dur) == Some(Get(after, f));
  }

  lemma {:induction false} ParsedText(data: string, f: Field, dur: string -> Option<int>, before: Settings,
        after: Settings) returns (i: nat)
    requires IsText(f) && Parses(data, dur, before, after)
    requires var ts := Assignments(data); ts != [] && ts[0].section == SectionOf(f) && ts[0].key == KeyOf(f)
    ensures i < |Assignments(data)| && Get(after, f) == Text(Assignments(data)[i].val)
  {
    KeysKnown(f);
    i := DecidedText(Assignments(data), dur, before, after, f);
  }

  lemma {:induction false} AssignmentReadable(data: string, i: nat)
    requires i < |Assignments(data)|
    ensures Readable(Assignments(data)[i].val)
  {
    AssignmentsReadable(data);
  }

  lemma {:induction false} OneEntryRead(section: string, key: string, v: string)
    requires PlainName(section) && PlainName(key) && Readable(v)
    ensures Assignments(Printed(OneEntry(section, key, v))) == [Triple(section, key, v)]
  {
    OneEntryText(section, key, v);
    assert PrintableEntries([(key, v)]);
    PrintedReadsBack(OneEntry(section, key, v));
  }

  /** Every assignment read from a printed entry has a readable value; a readable one is read as it is. */
  lemma {:induction false} OneEntryValues(section: string, key: string, v: string, data: string, i: nat)
    requires PlainName(section) && PlainName(key) && data == Printed(OneEntry(section, key, v))
    requires i < |Assignments(data)|
    ensures Readable(Assignments(data)[i].val)
    ensures Readable(v) ==> Assignments(data)[i].val == v
  {
    AssignmentReadable(data, i);
    if Readable(v) {
      OneEntryRead(section, key, v);
    }
  }

  /** A quoted value is read back exactly when it has no '#', no line break and no quote at either end. */
  lemma {:induction false} ValueSurvivesIff(f: Field, v: string, dur: string -> Option<int>, before: Settings,
        after: Settings)
    requires IsText(f)
    requires Parses(Printed(OneEntry(SectionOf(f), KeyOf(f), v)), dur, before, after)
    ensures Get(after, f) == Text(v) <==> Readable(v)
  {
    PlainKeys(f);
    OneEntryAssigns(SectionOf(f), KeyOf(f), v);
    var i := ParsedText(Printed(OneEntry(SectionOf(f), KeyOf(f), v)), f, dur, before, after);
    OneEntryValues(SectionOf(f), KeyOf(f), v, Printed(OneEntry(SectionOf(f), KeyOf(f), v)), i);
  }
}
