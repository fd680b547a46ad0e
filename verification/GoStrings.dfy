/**
 * The functions of Go's packages strings and strconv that the daemon relies on,
 * defined from their documentation. A string is a sequence of Unicode code points.
 */
module GoStrings {

  // ---- Predicates ------------------------------------------------------------

  /** unicode.IsSpace. */
  predicate IsSpace(c: char) {
    || '\t' <= c <= '\r' || c == ' ' || c == '\U{85}' || c == '\U{A0}' || c == '\U{1680}'
    || '\U{2000}' <= c <= '\U{200A}' || c == '\U{2028}' || c == '\U{2029}' || c == '\U{202F}'
    || c == '\U{205F}' || c == '\U{3000}'
  }

  /** isspace(3) in the C locale, which the readers of the generated files go by. */
  predicate AsciiSpace(c: char) {
    '\t' <= c <= '\r' || c == ' '
  }

  function SkipAscii(l: string): string {
    if l != "" && AsciiSpace(l[0]) then SkipAscii(l[1..]) else l
  }

  predicate AllSpace(s: string) {
    forall i :: 0 <= i < |s| ==> IsSpace(s[i])
  }

  predicate NoSpace(s: string) {
    forall i :: 0 <= i < |s| ==> !IsSpace(s[i])
  }

  /** A non-empty text without white space: what strings.Fields yields. */
  predicate Token(s: string) {
    s != "" && NoSpace(s)
  }

  predicate HasPrefix(s: string, p: string) {
    p <= s
  }

  predicate HasSuffix(s: string, p: string) {
    |p| <= |s| && s[|s| - |p|..] == p
  }

  predicate OccursAt(s: string, sub: string, i: nat) {
    i + |sub| <= |s| && s[i..i + |sub|] == sub
  }

  predicate Contains(s: string, sub: string) {
    exists i :: 0 <= i <= |s| && OccursAt(s, sub, i)
  }

  predicate ContainsAny(s: string, chars: string) {
    exists i :: 0 <= i < |s| && s[i] in chars
  }

  /** A character that no path may hold: it would break a line or a quoted word. */
  predicate Unquotable(c: char) {
    c == '\n' || c == '\r' || c == '\0' || c == '"' || c == '\'' || c == '`'
  }

  lemma {:induction false} UnquotableIff(s: string)
    ensures ContainsAny(s, "\n\r\0\"'`") <==> exists i :: 0 <= i < |s| && Unquotable(s[i])
  {
    var bad := "\n\r\0\"'`";
    assert |bad| == 6 && bad[0] == '\n' && bad[1] == '\r' && bad[2] == '\0' && bad[3] == '"' && bad[4] == '\'' && bad[5] == '`';
    forall i | 0 <= i < |s|
      ensures s[i] in bad <==> Unquotable(s[i])
    {
    }
  }

  predicate IsDigit(c: char) {
    '0' <= c <= '9'
  }

  function TrimPrefix(s: string, p: string): string {
    if p <= s then s[|p|..] else s
  }

  lemma {:induction false} Associate<T>(a: seq<T>, b: seq<T>, c: seq<T>)
    ensures a + (b + c) == a + b + c
  {
  }

  // ---- Trimming --------------------------------------------------------------

  function TrimLeft(s: string): (r: string)
    ensures |r| <= |s| && r == s[|s| - |r|..]
    ensures forall i :: 0 <= i < |s| - |r| ==> IsSpace(s[i])
    ensures r != "" ==> !IsSpace(r[0])
  {
    if s != "" && IsSpace(s[0]) then
      var r := TrimLeft(s[1..]);
      assert s[1..][|s| - 1 - |r|..] == s[|s| - |r|..];
      r
    else s
  }

  function TrimRight(s: string): (r: string)
    ensures |r| <= |s| && r == s[..|r|]
    ensures forall i :: |r| <= i < |s| ==> IsSpace(s[i])
    ensures r != "" ==> !IsSpace(r[|r| - 1])
  {
    if s != "" && IsSpace(s[|s| - 1]) then TrimRight(s[..|s| - 1]) else s
  }

  function TrimSpace(s: string): string {
    TrimRight(TrimLeft(s))
  }

  lemma {:induction false} TrimLeftParts(s: string) returns (a: string)
    ensures s == a + TrimLeft(s) && AllSpace(a)
  {
    a := s[..|s| - |TrimLeft(s)|];
  }

  lemma {:induction false} TrimRightParts(s: string) returns (b: string)
    ensures s == TrimRight(s) + b && AllSpace(b)
  {
    b := s[|TrimRight(s)|..];
  }

  lemma {:induction false} TrimSpaceParts(s: string) returns (a: string, b: string)
    ensures s == a + TrimSpace(s) + b && AllSpace(a) && AllSpace(b)
  {
    a := TrimLeftParts(s);
    b := TrimRightParts(TrimLeft(s));
    Associate(a, TrimSpace(s), b);
  }

  lemma {:induction false} TrimSpaceFront(s: string) returns (a: string)
    requires s != "" && !IsSpace(s[|s| - 1])
    ensures s == a + TrimSpace(s) && AllSpace(a)
  {
    a := TrimLeftParts(s);
    var l := TrimLeft(s);
    assert l != "";
    assert l[|l| - 1] == s[|s| - 1];
  }

  /** A text that neither starts nor ends with white space is its own trimming. */
  lemma {:induction false} TrimSpaceFixed(s: string)
    requires s == "" || (!IsSpace(s[0]) && !IsSpace(s[|s| - 1]))
    ensures TrimSpace(s) == s
  {
  }

  lemma {:induction false} TrimSpaceEnds(s: string)
    ensures var t := TrimSpace(s); t == "" || (!IsSpace(t[0]) && !IsSpace(t[|t| - 1]))
  {
    var l := TrimLeft(s);
    var t := TrimRight(l);
    if t != "" {
      assert t[0] == l[0];
    }
  }

  lemma {:induction false} TrimLeftPadded(a: string, s: string)
    requires AllSpace(a) && (s == "" || !IsSpace(s[0]))
    ensures TrimLeft(a + s) == s
  {
    if a == "" {
      assert a + s == s;
    } else {
      assert (a + s)[1..] == a[1..] + s;
      TrimLeftPadded(a[1..], s);
    }
  }

  lemma {:induction false} TrimRightPadded(s: string, b: string)
    requires AllSpace(b) && (s == "" || !IsSpace(s[|s| - 1]))
    ensures TrimRight(s + b) == s
  {
    if b == "" {
      assert s + b == s;
    } else {
      assert (s + b)[..|s + b| - 1] == s + b[..|b| - 1];
      TrimRightPadded(s, b[..|b| - 1]);
    }
  }

  /** Padding with white space is exactly what trimming undoes. */
  lemma {:induction false} TrimSpacePadded(a: string, s: string, b: string)
    requires AllSpace(a) && AllSpace(b) && s != "" && !IsSpace(s[0]) && !IsSpace(s[|s| - 1])
    ensures TrimSpace(a + s + b) == s
  {
    assert a + s + b == a + (s + b);
    TrimLeftPadded(a, s + b);
    TrimRightPadded(s, b);
  }

  /** strings.Trim: drop leading and trailing characters of the cut set. */
  function TrimCutLeft(s: string, cut: string): (r: string)
    ensures |r| <= |s| && r == s[|s| - |r|..]
  {
    if s != "" && s[0] in cut then TrimCutLeft(s[1..], cut) else s
  }

  function TrimCutRight(s: string, cut: string): (r: string)
    ensures |r| <= |s| && r == s[..|r|]
  {
    if s != "" && s[|s| - 1] in cut then TrimCutRight(s[..|s| - 1], cut) else s
  }

  function Trim(s: string, cut: string): string {
    TrimCutRight(TrimCutLeft(s, cut), cut)
  }

  // ---- Split and Join --------------------------------------------------------

  /** strings.Split with a one-character separator. */
  function Split(s: string, c: char): (r: seq<string>)
    ensures |r| >= 1
    ensures forall i :: 0 <= i < |r| ==> c !in r[i]
  {
    if s == "" then [""] else Prepend(s[0], Split(s[1..], c), c)
  }

  /** One more character in front: a separator opens a new piece, another one joins the first. */
  function Prepend(x: char, rest: seq<string>, c: char): (r: seq<string>)
    requires |rest| >= 1
    ensures |r| >= 1
    ensures (forall i :: 0 <= i < |rest| ==> c !in rest[i]) ==> forall i :: 0 <= i < |r| ==> c !in r[i]
  {
    if x == c then [""] + rest else [[x] + rest[0]] + rest[1..]
  }

  lemma {:induction false} PrependAppend(x: char, a: seq<string>, b: seq<string>, c: char)
    requires |a| >= 1
    ensures Prepend(x, a + b, c) == Prepend(x, a, c) + b
  {
    assert (a + b)[1..] == a[1..] + b;
  }

  /** strings.Join with a one-character separator. */
  function Join(xs: seq<string>, c: char): string {
    if xs == [] then "" else if |xs| == 1 then xs[0] else xs[0] + [c] + Join(xs[1..], c)
  }

  lemma {:induction false} JoinSplit(s: string, c: char)
    ensures Join(Split(s, c), c) == s
  {
    if s != "" {
      JoinSplit(s[1..], c);
      var rest := Split(s[1..], c);
      if s[0] == c {
        assert ([""] + rest)[1..] == rest;
      } else {
        assert ([[s[0]] + rest[0]] + rest[1..])[1..] == rest[1..];
      }
    }
  }

  lemma {:induction false} SplitAt(a: string, c: char, b: string)
    ensures Split(a + [c] + b, c) == Split(a, c) + Split(b, c)
  {
    var t := a + [c] + b;
    if a == "" {
      assert t[0] == c && t[1..] == b;
    } else {
      SplitAt(a[1..], c, b);
      assert t[0] == a[0] && t[1..] == a[1..] + [c] + b;
      PrependAppend(a[0], Split(a[1..], c), Split(b, c), c);
    }
  }

  lemma {:induction false} SplitNone(s: string, c: char)
    requires c !in s
    ensures Split(s, c) == [s]
  {
    if s != "" {
      SplitNone(s[1..], c);
      assert [s[0]] + s[1..] == s;
    }
  }

  lemma {:induction false} SplitJoin(xs: seq<string>, c: char)
    requires xs != [] && forall i :: 0 <= i < |xs| ==> c !in xs[i]
    ensures Split(Join(xs, c), c) == xs
  {
    SplitNone(xs[0], c);
    if |xs| > 1 {
      SplitJoin(xs[1..], c);
      SplitAt(xs[0], c, Join(xs[1..], c));
      assert [xs[0]] + xs[1..] == xs;
    }
  }

  lemma {:induction false} JoinAppend(xs: seq<string>, ys: seq<string>, c: char)
    requires xs != [] && ys != []
    ensures Join(xs + ys, c) == Join(xs, c) + [c] + Join(ys, c)
  {
    if |xs| == 1 {
      assert (xs + ys)[1..] == ys;
    } else {
      assert (xs + ys)[1..] == xs[1..] + ys;
      JoinAppend(xs[1..], ys, c);
    }
  }

  /** What follows the last separator, and what precedes it. */
  lemma {:induction false} SplitAppendLine(t: string, e: string, c: char)
    requires c !in e
    ensures Split(t + e + [c], c) ==
      Split(t, c)[..|Split(t, c)| - 1] + [Split(t, c)[|Split(t, c)| - 1] + e, ""]
  {
    SplitAppend(t, e, c);
    SplitAt(t + e, c, "");
    assert t + e + [c] + "" == t + e + [c];
  }

  lemma {:induction false} SplitAppend(t: string, e: string, c: char)
    requires c !in e
    ensures Split(t + e, c) ==
      Split(t, c)[..|Split(t, c)| - 1] + [Split(t, c)[|Split(t, c)| - 1] + e]
  {
    var ls := Split(t, c);
    var last := ls[|ls| - 1];
    assert ls == ls[..|ls| - 1] + [last];
    JoinSplit(t, c);
    SplitNone(last + e, c);
    if |ls| > 1 {
      var front := Join(ls[..|ls| - 1], c);
      JoinAppend(ls[..|ls| - 1], [last], c);
      assert t + e == front + [c] + (last + e);
      SplitJoin(ls[..|ls| - 1], c);
      SplitAt(front, c, last + e);
    }
  }

  // ---- Fields ----------------------------------------------------------------

  function WordEnd(s: string): (n: nat)
    ensures n <= |s| && NoSpace(s[..n]) && (n < |s| ==> IsSpace(s[n]))
  {
    if s == "" || IsSpace(s[0]) then 0 else 1 + WordEnd(s[1..])
  }

  /** strings.Fields. */
  function Fields(s: string): seq<string>
    decreases |s|
  {
    if s == "" then []
    else if IsSpace(s[0]) then Fields(s[1..])
    else [s[..WordEnd(s)]] + Fields(s[WordEnd(s)..])
  }

  lemma {:induction false} FieldsAreTokens(s: string)
    ensures forall i :: 0 <= i < |Fields(s)| ==> Token(Fields(s)[i])
    decreases |s|
  {
    if s != "" {
      if IsSpace(s[0]) {
        FieldsAreTokens(s[1..]);
      } else {
        FieldsAreTokens(s[WordEnd(s)..]);
      }
    }
  }

  lemma {:induction false} WordEndToken(w: string, t: string)
    requires NoSpace(w) && (t == "" || IsSpace(t[0]))
    ensures WordEnd(w + t) == |w|
  {
    if w == "" {
      assert w + t == t;
    } else {
      assert (w + t)[1..] == w[1..] + t;
      WordEndToken(w[1..], t);
    }
  }

  lemma {:induction false} FieldsToken(w: string, t: string)
    requires Token(w) && (t == "" || IsSpace(t[0]))
    ensures Fields(w + t) == [w] + Fields(t)
  {
    WordEndToken(w, t);
    assert (w + t)[..|w|] == w && (w + t)[|w|..] == t;
  }

  lemma {:induction false} FieldsSpace(c: char, t: string)
    requires IsSpace(c)
    ensures Fields([c] + t) == Fields(t)
  {
    assert ([c] + t)[1..] == t;
  }

  lemma {:induction false} FieldsLeading(a: string, t: string)
    requires AllSpace(a)
    ensures Fields(a + t) == Fields(t)
  {
    if a == "" {
      assert a + t == t;
    } else {
      FieldsLeading(a[1..], t);
      assert a + t == [a[0]] + (a[1..] + t);
      FieldsSpace(a[0], a[1..] + t);
    }
  }

  lemma {:induction false} FieldsTrailing(s: string, b: string)
    requires AllSpace(b)
    ensures Fields(s + b) == Fields(s)
    decreases |s|
  {
    if s == "" {
      FieldsLeading(b, "");
      assert b + "" == s + b;
    } else if IsSpace(s[0]) {
      FieldsTrailing(s[1..], b);
      assert (s + b)[1..] == s[1..] + b;
    } else {
      var n := WordEnd(s);
      FieldsTrailing(s[n..], b);
      assert s + b == s[..n] + (s[n..] + b) && s == s[..n] + s[n..];
      FieldsToken(s[..n], s[n..] + b);
      FieldsToken(s[..n], s[n..]);
    }
  }

  lemma {:induction false} FieldsTrim(s: string)
    ensures Fields(TrimSpace(s)) == Fields(s)
  {
    var a, b := TrimSpaceParts(s);
    FieldsTrailing(a + TrimSpace(s), b);
    FieldsLeading(a, TrimSpace(s));
  }

  /** Two tokens separated by one space character are the first two fields. */
  lemma {:induction false} FieldsTwo(a: string, c: char, b: string, rest: string)
    requires Token(a) && IsSpace(c) && Token(b) && (rest == "" || IsSpace(rest[0]))
    ensures Fields(a + [c] + b + rest) == [a, b] + Fields(rest)
  {
    var t := b + rest;
    Associate(a + [c], b, rest);
    Associate(a, [c], t);
    FieldsToken(a, [c] + t);
    FieldsSpace(c, t);
    FieldsToken(b, rest);
    Associate([a], [b], Fields(rest));
    assert [a] + [b] == [a, b];
  }

  /** The fields of text before and after a space character are concatenated. */
  lemma {:induction false} FieldsAt(a: string, c: char, b: string)
    requires IsSpace(c)
    ensures Fields(a + [c] + b) == Fields(a) + Fields(b)
    decreases |a|
  {
    var t := [c] + b;
    assert a + [c] + b == a + t;
    if a == "" {
      assert a + t == [c] + b;
      FieldsSpace(c, b);
    } else if IsSpace(a[0]) {
      FieldsAt(a[1..], c, b);
      assert (a + t)[1..] == a[1..] + [c] + b;
    } else {
      var n := WordEnd(a);
      FieldsAt(a[n..], c, b);
      assert a + t == a[..n] + (a[n..] + t);
      assert a[n..] + t == a[n..] + [c] + b;
      FieldsAfterToken(a[..n], a[n..] + t, Fields(a[n..]), Fields(b));
    }
  }

  lemma {:induction false} FieldsAfterToken(w: string, t: string, fs: seq<string>, gs: seq<string>)
    requires Token(w) && (t == "" || IsSpace(t[0])) && Fields(t) == fs + gs
    ensures Fields(w + t) == [w] + fs + gs
  {
    FieldsToken(w, t);
    Associate([w], fs, gs);
  }

  lemma {:induction false} FieldsOne(w: string)
    requires Token(w)
    ensures Fields(w) == [w]
  {
    FieldsToken(w, "");
    assert w + "" == w;
  }

  // ---- Index, Cut ------------------------------------------------------------

  /** strings.IndexByte: the first position of c, or -1. */
  function IndexOf(s: string, c: char): (i: int)
    ensures -1 <= i < |s|
    ensures i >= 0 ==> s[i] == c && c !in s[..i]
    ensures i == -1 <==> c !in s
  {
    if s == "" then -1
    else if s[0] == c then 0
    else
      var j := IndexOf(s[1..], c);
      assert s == [s[0]] + s[1..];
      if j < 0 then -1 else 1 + j
  }

  lemma {:induction false} IndexOfAt(a: string, c: char, b: string)
    requires c !in a
    ensures IndexOf(a + [c] + b, c) == |a|
  {
    var s := a + [c] + b;
    assert s[|a|] == c && s[..|a|] == a;
    assert forall i :: |a| < i < |s| ==> s[..i][|a|] == c;
  }

  // ---- Decimal numbers -------------------------------------------------------

  function Digit(d: nat): char
    requires d < 10
  {
    '0' + d as char
  }

  function DigitValue(c: char): (d: nat)
    requires IsDigit(c)
    ensures d < 10
  {
    (c - '0') as nat
  }

  /** strconv.Itoa and the verb %d on a non-negative number. */
  function Itoa(n: nat): (s: string)
    ensures s != "" && forall i :: 0 <= i < |s| ==> IsDigit(s[i])
  {
    if n < 10 then [Digit(n)] else Itoa(n / 10) + [Digit(n % 10)]
  }

  /** The number written in decimal digits; -1 for anything else. */
  function ParseNat(s: string): (r: int)
    ensures r >= -1
  {
    if s == "" then -1
    else if !IsDigit(s[|s| - 1]) then -1
    else if |s| == 1 then DigitValue(s[0])
    else
      var h := ParseNat(s[..|s| - 1]);
      if h < 0 then -1 else 10 * h + DigitValue(s[|s| - 1])
  }

  lemma {:induction false} ParseItoa(n: nat)
    ensures ParseNat(Itoa(n)) == n
  {
    if n >= 10 {
      ParseItoa(n / 10);
      assert Itoa(n)[..|Itoa(n)| - 1] == Itoa(n / 10);
    }
  }
}
