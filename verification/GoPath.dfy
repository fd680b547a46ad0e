/**
 * Package path/filepath on Unix, defined from its documentation: Clean, Join, Dir, Base,
 * with the component lists behind the strings.
 */
module GoPath {
  import opened GoStrings

  // ---- Components ------------------------------------------------------------

  predicate Plain(c: string) {
    c != "" && c != "." && c != ".." && '/' !in c
  }

  predicate AllPlain(xs: seq<string>) {
    forall i :: 0 <= i < |xs| ==> Plain(xs[i])
  }

  /** A component that Clean looks at: not empty and not ".". */
  predicate Significant(c: string) {
    c != "" && c != "." && '/' !in c
  }

  predicate AllSignificant(xs: seq<string>) {
    forall i :: 0 <= i < |xs| ==> Significant(xs[i])
  }

  function Keep(xs: seq<string>): (r: seq<string>)
    requires forall i :: 0 <= i < |xs| ==> '/' !in xs[i]
    ensures AllSignificant(r)
  {
    if xs == [] then [] else (if xs[0] == "" || xs[0] == "." then [] else [xs[0]]) + Keep(xs[1..])
  }

  function Parts(s: string): (r: seq<string>)
    ensures AllSignificant(r)
  {
    Keep(Split(s, '/'))
  }

  /** One component onto the result: ".." takes the last one away, if there is one. */
  function Push(rooted: bool, st: seq<string>, c: string): seq<string> {
    if c != ".." then st + [c]
    else if st != [] && st[|st| - 1] != ".." then st[..|st| - 1]
    else if rooted then st
    else st + [".."]
  }

  function Walk(rooted: bool, st: seq<string>, xs: seq<string>): seq<string>
    decreases xs
  {
    if xs == [] then st else Walk(rooted, Push(rooted, st, xs[0]), xs[1..])
  }

  // ---- The library functions -------------------------------------------------

  function Rooted(s: string): bool {
    s != "" && s[0] == '/'
  }

  function ToPath(xs: seq<string>): string {
    "/" + Join(xs, '/')
  }

  function Clean(s: string): string {
    var xs := Walk(Rooted(s), [], Parts(s));
    if Rooted(s) then ToPath(xs) else if xs == [] then "." else Join(xs, '/')
  }

  /** filepath.Join: the elements from the first non-empty one, joined and cleaned. */
  function PathJoin(elems: seq<string>): string {
    if elems == [] then "" else if elems[0] == "" then PathJoin(elems[1..]) else Clean(Join(elems, '/'))
  }

  function LastSlash(s: string): (i: int)
    ensures -1 <= i < |s|
    ensures i >= 0 ==> s[i] == '/' && '/' !in s[i + 1..]
    ensures i == -1 ==> '/' !in s
  {
    if s == "" then -1 else if s[|s| - 1] == '/' then |s| - 1
    else
      var i := LastSlash(s[..|s| - 1]);
      assert s == s[..|s| - 1] + [s[|s| - 1]];
      i
  }

  function Dir(s: string): string {
    Clean(s[..LastSlash(s) + 1])
  }

  function StripSlashes(s: string): string {
    if s != "" && s[|s| - 1] == '/' then StripSlashes(s[..|s| - 1]) else s
  }

  function Base(s: string): string {
    if s == "" then "."
    else
      var t := StripSlashes(s);
      var b := t[LastSlash(t) + 1..];
      if b == "" then "/" else b
  }

  // ---- Laws of the components ------------------------------------------------

  lemma {:induction false} KeepHead(xs: seq<string>)
    requires xs != [] && forall i :: 0 <= i < |xs| ==> '/' !in xs[i]
    ensures Keep(xs) == (if xs[0] == "" || xs[0] == "." then [] else [xs[0]]) + Keep(xs[1..])
  {
  }

  lemma {:induction false} KeepAppend(a: seq<string>, b: seq<string>)
    requires forall i :: 0 <= i < |a| ==> '/' !in a[i]
    requires forall i :: 0 <= i < |b| ==> '/' !in b[i]
    ensures forall i :: 0 <= i < |a + b| ==> '/' !in (a + b)[i]
    ensures Keep(a + b) == Keep(a) + Keep(b)
  {
    if a == [] {
      assert a + b == b;
    } else {
      assert (a + b)[0] == a[0] && (a + b)[1..] == a[1..] + b;
      KeepAppend(a[1..], b);
      KeepHead(a);
      KeepHead(a + b);
      Associate(if a[0] == "" || a[0] == "." then [] else [a[0]], Keep(a[1..]), Keep(b));
    }
  }

  lemma {:induction false} PartsAt(a: string, b: string)
    ensures Parts(a + "/" + b) == Parts(a) + Parts(b)
  {
    SplitAt(a, '/', b);
    KeepAppend(Split(a, '/'), Split(b, '/'));
  }

  lemma {:induction false} PartsEmpty()
    ensures Parts("") == []
  {
    assert Split("", '/')[1..] == [];
  }

  lemma {:induction false} PartsRooted(s: string)
    ensures Parts("/" + s) == Parts(s)
  {
    PartsAt("", s);
    PartsEmpty();
    assert "" + "/" + s == "/" + s;
  }

  lemma {:induction false} KeepAll(xs: seq<string>)
    requires AllSignificant(xs)
    ensures forall i :: 0 <= i < |xs| ==> '/' !in xs[i]
    ensures Keep(xs) == xs
  {
    if xs != [] {
      KeepAll(xs[1..]);
      assert xs == [xs[0]] + xs[1..];
    }
  }

  lemma {:induction false} PartsJoin(xs: seq<string>)
    requires AllSignificant(xs)
    ensures Parts(Join(xs, '/')) == xs
  {
    if xs == [] {
      PartsEmpty();
    } else {
      SplitJoin(xs, '/');
      KeepAll(xs);
    }
  }

  lemma {:induction false} PartsOfPath(xs: seq<string>)
    requires AllSignificant(xs)
    ensures Parts(ToPath(xs)) == xs
  {
    PartsRooted(Join(xs, '/'));
    PartsJoin(xs);
  }

  /** Different component lists are different paths. */
  lemma {:induction false} ToPathInjective(xs: seq<string>, ys: seq<string>)
    requires AllPlain(xs) && AllPlain(ys) && ToPath(xs) == ToPath(ys)
    ensures xs == ys
  {
    PartsOfPath(xs);
    PartsOfPath(ys);
  }

  lemma {:induction false} WalkAppend(rooted: bool, st: seq<string>, xs: seq<string>, ys: seq<string>)
    ensures Walk(rooted, st, xs + ys) == Walk(rooted, Walk(rooted, st, xs), ys)
    decreases xs
  {
    if xs == [] {
      assert xs + ys == ys;
    } else {
      assert (xs + ys)[1..] == xs[1..] + ys;
      WalkAppend(rooted, Push(rooted, st, xs[0]), xs[1..], ys);
    }
  }

  lemma {:induction false} WalkOne(rooted: bool, st: seq<string>, c: string)
    ensures Walk(rooted, st, [c]) == Push(rooted, st, c)
  {
    assert [c][1..] == [];
  }

  lemma {:induction false} WalkPlain(rooted: bool, st: seq<string>, xs: seq<string>)
    requires AllPlain(xs)
    ensures Walk(rooted, st, xs) == st + xs
    decreases xs
  {
    if xs == [] {
      assert st + xs == st;
    } else {
      WalkPlain(rooted, st + [xs[0]], xs[1..]);
      assert st + [xs[0]] + xs[1..] == st + xs;
    }
  }

  lemma {:induction false} WalkSignificant(rooted: bool, st: seq<string>, xs: seq<string>)
    requires AllSignificant(xs)
    requires AllSignificant(st)
    ensures AllSignificant(Walk(rooted, st, xs))
    ensures rooted && AllPlain(st) ==> AllPlain(Walk(rooted, st, xs))
    decreases xs
  {
    if xs != [] {
      WalkSignificant(rooted, Push(rooted, st, xs[0]), xs[1..]);
    }
  }

  /**
   * Collapsing a relative path first and rooting it afterwards is the same as rooting it
   * first: leading ".." that a relative path keeps are lost at the root either way.
   */
  lemma {:induction false} RootAfterCollapse(st: seq<string>, xs: seq<string>)
    ensures Walk(true, [], Walk(false, st, xs)) == Walk(true, Walk(true, [], st), xs)
    decreases xs
  {
    if xs != [] {
      var c := xs[0];
      RootAfterCollapse(Push(false, st, c), xs[1..]);
      if c == ".." && st != [] && st[|st| - 1] != ".." {
        var front, last := st[..|st| - 1], st[|st| - 1];
        assert st == front + [last];
        WalkAppend(true, [], front, [last]);
        WalkOne(true, Walk(true, [], front), last);
        assert Push(true, Walk(true, [], front) + [last], "..") == Walk(true, [], front);
      } else {
        WalkAppend(true, [], st, [c]);
        WalkOne(true, Walk(true, [], st), c);
      }
    }
  }

  /** The components a path denotes below the root directory, ".." stopping there. */
  function Target(s: string): (r: seq<string>)
    ensures AllPlain(r)
  {
    WalkSignificant(true, [], Parts(s));
    Walk(true, [], Parts(s))
  }

  lemma {:induction false} CleanRooted(s: string)
    requires Rooted(s)
    ensures Clean(s) == ToPath(Target(s))
  {
  }

  lemma {:induction false} CleanPath(xs: seq<string>)
    requires AllPlain(xs)
    ensures Clean(ToPath(xs)) == ToPath(xs)
  {
    PartsOfPath(xs);
    WalkPlain(true, [], xs);
    assert [] + xs == xs;
  }

  lemma {:induction false} TargetOfPath(xs: seq<string>)
    requires AllPlain(xs)
    ensures Target(ToPath(xs)) == xs
  {
    PartsOfPath(xs);
    WalkPlain(true, [], xs);
    assert [] + xs == xs;
  }

  /** Cleaning a path, rooted or not, does not change what it denotes below the root. */
  lemma {:induction false} TargetOfClean(s: string)
    ensures Target(Clean(s)) == Target(s)
  {
    var xs := Parts(s);
    WalkSignificant(Rooted(s), [], xs);
    var ys := Walk(Rooted(s), [], xs);
    if Rooted(s) {
      TargetOfPath(ys);
    } else {
      RootAfterCollapse([], xs);
      if ys == [] {
        DotHasNoParts();
      } else {
        PartsJoin(ys);
      }
    }
  }

  lemma {:induction false} DotHasNoParts()
    ensures Parts(".") == []
  {
    SplitNone(".", '/');
    assert Keep(["."]) == [] by {
      assert ["."][1..] == [];
    }
  }

  lemma {:induction false} JoinTarget(rel: string, name: string)
    requires Plain(name)
    ensures Target(PathJoin([rel, name])) == Target(rel) + [name]
  {
    SplitNone(name, '/');
    KeepAll([name]);
    assert Parts(name) == [name];
    if rel == "" {
      PartsEmpty();
      assert [rel, name][1..] == [name];
      assert Join([name], '/') == name;
      TargetOfClean(name);
    } else {
      assert Join([rel, name], '/') == rel + "/" + name by {
        assert [rel, name][1..] == [name];
      }
      TargetOfClean(rel + "/" + name);
      PartsAt(rel, name);
    }
    WalkAppend(true, [], Parts(rel), [name]);
    WalkOne(true, Target(rel), name);
  }

  // ---- What "..", "." and empty components do ----------------------------------

  lemma {:induction false} PartsOfName(c: string)
    requires Significant(c)
    ensures Parts(c) == [c]
  {
    SplitNone(c, '/');
    KeepAll([c]);
  }

  /** A component and ".." after it cancel. */
  lemma {:induction false} UpCancels(a: string, c: string)
    requires Plain(c)
    ensures Target(a + "/" + c + "/" + "..") == Target(a)
  {
    PartsAt(a + "/" + c, "..");
    PartsAt(a, c);
    PartsOfName(c);
    PartsOfName("..");
    WalkAppend(true, [], Parts(a) + [c], [".."]);
    WalkAppend(true, [], Parts(a), [c]);
    WalkOne(true, Target(a), c);
    WalkOne(true, Target(a) + [c], "..");
    assert (Target(a) + [c])[..|Target(a)|] == Target(a);
  }

  /** At the root ".." stays there. */
  lemma {:induction false} UpAtTheTop(b: string)
    ensures Target("..") == [] && Target(".." + "/" + b) == Target(b)
  {
    PartsOfName("..");
    PartsAt("..", b);
    WalkOne(true, [], "..");
    WalkAppend(true, [], [".."], Parts(b));
  }

  /** A relative path keeps what leads out of it; a rooted one does not. */
  lemma {:induction false} UpStays(x: string)
    requires Plain(x)
    ensures Clean(".." + "/" + x) == ".." + "/" + x
    ensures Clean("/" + (".." + "/" + x)) == "/" + x
  {
    PartsOfName(x);
    UpWalks(x);
    assert Join([x], '/') == x;
    assert Join(["..", x], '/') == ".." + "/" + x by {
      assert ["..", x][1..] == [x];
    }
    PartsRooted(".." + "/" + x);
    UpAtTheTop(x);
    WalkOne(true, [], x);
    assert [] + [x] == [x];
  }

  lemma {:induction false} UpWalks(x: string)
    requires Plain(x)
    ensures Walk(false, [], Parts(".." + "/" + x)) == ["..", x]
  {
    PartsOfName("..");
    PartsOfName(x);
    PartsAt("..", x);
    WalkAppend(false, [], [".."], [x]);
    WalkOne(false, [], "..");
    WalkOne(false, [".."], x);
    assert [".."] + [x] == ["..", x];
  }

  /** "." and empty components change nothing, wherever they stand. */
  lemma {:induction false} DotsVanish(a: string, b: string)
    ensures Target(a + "/" + "." + "/" + b) == Target(a + "/" + b)
    ensures Target(a + "/" + "" + "/" + b) == Target(a + "/" + b)
  {
    PartsAt(a, b);
    PartsAt(a + "/" + ".", b);
    PartsAt(a, ".");
    DotHasNoParts();
    PartsAt(a + "/" + "", b);
    PartsAt(a, "");
    PartsEmpty();
    assert Parts(a) + [] == Parts(a);
  }

  // ---- Laws of clean absolute paths ------------------------------------------

  lemma {:induction false} PathAppend(xs: seq<string>, ys: seq<string>)
    requires xs != [] && ys != []
    ensures ToPath(xs + ys) == ToPath(xs) + "/" + Join(ys, '/')
  {
    JoinAppend(xs, ys, '/');
  }

  lemma {:induction false} LastSlashAt(a: string, b: string)
    requires '/' !in b
    ensures LastSlash(a + "/" + b) == |a|
  {
    var s := a + "/" + b;
    if b == "" {
      assert s[|s| - 1] == '/';
    } else {
      assert s[|s| - 1] == b[|b| - 1];
      assert s[..|s| - 1] == a + "/" + b[..|b| - 1];
      LastSlashAt(a, b[..|b| - 1]);
    }
  }

  /** The last component of a path and the rest. */
  lemma {:induction false} SplitPath(xs: seq<string>) returns (front: string)
    requires AllPlain(xs) && xs != []
    ensures var last := xs[|xs| - 1];
            ToPath(xs) == front + "/" + last && Parts(front + "/") == xs[..|xs| - 1] && front + "/" != ""
            && Rooted(front + "/") && last != ""
  {
    var init, last := xs[..|xs| - 1], xs[|xs| - 1];
    assert xs == init + [last];
    PartsEmpty();
    if init == [] {
      front := "";
      PartsRooted("");
      assert "" + "/" == "/" + "";
      assert Join(xs, '/') == last;
    } else {
      front := ToPath(init);
      PathAppend(init, [last]);
      PartsAt(front, "");
      assert front + "/" + "" == front + "/";
      PartsOfPath(init);
    }
  }

  lemma {:induction false} DirOfPath(xs: seq<string>)
    requires AllPlain(xs)
    ensures Dir(ToPath(xs)) == if xs == [] then "/" else ToPath(xs[..|xs| - 1])
  {
    if xs == [] {
      assert ToPath(xs) == "/" && LastSlash("/") == 0 && "/"[..1] == "/";
      CleanPath([]);
    } else {
      var front := SplitPath(xs);
      LastSlashAt(front, xs[|xs| - 1]);
      assert ToPath(xs)[..|front| + 1] == front + "/";
      WalkPlain(true, [], xs[..|xs| - 1]);
      assert [] + xs[..|xs| - 1] == xs[..|xs| - 1];
    }
  }

  lemma {:induction false} BaseOfPath(xs: seq<string>)
    requires AllPlain(xs) && xs != []
    ensures Base(ToPath(xs)) == xs[|xs| - 1]
  {
    var last := xs[|xs| - 1];
    var front := SplitPath(xs);
    var s := ToPath(xs);
    assert s[|s| - 1] == last[|last| - 1] && s[|s| - 1] != '/';
    LastSlashAt(front, last);
    assert s[|front| + 1..] == last;
  }

  lemma {:induction false} JoinParts(p: string, ys: seq<string>)
    requires AllPlain(ys)
    ensures Parts(Join([p] + ys, '/')) == Parts(p) + ys
  {
    if ys == [] {
      assert [p] + ys == [p];
    } else {
      assert ([p] + ys)[1..] == ys;
      PartsAt(p, Join(ys, '/'));
      PartsJoin(ys);
    }
  }

  /** Reattaching components with filepath.Join. */
  lemma {:induction false} JoinOntoPath(xs: seq<string>, ys: seq<string>)
    requires AllPlain(xs) && AllPlain(ys)
    ensures PathJoin([ToPath(xs)] + ys) == ToPath(xs + ys)
  {
    JoinParts(ToPath(xs), ys);
    PartsOfPath(xs);
    WalkPlain(true, [], xs + ys);
    assert [] + (xs + ys) == xs + ys;
    var s := Join([ToPath(xs)] + ys, '/');
    assert Rooted(s) by {
      if ys == [] {
        assert [ToPath(xs)] + ys == [ToPath(xs)];
      }
    }
  }

  /** The textual prefix test with separators is the prefix test on components. */
  lemma {:induction false} PrefixTest(m: seq<string>, r: seq<string>)
    requires AllPlain(m) && AllPlain(r) && m != []
    ensures HasPrefix(ToPath(r) + "/", ToPath(m) + "/") <==> m <= r
  {
    var s, p := ToPath(r) + "/", ToPath(m) + "/";
    if m <= r {
      PathExtends(m, r[|m|..]);
      assert r == m + r[|m|..];
    }
    if HasPrefix(s, p) {
      assert s == p + s[|p|..];
      PrefixParts(m, r, s[|p|..]);
    }
  }

  lemma {:induction false} PathExtends(m: seq<string>, t: seq<string>)
    requires m != []
    ensures HasPrefix(ToPath(m + t) + "/", ToPath(m) + "/")
  {
    if t == [] {
      assert m + t == m;
    } else {
      PathAppend(m, t);
      var p := ToPath(m) + "/";
      assert ToPath(m + t) + "/" == p + (Join(t, '/') + "/");
    }
  }

  lemma {:induction false} PrefixParts(m: seq<string>, r: seq<string>, rest: string)
    requires AllPlain(m) && AllPlain(r) && ToPath(r) + "/" == ToPath(m) + "/" + rest
    ensures m <= r
  {
    PartsAt(ToPath(r), "");
    PartsEmpty();
    assert ToPath(r) + "/" + "" == ToPath(r) + "/";
    PartsAt(ToPath(m), rest);
    PartsOfPath(r);
    PartsOfPath(m);
    assert r + [] == r;
  }
}
