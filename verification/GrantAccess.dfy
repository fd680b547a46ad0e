/**
 * GrantShareAccess (shares.go): opening a share's tree and the way to it for "other", in a
 * filesystem with symbolic links, which chmod follows.
 */
module GrantAccess {
  import opened GoStrings
  import opened GoPath
  import opened Canon

  datatype Bit = UR | UW | UX | GR | GW | GX | OR | OW | OX

  /** The permission bits of each node. */
  type Modes = map<seq<string>, set<Bit>>

  predicate PathOk(path: string) {
    HasPrefix(path, "/") && !ContainsAny(path, "\n\r\0\"'`")
  }

  lemma {:induction false} PathOkIff(path: string)
    ensures PathOk(path) <==> path != "" && path[0] == '/' && forall i :: 0 <= i < |path| ==> !Unquotable(path[i])
  {
    UnquotableIff(path);
  }

  /** The proper ancestors other than "/", innermost first. */
  function Ancestors(xs: seq<string>): (r: seq<seq<string>>)
    ensures |r| == if xs == [] then 0 else |xs| - 1
    ensures forall i :: 0 <= i < |r| ==> r[i] == xs[..|xs| - 1 - i]
  {
    if |xs| <= 1 then []
    else
      var front := xs[..|xs| - 1];
      assert forall i :: 0 <= i <= |front| ==> front[..i] == xs[..i];
      [front] + Ancestors(front)
  }

  /** Each proper ancestor except "/" occurs, and none twice. */
  lemma {:induction false} AncestorsOnce(xs: seq<string>)
    ensures forall p :: p in Ancestors(xs) <==> p < xs && p != []
    ensures forall i, j :: 0 <= i < j < |Ancestors(xs)| ==> Ancestors(xs)[i] != Ancestors(xs)[j]
  {
    var r := Ancestors(xs);
    forall p | p < xs && p != []
      ensures p in r
    {
      assert r[|xs| - 1 - |p|] == xs[..|p|] == p;
    }
  }

  /** chmod o+rX: execute only for directories and for what is executable already. */
  function Opened(isDir: bool, bits: set<Bit>): set<Bit> {
    bits + {OR} + if isDir || UX in bits || GX in bits || OX in bits then {OX} else {}
  }

  /** The whole subtree of a node, as chmod -R walks it: links in it are left alone. */
  predicate InSubtree(fs: Fs, top: seq<string>, q: seq<string>) {
    q in fs && top <= q && !fs[q].Link?
  }

  /** No node appears or disappears; no permission is taken away, and none is added but r and x for "other". */
  ghost predicate OnlyAdds(m: Modes, m': Modes) {
    m'.Keys == m.Keys && forall p :: p in m ==> m[p] <= m'[p] <= m[p] + {OR, OX}
  }

  predicate ReadableBelow(fs: Fs, m: Modes, top: seq<string>)
    requires m.Keys == fs.Keys
  {
    forall p :: p in fs && InSubtree(fs, top, p) ==> OR in m[p] && (fs[p].Folder? ==> OX in m[p])
  }

  /** The nodes that the paths xs[..i], from < i <= to, resolve to. */
  function Resolved(fs: Fs, xs: seq<string>, from: nat, to: nat): set<seq<string>>
    requires to <= |xs|
  {
    set i | from < i <= to && Follow(fs, [], xs[..i], KERNEL_LINKS).Found? :: Follow(fs, [], xs[..i], KERNEL_LINKS).path
  }

  /** chmod o+x on a set of nodes. */
  function WithX(m: Modes, ds: set<seq<string>>): Modes {
    map p | p in m :: m[p] + if p in ds then {OX} else {}
  }

  function WithSubtree(fs: Fs, m: Modes, top: seq<string>): Modes {
    map p | p in m :: if p in fs && InSubtree(fs, top, p) then Opened(fs[p].Folder?, m[p]) else m[p]
  }

  // ---- The way to a path -----------------------------------------------------

  /** The directories that are searched when a path is resolved, those on the way of links included. */
  function Searched(fs: Fs, cur: seq<string>, todo: seq<string>, links: nat): set<seq<string>>
    decreases links, |todo|
  {
    if todo == [] || cur !in fs || fs[cur] != Folder then {}
    else if todo[0] == ".." then {cur} + Searched(fs, Up(cur), todo[1..], links)
    else
      var p := cur + [todo[0]];
      {cur} +
      if p !in fs then {}
      else
        match fs[p]
        case Link(target) =>
          if links == 0 || target == "" then {}
          else Searched(fs, if Rooted(target) then [] else cur, Parts(target) + todo[1..], links - 1)
        case _ => Searched(fs, p, todo[1..], links)
  }

  lemma {:induction false} SearchedThere(fs: Fs, cur: seq<string>, todo: seq<string>, links: nat)
    ensures forall d :: d in Searched(fs, cur, todo, links) ==> d in fs && fs[d] == Folder
    decreases links, |todo|
  {
    if todo == [] || cur !in fs || fs[cur] != Folder {
    } else if todo[0] == ".." {
      SearchedThere(fs, Up(cur), todo[1..], links);
    } else if cur + [todo[0]] in fs {
      match fs[cur + [todo[0]]]
      case Link(target) =>
        if links > 0 && target != "" {
          SearchedThere(fs, if Rooted(target) then [] else cur, Parts(target) + todo[1..], links - 1);
        }
      case _ => SearchedThere(fs, cur + [todo[0]], todo[1..], links);
    }
  }

  predicate OpenDir(m: Modes, d: seq<string>) {
    d in m && OX in m[d]
  }

  /** "other" may search every directory on the way to the path. */
  ghost predicate WayOpen(fs: Fs, m: Modes, xs: seq<string>) {
    forall d :: d in Searched(fs, [], xs, KERNEL_LINKS) ==> OpenDir(m, d)
  }

  /** The permissions after a grant in which every chmod succeeded. */
  function Granted(fs: Fs, m: Modes, xs: seq<string>, top: seq<string>): Modes
    requires xs != []
  {
    WithSubtree(fs, WithX(m, Resolved(fs, xs, 0, |xs| - 1)), top)
  }

  /**
   * What a grant adds: on a node of the opened tree r, and x if it is a folder or executable
   * for anyone by then; on what an ancestor resolves to x.
   */
  lemma {:induction false} GrantedBits(fs: Fs, m: Modes, xs: seq<string>, top: seq<string>, p: seq<string>)
    requires xs != [] && m.Keys == fs.Keys && p in fs
    ensures var passed := exists i :: 0 < i < |xs| && Follow(fs, [], xs[..i], KERNEL_LINKS) == Found(p);
            var within := top <= p && !fs[p].Link?;
            var bits := Granted(fs, m, xs, top)[p];
            && bits - {OR, OX} == m[p] - {OR, OX}
            && (OR in bits <==> OR in m[p] || within)
            && (OX in bits <==> OX in m[p] || passed || (within && (fs[p].Folder? || UX in m[p] || GX in m[p])))
  {
  }

  /**
   * After a grant the way to the path is open exactly when each directory searched on it was
   * open before, is what an ancestor of the path resolves to, or lies in the opened tree.
   */
  lemma {:induction false} GrantOpensWayIff(fs: Fs, m: Modes, xs: seq<string>, top: seq<string>)
    requires xs != [] && m.Keys == fs.Keys
    ensures WayOpen(fs, Granted(fs, m, xs, top), xs) <==>
            forall d :: d in Searched(fs, [], xs, KERNEL_LINKS) ==>
              OpenDir(m, d) || d in Resolved(fs, xs, 0, |xs| - 1) || top <= d
  {
    SearchedThere(fs, [], xs, KERNEL_LINKS);
    forall d | d in Searched(fs, [], xs, KERNEL_LINKS)
      ensures OpenDir(Granted(fs, m, xs, top), d) <==> OpenDir(m, d) || d in Resolved(fs, xs, 0, |xs| - 1) || top <= d
    {
      assert d in fs && fs[d] == Folder;
    }
  }

  function Prefixes(base: seq<string>, rest: seq<string>, from: nat, to: nat): set<seq<string>>
    requires to <= |rest|
  {
    set i | from <= i < to :: base + rest[..i]
  }

  /** On a link-free way the directories searched are the path's proper prefixes. */
  lemma {:induction false} SearchedReal(fs: Fs, cur: seq<string>, rest: seq<string>, links: nat)
    requires FsOk(fs) && LinkFree(fs, cur + rest) && AllPlain(rest)
    ensures Searched(fs, cur, rest, links) == Prefixes(cur, rest, 0, |rest|)
    decreases |rest|
  {
    if rest != [] {
      var next := cur + [rest[0]];
      assert (cur + rest)[..|cur| + 1] == next;
      LinkFreePrefix(fs, cur + rest, |cur| + 1);
      RealStep(fs, cur, rest[0]);
      assert next + rest[1..] == cur + rest;
      SearchedReal(fs, next, rest[1..], links);
      PrefixesCons(cur, rest);
    }
  }

  lemma {:induction false} PrefixesCons(cur: seq<string>, rest: seq<string>)
    requires rest != []
    ensures Prefixes(cur, rest, 0, |rest|) == {cur} + Prefixes(cur + [rest[0]], rest[1..], 0, |rest| - 1)
  {
    var a, b := Prefixes(cur, rest, 0, |rest|), Prefixes(cur + [rest[0]], rest[1..], 0, |rest| - 1);
    forall i | 0 <= i < |rest| - 1
      ensures cur + [rest[0]] + rest[1..][..i] == cur + rest[..i + 1]
    {
    }
    assert cur + rest[..0] == cur;
    forall p | p in a
      ensures p in {cur} + b
    {
      var i :| 0 <= i < |rest| && p == cur + rest[..i];
      assert i > 0 ==> p == cur + [rest[0]] + rest[1..][..i - 1];
    }
    forall p | p in b
      ensures p in a
    {
      var i :| 0 <= i < |rest| - 1 && p == cur + [rest[0]] + rest[1..][..i];
      assert p == cur + rest[..i + 1];
    }
  }

  lemma {:induction false} ResolvedReal(fs: Fs, xs: seq<string>, i: nat)
    requires FsOk(fs) && LinkFree(fs, xs) && AllPlain(xs) && i <= |xs|
    ensures Follow(fs, [], xs[..i], KERNEL_LINKS) == Found(xs[..i])
  {
    LinkFreePrefix(fs, xs, i);
    assert [] + xs[..i] == xs[..i];
    FollowReal(fs, [], xs[..i], KERNEL_LINKS);
  }

  /** Without links a grant opens the way exactly when "/" was open. */
  lemma {:induction false} RealWay(fs: Fs, m: Modes, xs: seq<string>)
    requires FsOk(fs) && m.Keys == fs.Keys && xs != [] && AllPlain(xs) && LinkFree(fs, xs)
    ensures WayOpen(fs, Granted(fs, m, xs, xs), xs) <==> OpenDir(m, [])
  {
    GrantOpensWayIff(fs, m, xs, xs);
    assert [] + xs == xs;
    SearchedReal(fs, [], xs, KERNEL_LINKS);
    var ds, rs := Searched(fs, [], xs, KERNEL_LINKS), Resolved(fs, xs, 0, |xs| - 1);
    forall d | d in ds && d != []
      ensures d in rs
    {
      var i :| 0 <= i < |xs| && d == [] + xs[..i];
      assert d == xs[..i] && i > 0;
      ResolvedReal(fs, xs, i);
    }
    assert [] + xs[..0] == [] && [] in ds;
    forall i | 0 < i <= |xs| - 1
      ensures Follow(fs, [], xs[..i], KERNEL_LINKS) == Found(xs[..i]) && xs[..i] != []
    {
      ResolvedReal(fs, xs, i);
    }
    assert [] !in rs;
  }

  /**
   * A link among the ancestors: the directories that lead to its target are not touched, so
   * one of them that was closed keeps the way closed.
   */
  lemma {:induction false} LinkKeepsWayClosed(fs: Fs, m: Modes, a: string, d: string, e: string, c: string)
    requires FsOk(fs) && m.Keys == fs.Keys && Plain(a) && Plain(d) && Plain(e) && Plain(c)
    requires [a] in fs && fs[[a]] == Link(ToPath([d, e])) && LinkFree(fs, [d, e, c]) && !OpenDir(m, [d])
    ensures Follow(fs, [], [a, c], KERNEL_LINKS) == Found([d, e, c])
    ensures !WayOpen(fs, Granted(fs, m, [a, c], [d, e, c]), [a, c])
  {
    var xs, top := [a, c], [d, e, c];
    PartsOfPath([d, e]);
    assert xs[1..] == [c] && [d, e] + [c] == top && [] + [a] == [a] && [] + top == top;
    FollowReal(fs, [], top, KERNEL_LINKS - 1);
    SearchedReal(fs, [], top, KERNEL_LINKS - 1);
    assert top[..1] == [d] && [] + [d] == [d];
    assert [d] in Searched(fs, [], xs, KERNEL_LINKS);
    LinkResolved(fs, a, d, e, c);
    GrantOpensWayIff(fs, m, xs, top);
  }

  lemma {:induction false} LinkResolved(fs: Fs, a: string, d: string, e: string, c: string)
    requires FsOk(fs) && Plain(a) && Plain(d) && Plain(e) && Plain(c)
    requires [a] in fs && fs[[a]] == Link(ToPath([d, e])) && LinkFree(fs, [d, e, c])
    ensures [d] !in Resolved(fs, [a, c], 0, 1)
  {
    var xs := [a, c];
    PartsOfPath([d, e]);
    assert [d, e, c][..2] == [d, e];
    LinkFreePrefix(fs, [d, e, c], 2);
    assert xs[..1] == [a] && [a][1..] == [] && [] + [a] == [a] && [d, e] + [] == [d, e] && [] + [d, e] == [d, e];
    FollowReal(fs, [], [d, e], KERNEL_LINKS - 1);
    assert Follow(fs, [], xs[..1], KERNEL_LINKS) == Found([d, e]);
    forall i | 0 < i <= 1
      ensures xs[..i] == [a]
    {
    }
  }

  /** The ancestors from xs[..n + 1] on have been opened. */
  ghost predicate OpenedFrom(fs: Fs, m: Modes, m': Modes, xs: seq<string>, n: nat) {
    n <= |xs| && m' == WithX(m, Resolved(fs, xs, n, |xs|))
  }

  lemma {:induction false} OpenedStart(fs: Fs, m: Modes, xs: seq<string>)
    ensures OpenedFrom(fs, m, m, xs, |xs|)
  {
    assert Resolved(fs, xs, |xs|, |xs|) == {};
    assert forall p :: p in m ==> m[p] + {} == m[p];
    assert WithX(m, {}) == m;
  }

  lemma {:induction false} WithXTwice(m: Modes, a: set<seq<string>>, b: set<seq<string>>)
    ensures WithX(WithX(m, a), b) == WithX(m, a + b)
  {
    var l, r := WithX(WithX(m, a), b), WithX(m, a + b);
    forall p | p in m
      ensures l[p] == r[p]
    {
    }
    assert l.Keys == m.Keys == r.Keys;
  }

  lemma {:induction false} OpenedStep(fs: Fs, m: Modes, m': Modes, xs: seq<string>, n: nat, d: seq<string>)
    requires 0 < n && OpenedFrom(fs, m, m', xs, n) && Follow(fs, [], xs[..n], KERNEL_LINKS) == Found(d)
    ensures OpenedFrom(fs, m, WithX(m', {d}), xs, n - 1)
  {
    var a, b := Resolved(fs, xs, n, |xs|), Resolved(fs, xs, n - 1, |xs|);
    assert b == a + {d} by {
      forall p | p in b
        ensures p in a + {d}
      {
        var i :| n - 1 < i <= |xs| && Follow(fs, [], xs[..i], KERNEL_LINKS) == Found(p);
        assert i == n || n < i;
      }
    }
    WithXTwice(m, a, {d});
  }

  /** chmod o+x on what a path resolves to, if it resolves. */
  function WithXAt(m: Modes, found: Found): Modes {
    if found.Found? then WithX(m, {found.path}) else m
  }

  lemma {:induction false} OpenedNext(fs: Fs, m: Modes, m': Modes, xs: seq<string>, n: nat)
    requires 0 < n && OpenedFrom(fs, m, m', xs, n)
    ensures OpenedFrom(fs, m, WithXAt(m', Follow(fs, [], xs[..n], KERNEL_LINKS)), xs, n - 1)
  {
    var found := Follow(fs, [], xs[..n], KERNEL_LINKS);
    if found.Found? {
      OpenedStep(fs, m, m', xs, n, found.path);
    } else {
      assert Resolved(fs, xs, n - 1, |xs|) == Resolved(fs, xs, n, |xs|);
    }
  }

  class Permissions {
    const fs: Fs
    var modes: Modes
    /** The directories on which chmod o+x was run, in order. */
    var touched: seq<string>
    /** How many commands have failed by themselves. */
    ghost var faults: nat

    ghost predicate Valid()
      reads this
    {
      modes.Keys == fs.Keys
    }

    /** chmod o+x, on what the path resolves to. */
    method ChmodTraverse(p: string) returns (ok: bool)
      requires Valid() && Rooted(p)
      modifies this
      ensures Valid() && touched == old(touched) + [p] && OnlyAdds(old(modes), modes)
      ensures faults >= old(faults)
      ensures faults == old(faults) ==> modes == WithXAt(old(modes), Follow(fs, [], Target(p), KERNEL_LINKS))
      ensures !ok ==> modes == old(modes)
    {
      touched := touched + [p];
      var found := Follow(fs, [], Target(p), KERNEL_LINKS);
      ok := *;
      if !ok {
        faults := faults + 1;
      }
      ok := ok && found.Found?;
      if ok {
        modes := WithX(modes, {found.path});
      }
    }

    /** A recursive chmod that fails may have changed some of the nodes. */
    method ChmodOpen(path: string) returns (ok: bool)
      requires Valid()
      modifies this`modes, this`faults
      ensures Valid() && OnlyAdds(old(modes), modes)
      ensures faults >= old(faults)
      ensures faults == old(faults) ==> (ok <==> Follow(fs, [], Target(path), KERNEL_LINKS).Found?)
      ensures ok ==>
                var found := Follow(fs, [], Target(path), KERNEL_LINKS);
                && found.Found? && modes == WithSubtree(fs, old(modes), found.path)
                && ReadableBelow(fs, modes, found.path)
    {
      var found := Follow(fs, [], Target(path), KERNEL_LINKS);
      if !found.Found? {
        return false;
      }
      ok := *;
      if !ok {
        faults := faults + 1;
      }
      var reached: set<seq<string>> := *;
      ghost var m := modes;
      modes := map p | p in modes ::
        if p in fs && InSubtree(fs, found.path, p) && (ok || p in reached) then Opened(fs[p].Folder?, modes[p]) else modes[p];
      assert ok ==> modes == WithSubtree(fs, m, found.path);
    }

    /**
     * Every ancestor directory up to but not including "/" is touched once, innermost first,
     * and no bit is removed. When no chmod fails by itself the grant succeeds exactly for a
     * path that resolves, and exactly what the ancestors resolve to and the tree that the path
     * resolves to were opened.
     */
    method GrantShareAccess(path: string) returns (ok: bool)
      requires Valid()
      modifies this
      ensures Valid() && OnlyAdds(old(modes), modes)
      ensures !PathOk(path) ==> !ok && modes == old(modes) && touched == old(touched)
      ensures PathOk(path) && Clean(path) == path ==> touched == old(touched) + Paths(Ancestors(Target(path)))
      ensures ok ==>
                var found := Follow(fs, [], Target(path), KERNEL_LINKS);
                found.Found? && ReadableBelow(fs, modes, found.path)
      ensures faults >= old(faults)
      ensures faults == old(faults) ==> (ok <==> PathOk(path) && Follow(fs, [], Target(path), KERNEL_LINKS).Found?)
      ensures ok && faults == old(faults) && Clean(path) == path && Target(path) != [] ==>
                var found := Follow(fs, [], Target(path), KERNEL_LINKS);
                found.Found? && modes == Granted(fs, old(modes), Target(path), found.path)
    {
      if !PathOk(path) {
        return false;
      }
      DirRooted(path);
      ghost var m0 := modes;
      OpenAncestors(Dir(path));
      ghost var m1 := modes;
      ok := ChmodOpen(path);
      AddsTwice(m0, m1, modes);
      if Clean(path) == path {
        CleanParent(path);
        GrantedIs(fs, m0, m1, Target(path));
      }
    }

    /** One turn of the walk: chmod o+x on the directory, and the one above it. */
    method OpenOne(p: string, ghost ys: seq<string>) returns (up: string)
      requires Valid() && AllPlain(ys) && ys != [] && p == ToPath(ys)
      modifies this
      ensures Valid() && touched == old(touched) + [p] && OnlyAdds(old(modes), modes)
      ensures faults >= old(faults)
      ensures faults == old(faults) ==> modes == WithXAt(old(modes), Follow(fs, [], ys, KERNEL_LINKS))
      ensures up == ToPath(ys[..|ys| - 1])
    {
      PathNotRoot(ys);
      TargetOfPath(ys);
      var done := ChmodTraverse(p);
      DirOfPath(ys);
      up := Dir(p);
    }

    /** The upward walk: chmod o+x on each directory, until "/" is reached. */
    method OpenAncestors(dir: string)
      requires Valid() && AllPlain(Target(dir)) && dir == ToPath(Target(dir))
      modifies this
      ensures Valid() && OnlyAdds(old(modes), modes)
      ensures touched == old(touched) + Paths(Chain(Target(dir)))
      ensures faults >= old(faults)
      ensures faults == old(faults) ==> OpenedFrom(fs, old(modes), modes, Target(dir), 0)
    {
      var p := dir;
      ghost var xs := Target(dir);
      ghost var n, m0 := |xs|, modes;
      assert xs[..n] == xs;
      OpenedStart(fs, modes, xs);
      while p != "/" && p != "." && p != ""
        invariant Valid() && 0 <= n <= |xs| && p == ToPath(xs[..n])
        invariant OnlyAdds(m0, modes)
        invariant touched + Paths(Chain(xs[..n])) == old(touched) + Paths(Chain(xs))
        invariant faults >= old(faults)
        invariant faults == old(faults) ==> OpenedFrom(fs, m0, modes, xs, n)
        decreases n
      {
        PathNotRoot(xs[..n]);
        ghost var m, done0 := modes, touched;
        assert n > 0;
        assert xs[..n][..n - 1] == xs[..n - 1];
        p := OpenOne(p, xs[..n]);
        AddsTwice(m0, m, modes);
        TouchStep(done0, xs, n);
        if faults == old(faults) {
          OpenedNext(fs, m0, m, xs, n);
        }
        n := n - 1;
      }
      PathRoot(xs[..n]);
    }
  }

  lemma {:induction false} AddsTwice(a: Modes, b: Modes, c: Modes)
    ensures OnlyAdds(a, b) && OnlyAdds(b, c) ==> OnlyAdds(a, c)
  {
  }

  lemma {:induction false} GrantedIs(fs: Fs, m0: Modes, m1: Modes, xs: seq<string>)
    ensures xs != [] && OpenedFrom(fs, m0, m1, xs[..|xs| - 1], 0) ==>
              forall top :: WithSubtree(fs, m1, top) == Granted(fs, m0, xs, top)
  {
    if xs != [] {
      ResolvedFront(fs, xs);
    }
  }

  lemma {:induction false} ResolvedFront(fs: Fs, xs: seq<string>)
    requires xs != []
    ensures Resolved(fs, xs[..|xs| - 1], 0, |xs| - 1) == Resolved(fs, xs, 0, |xs| - 1)
  {
    var front := xs[..|xs| - 1];
    forall i | 0 < i <= |xs| - 1
      ensures front[..i] == xs[..i]
    {
    }
    var a, b := Resolved(fs, front, 0, |xs| - 1), Resolved(fs, xs, 0, |xs| - 1);
    forall p | p in a
      ensures p in b
    {
      var i :| 0 < i <= |xs| - 1 && Follow(fs, [], front[..i], KERNEL_LINKS) == Found(p);
      assert front[..i] == xs[..i];
    }
    forall p | p in b
      ensures p in a
    {
      var i :| 0 < i <= |xs| - 1 && Follow(fs, [], xs[..i], KERNEL_LINKS) == Found(p);
      assert front[..i] == xs[..i];
    }
  }

  lemma {:induction false} TouchStep(before: seq<string>, xs: seq<string>, n: nat)
    requires 0 < n <= |xs|
    ensures before + [ToPath(xs[..n])] + Paths(Chain(xs[..n - 1])) == before + Paths(Chain(xs[..n]))
  {
    ChainStep(xs[..n]);
    assert xs[..n][..n - 1] == xs[..n - 1];
    Associate(before, [ToPath(xs[..n])], Paths(Chain(xs[..n - 1])));
  }

  function Paths(ps: seq<seq<string>>): (r: seq<string>)
    ensures |r| == |ps| && forall i :: 0 <= i < |r| ==> r[i] == ToPath(ps[i])
  {
    if ps == [] then [] else [ToPath(ps[0])] + Paths(ps[1..])
  }

  /** The path itself and its ancestors, without "/". */
  function Chain(xs: seq<string>): seq<seq<string>> {
    if xs == [] then [] else [xs] + Chain(xs[..|xs| - 1])
  }

  lemma {:induction false} ChainStep(xs: seq<string>)
    requires xs != []
    ensures Paths(Chain(xs)) == [ToPath(xs)] + Paths(Chain(xs[..|xs| - 1]))
  {
    assert Chain(xs)[1..] == Chain(xs[..|xs| - 1]);
  }

  lemma {:induction false} ChainIsAncestors(xs: seq<string>)
    requires xs != []
    ensures Chain(xs[..|xs| - 1]) == Ancestors(xs)
  {
    if |xs| > 1 {
      ChainIsAncestors(xs[..|xs| - 1]);
    }
  }

  lemma {:induction false} DirRooted(path: string)
    requires PathOk(path)
    ensures var p := Dir(path); AllPlain(Target(p)) && p == ToPath(Target(p))
  {
    assert path[0] == '/' && '/' in path;
    var s := path[..LastSlash(path) + 1];
    assert s[0] == '/';
    CleanRooted(s);
    TargetOfPath(Target(s));
  }

  lemma {:induction false} PathRoot(ys: seq<string>)
    requires AllPlain(ys) && (ToPath(ys) == "/" || ToPath(ys) == "." || ToPath(ys) == "")
    ensures ys == []
  {
    if ys != [] {
      PathNotRoot(ys);
    }
  }

  lemma {:induction false} PathNotRoot(ys: seq<string>)
    requires AllPlain(ys)
    ensures ToPath(ys) == "/" <==> ys == []
    ensures Rooted(ToPath(ys)) && ToPath(ys) != "." && ToPath(ys) != ""
  {
    if ys != [] {
      assert Join(ys, '/')[0] == ys[0][0];
      assert |ToPath(ys)| > 1;
    }
  }

  lemma {:induction false} CleanParent(path: string)
    requires PathOk(path) && Clean(path) == path
    ensures var xs := Target(path);
            Target(Dir(path)) == (if xs == [] then [] else xs[..|xs| - 1])
            && Chain(Target(Dir(path))) == Ancestors(xs)
  {
    assert path[0] == '/';
    CleanRooted(path);
    var xs := Target(path);
    DirOfPath(xs);
    if xs == [] {
      TargetOfPath([]);
      assert ToPath([]) == "/";
    } else {
      TargetOfPath(xs[..|xs| - 1]);
      ChainIsAncestors(xs);
    }
  }
}
