/**
 * The file manager's path jail (filemgr.go): resolve, the paths that List hands out, and
 * the operations that go through them, over a filesystem tree with symbolic links. The
 * jail is a test on text; the operating system follows links.
 */
module FileMgr {
  import opened GoStrings
  import opened GoPath
  import opened Options
  import opened Canon

  /** resolve: root the request, clean it, join it to the jail's root, check the prefix. */
  function Resolve(root: string, rel: string): Option<string> {
    var clean := Clean("/" + TrimPrefix(rel, "/"));
    var abs := PathJoin([root, clean]);
    if abs != root && !HasPrefix(abs, root + "/") then None else Some(abs)
  }

  lemma {:induction false} RequestTarget(rel: string)
    ensures Clean("/" + TrimPrefix(rel, "/")) == ToPath(Target(rel))
  {
    var rest := TrimPrefix(rel, "/");
    PartsRooted(rest);
    if HasPrefix(rel, "/") {
      assert rel == "/" + rest;
    }
  }

  lemma {:induction false} JoinedPath(r: seq<string>, t: seq<string>)
    requires AllPlain(r) && AllPlain(t)
    ensures PathJoin([ToPath(r), ToPath(t)]) == ToPath(r + t)
  {
    var s := ToPath(r) + "/" + ToPath(t);
    assert Join([ToPath(r), ToPath(t)], '/') == s by {
      assert [ToPath(r), ToPath(t)][1..] == [ToPath(t)];
    }
    PartsAt(ToPath(r), ToPath(t));
    PartsOfPath(r);
    PartsOfPath(t);
    WalkPlain(true, [], r + t);
    assert [] + (r + t) == r + t;
  }

  /** Under a root other than "/" the error branch is dead: the result is root plus target. */
  lemma {:induction false} ResolveLands(r: seq<string>, rel: string)
    requires AllPlain(r) && r != []
    ensures Resolve(ToPath(r), rel) == Some(ToPath(r + Target(rel)))
  {
    RequestTarget(rel);
    JoinedPath(r, Target(rel));
    if Target(rel) == [] {
      assert r + [] == r;
    } else {
      PathAppend(r, Target(rel));
      var p := ToPath(r) + "/";
      assert ToPath(r + Target(rel)) == p + Join(Target(rel), '/');
    }
  }

  /** With "/" as root, only requests for the root itself are let through. */
  lemma {:induction false} ResolveAtSlash(rel: string)
    ensures Resolve("/", rel).Some? <==> Target(rel) == []
  {
    RequestTarget(rel);
    assert ToPath([]) == "/";
    JoinedPath([], Target(rel));
    var t := Target(rel);
    assert [] + t == t;
    if t != [] {
      assert ToPath(t)[1] == Join(t, '/')[0];
      JoinStart(t);
    }
  }

  /** A request "a/../b" lands on b in the root. */
  lemma {:induction false} UpInRequest(r: seq<string>, a: string, b: string)
    requires AllPlain(r) && r != [] && Plain(a) && Plain(b)
    ensures Resolve(ToPath(r), a + "/" + ".." + "/" + b) == Some(ToPath(r + [b]))
    ensures Resolve(ToPath(r), ".." + "/" + b) == Some(ToPath(r + [b]))
  {
    ResolveLands(r, a + "/" + ".." + "/" + b);
    ResolveLands(r, ".." + "/" + b);
    UpAtTheTop(b);
    UpBetween(a, b);
  }

  lemma {:induction false} UpBetween(a: string, b: string)
    requires Plain(a) && Plain(b)
    ensures Target(b) == [b] && Target(a + "/" + ".." + "/" + b) == [b]
  {
    PartsOfName(a);
    PartsOfName("..");
    PartsOfName(b);
    PartsAt(a, "..");
    PartsAt(a + "/" + "..", b);
    WalkAppend(true, [], [a] + [".."], [b]);
    WalkAppend(true, [], [a], [".."]);
    WalkOne(true, [], a);
    WalkOne(true, [a], "..");
    WalkOne(true, [], b);
    assert [] + [a] == [a] && [a][..0] == [] && [] + [b] == [b];
  }

  lemma {:induction false} JoinStart(t: seq<string>)
    requires AllPlain(t) && t != []
    ensures Join(t, '/') != "" && Join(t, '/')[0] != '/'
  {
    assert Join(t, '/')[0] == t[0][0];
  }

  /** The result is the root or lies strictly below it; "/vol1" never yields "/vol10". */
  lemma {:induction false} ResolveConfined(r: seq<string>, rel: string)
    requires AllPlain(r) && r != []
    ensures var p := Resolve(ToPath(r), rel);
            p.Some? && (p.value == ToPath(r) || (HasPrefix(p.value, ToPath(r) + "/") && |p.value| > |ToPath(r)| + 1))
    ensures AllPlain(r + Target(rel)) && Resolve(ToPath(r), rel).value == ToPath(r + Target(rel))
  {
    ResolveLands(r, rel);
    var t := Target(rel);
    if t == [] {
      assert r + [] == r;
    } else {
      PathAppend(r, t);
      JoinStart(t);
      assert ToPath(r + t) == (ToPath(r) + "/") + Join(t, '/');
    }
  }

  /** Asking again for a result, relative to the root, gives the same result. */
  lemma {:induction false} ResolveFixedPoint(r: seq<string>, rel: string)
    requires AllPlain(r) && r != []
    ensures var p := Resolve(ToPath(r), rel);
            p.Some? && Resolve(ToPath(r), TrimPrefix(p.value, ToPath(r))) == p
  {
    var t := Target(rel);
    ResolveLands(r, rel);
    var back := TrimPrefix(ToPath(r + t), ToPath(r));
    RelativeTarget(r, t);
    ResolveLands(r, back);
  }

  lemma {:induction false} RelativeTarget(r: seq<string>, t: seq<string>)
    requires AllPlain(r) && AllPlain(t) && r != []
    ensures Target(TrimPrefix(ToPath(r + t), ToPath(r))) == t
  {
    if t == [] {
      assert r + [] == r;
      assert ToPath(r)[|ToPath(r)|..] == "";
      PartsEmpty();
    } else {
      PathAppend(r, t);
      assert ToPath(r) + "/" + Join(t, '/') == ToPath(r) + ToPath(t);
      assert (ToPath(r) + ToPath(t))[|ToPath(r)|..] == ToPath(t);
      TargetOfPath(t);
    }
  }

  /** Each path List hands out leads to the listed directory's entry, for every request. */
  lemma {:induction false} ListedPathResolves(r: seq<string>, rel: string, name: string)
    requires AllPlain(r) && r != [] && Plain(name)
    ensures Resolve(ToPath(r), rel).Some?
    ensures Resolve(ToPath(r), PathJoin([rel, name])) == Some(Resolve(ToPath(r), rel).value + "/" + name)
  {
    var here := r + Target(rel);
    ResolveLands(r, rel);
    ListedTarget(r, rel, name);
    PathAppendOne(here, name);
  }

  lemma {:induction false} ListedTarget(r: seq<string>, rel: string, name: string)
    requires AllPlain(r) && r != [] && Plain(name)
    ensures Resolve(ToPath(r), PathJoin([rel, name])) == Some(ToPath((r + Target(rel)) + [name]))
  {
    JoinTarget(rel, name);
    ResolveLands(r, PathJoin([rel, name]));
    assert r + (Target(rel) + [name]) == (r + Target(rel)) + [name];
  }

  lemma {:induction false} PathAppendOne(xs: seq<string>, name: string)
    requires xs != []
    ensures ToPath(xs + [name]) == ToPath(xs) + "/" + name
  {
    PathAppend(xs, [name]);
    assert Join([name], '/') == name;
  }

  // ---- Where the operating system lands --------------------------------------

  predicate FolderAt(fs: Fs, p: seq<string>) {
    p in fs && fs[p].Folder?
  }

  /** The directory entry that a path names: links are followed on the way, not at its end. */
  function Slot(fs: Fs, xs: seq<string>): Found
    requires xs != []
  {
    match Follow(fs, [], xs[..|xs| - 1], KERNEL_LINKS)
    case Found(d) => if FolderAt(fs, d) then Found(d + [xs[|xs| - 1]]) else NotFound
    case other => other
  }

  /**
   * open(2) with O_CREAT and without O_NOFOLLOW: links are followed at the end, too, and a
   * last component that is missing is created in the directory reached.
   */
  function Reach(fs: Fs, cur: seq<string>, todo: seq<string>, links: nat): Found
    decreases links, |todo|
  {
    if todo == [] then Found(cur)
    else if !FolderAt(fs, cur) then NotFound
    else if todo[0] == ".." then Reach(fs, Up(cur), todo[1..], links)
    else
      var p := cur + [todo[0]];
      if p !in fs then if |todo| == 1 then Found(p) else NotFound
      else
        match fs[p]
        case Link(target) =>
          if links == 0 then TooManyLinks
          else if target == "" then NotFound
          else Reach(fs, if Rooted(target) then [] else cur, Parts(target) + todo[1..], links - 1)
        case _ => Reach(fs, p, todo[1..], links)
  }

  function Opened(fs: Fs, xs: seq<string>): Found {
    Reach(fs, [], xs, KERNEL_LINKS)
  }

  /** A place for a node: what is there is no link, or its directory is there. */
  predicate Place(fs: Fs, p: seq<string>) {
    if p in fs then !fs[p].Link? else p != [] && Plain(p[|p| - 1]) && FolderAt(fs, p[..|p| - 1])
  }

  predicate PlaceIfFound(fs: Fs, found: Found) {
    found.Found? ==> Place(fs, found.path)
  }

  predicate Standing(fs: Fs, p: seq<string>) {
    p in fs && !fs[p].Link?
  }

  lemma {:induction false} StandingUp(fs: Fs, p: seq<string>)
    requires FsOk(fs) && Standing(fs, p)
    ensures Standing(fs, Up(p))
  {
    assert NodeOk(fs, p);
  }

  lemma {:induction false} MissingPlace(fs: Fs, cur: seq<string>, c: string)
    requires FolderAt(fs, cur) && Significant(c) && c != ".." && cur + [c] !in fs
    ensures Place(fs, cur + [c])
  {
    assert (cur + [c])[..|cur + [c]| - 1] == cur;
  }

  lemma {:induction false} ReachPlace(fs: Fs, cur: seq<string>, todo: seq<string>, links: nat)
    requires FsOk(fs) && Standing(fs, cur) && AllSignificant(todo)
    ensures PlaceIfFound(fs, Reach(fs, cur, todo, links))
    decreases links, |todo|
  {
    if todo == [] || !FolderAt(fs, cur) {
    } else if todo[0] == ".." {
      StandingUp(fs, cur);
      ReachPlace(fs, Up(cur), todo[1..], links);
    } else if cur + [todo[0]] !in fs {
      MissingPlace(fs, cur, todo[0]);
    } else {
      match fs[cur + [todo[0]]]
      case Link(target) =>
        if links > 0 && target != "" {
          ReachPlace(fs, if Rooted(target) then [] else cur, Parts(target) + todo[1..], links - 1);
        }
      case _ => ReachPlace(fs, cur + [todo[0]], todo[1..], links);
    }
  }

  /** What a path resolves to is what opening it opens. */
  lemma {:induction false} ReachExisting(fs: Fs, cur: seq<string>, todo: seq<string>, links: nat)
    requires Follow(fs, cur, todo, links).Found?
    ensures Reach(fs, cur, todo, links) == Follow(fs, cur, todo, links)
    decreases links, |todo|
  {
    if todo != [] {
      if todo[0] == ".." {
        ReachExisting(fs, Up(cur), todo[1..], links);
      } else {
        match fs[cur + [todo[0]]]
        case Link(target) =>
          ReachExisting(fs, if Rooted(target) then [] else cur, Parts(target) + todo[1..], links - 1);
        case _ =>
          ReachExisting(fs, cur + [todo[0]], todo[1..], links);
      }
    }
  }

  /** Opening a path opens its entry, unless that is a link. */
  lemma {:induction false} ReachSplit(fs: Fs, cur: seq<string>, todo: seq<string>, c: string, links: nat)
    requires Plain(c)
    ensures var parent := Follow(fs, cur, todo, links);
            && (Reach(fs, cur, todo + [c], links).Found? ==> parent.Found? && FolderAt(fs, parent.path))
            && (parent.Found? && FolderAt(fs, parent.path) && NoLinkAt(fs, parent.path + [c]) ==>
                  Reach(fs, cur, todo + [c], links) == Found(parent.path + [c]))
    decreases links, |todo|
  {
    var all := todo + [c];
    if todo == [] {
      assert all == [c] && all[1..] == [];
    } else {
      assert all[0] == todo[0] && all[1..] == todo[1..] + [c];
      if FolderAt(fs, cur) {
        if todo[0] == ".." {
          ReachSplit(fs, Up(cur), todo[1..], c, links);
        } else if cur + [todo[0]] in fs {
          match fs[cur + [todo[0]]]
          case Link(target) =>
            if links > 0 && target != "" {
              ReachSplit(fs, if Rooted(target) then [] else cur, Parts(target) + todo[1..], c, links - 1);
              assert Parts(target) + todo[1..] + [c] == Parts(target) + (todo[1..] + [c]);
            }
          case _ => ReachSplit(fs, cur + [todo[0]], todo[1..], c, links);
        }
      }
    }
  }

  predicate NoLinkAt(fs: Fs, p: seq<string>) {
    p in fs ==> !fs[p].Link?
  }

  /** What is opened: the entry of the path, unless a link is there. */
  lemma {:induction false} OpenedSlot(fs: Fs, xs: seq<string>)
    requires AllPlain(xs) && xs != []
    ensures Opened(fs, xs).Found? ==> Slot(fs, xs).Found?
    ensures Slot(fs, xs).Found? && NoLinkAt(fs, Slot(fs, xs).path) ==> Opened(fs, xs) == Slot(fs, xs)
  {
    var init, last := xs[..|xs| - 1], xs[|xs| - 1];
    assert xs == init + [last];
    ReachSplit(fs, [], init, last, KERNEL_LINKS);
  }

  // ---- Staying below the root ------------------------------------------------

  predicate SameAt(fs: Fs, fs': Fs, p: seq<string>) {
    (p in fs <==> p in fs') && (p in fs ==> fs'[p] == fs[p])
  }

  /** Only strict descendants of the root differ. */
  ghost predicate Confined(root: seq<string>, fs: Fs, fs': Fs) {
    forall p :: !(root < p) ==> SameAt(fs, fs', p)
  }

  /** Only the place itself and what lies below it differs. */
  ghost predicate OnlyFrom(place: seq<string>, fs: Fs, fs': Fs) {
    forall p :: !(place <= p) ==> SameAt(fs, fs', p)
  }

  lemma {:induction false} OnlyFromBelow(root: seq<string>, place: seq<string>, fs: Fs, fs': Fs)
    requires OnlyFrom(place, fs, fs') && root < place
    ensures Confined(root, fs, fs')
  {
    forall p | !(root < p)
      ensures SameAt(fs, fs', p)
    {
      assert place <= p ==> root < p;
    }
  }

  /** The directory of the path resolves to the root or to something below it. */
  predicate ParentInside(fs: Fs, root: seq<string>, xs: seq<string>)
    requires xs != []
  {
    var parent := Follow(fs, [], xs[..|xs| - 1], KERNEL_LINKS);
    parent.Found? && root <= parent.path
  }

  /** An entry lies strictly below the root exactly when its directory resolves inside. */
  lemma {:induction false} SlotInsideIff(fs: Fs, root: seq<string>, xs: seq<string>)
    requires xs != [] && Slot(fs, xs).Found?
    ensures root < Slot(fs, xs).path <==> ParentInside(fs, root, xs)
  {
    var d := Follow(fs, [], xs[..|xs| - 1], KERNEL_LINKS).path;
    var p := d + [xs[|xs| - 1]];
    if root < p {
      assert root == p[..|root|] == d[..|root|];
    }
  }

  function Written(fs: Fs, p: seq<string>, data: string): Fs {
    fs[p := Regular(data)]
  }

  /** Writing at a place stays below the root iff the place is below it or nothing changes. */
  lemma {:induction false} WriteStaysIff(root: seq<string>, fs: Fs, p: seq<string>, data: string)
    ensures Confined(root, fs, Written(fs, p, data)) <==> root < p || Written(fs, p, data) == fs
  {
    var fs' := Written(fs, p, data);
    if !(root < p) && Confined(root, fs, fs') {
      assert SameAt(fs, fs', p);
      assert fs' == fs;
    }
  }

  predicate EndsInLink(fs: Fs, xs: seq<string>)
    requires xs != []
  {
    Slot(fs, xs).Found? && !NoLinkAt(fs, Slot(fs, xs).path)
  }

  /**
   * Save stays below the root exactly when the path's directory resolves inside, or, if the
   * path ends in a link, when that link does.
   */
  lemma {:induction false} SaveStaysIff(root: seq<string>, fs: Fs, xs: seq<string>, data: string)
    requires FsOk(fs) && AllPlain(xs) && xs != [] && Opened(fs, xs).Found?
    requires Written(fs, Opened(fs, xs).path, data) != fs
    ensures Confined(root, fs, Written(fs, Opened(fs, xs).path, data))
            <==> if EndsInLink(fs, xs) then root < Opened(fs, xs).path else ParentInside(fs, root, xs)
  {
    OpenedSlot(fs, xs);
    SlotInsideIff(fs, root, xs);
    WriteStaysIff(root, fs, Opened(fs, xs).path, data);
  }

  /** RemoveAll of an existing entry: it does not follow a link at the end. */
  function Without(fs: Fs, p: seq<string>): Fs {
    map q | q in fs && !(p <= q) :: fs[q]
  }

  lemma {:induction false} RemoveStaysIff(root: seq<string>, fs: Fs, xs: seq<string>)
    requires xs != [] && Slot(fs, xs).Found? && Slot(fs, xs).path in fs
    ensures Confined(root, fs, Without(fs, Slot(fs, xs).path)) <==> ParentInside(fs, root, xs)
  {
    var p := Slot(fs, xs).path;
    SlotInsideIff(fs, root, xs);
    if root < p {
      OnlyFromBelow(root, p, fs, Without(fs, p));
    } else {
      assert !SameAt(fs, Without(fs, p), p);
    }
  }

  /** MkdirAll that makes something stays below the root iff what exists resolves inside. */
  lemma {:induction false} MkdirStaysIff(root: seq<string>, fs: Fs, fs': Fs, xs: seq<string>, r: seq<string>)
    requires FsOk(fs) && FsOk(fs') && fs' != fs && AllPlain(xs)
    requires ResolvedBase(fs, xs, r) && Extended(fs, fs', r, CanonExisting(fs, xs))
    ensures Confined(root, fs, fs') <==> root <= r
  {
    var q :| q in fs' && q !in fs;
    assert r < q;
    var first := q[..|r| + 1];
    PrefixPresent(fs', q, |r| + 1);
    CanonIsReal(fs, xs, r);
    var p := CanonExisting(fs, xs);
    assert first == p[..|r| + 1];
    assert first !in fs;
    if Confined(root, fs, fs') {
      assert !SameAt(fs, fs', first);
      assert root == first[..|root|] == r[..|root|];
    }
  }

  lemma {:induction false} PrefixPresent(fs: Fs, q: seq<string>, n: nat)
    requires FsOk(fs) && q in fs && n <= |q|
    ensures q[..n] in fs
    decreases |q|
  {
    if n == |q| {
      assert q[..n] == q;
    } else {
      assert NodeOk(fs, q);
      PrefixPresent(fs, q[..|q| - 1], n);
      assert q[..|q| - 1][..n] == q[..n];
    }
  }

  /**
   * rename(2) moves a subtree, not into itself; os.Rename refuses to replace a folder, and
   * a folder replaces no other node.
   */
  predicate CanRename(fs: Fs, a: seq<string>, b: seq<string>) {
    && a in fs && a != [] && a != b && !(a < b)
    && b != [] && Plain(b[|b| - 1]) && FolderAt(fs, b[..|b| - 1])
    && (b in fs ==> !fs[b].Folder? && !fs[a].Folder?)
  }

  /** What is found at a path after the move. */
  function Origin(a: seq<string>, b: seq<string>, p: seq<string>): seq<string> {
    if b <= p then a + p[|b|..] else p
  }

  predicate Present(fs: Fs, a: seq<string>, b: seq<string>, p: seq<string>) {
    Origin(a, b, p) in fs && (b <= p || !(a <= p))
  }

  function Renamed(fs: Fs, a: seq<string>, b: seq<string>): (fs': Fs)
    ensures forall p :: p in fs' <==> Present(fs, a, b, p)
    ensures forall p :: p in fs' ==> Origin(a, b, p) in fs && fs'[p] == fs[Origin(a, b, p)]
  {
    var paths := (set p | p in fs) + (set q | q in fs && a <= q :: b + q[|a|..]);
    assert forall p :: Present(fs, a, b, p) ==> p in paths by {
      forall p | Present(fs, a, b, p)
        ensures p in paths
      {
        if b <= p {
          var q := a + p[|b|..];
          assert q in fs && a <= q && p == b + q[|a|..];
        }
      }
    }
    map p | p in paths && Present(fs, a, b, p) :: fs[Origin(a, b, p)]
  }

  /** The ancestors of a node are folders. */
  lemma {:induction false} AncestorIsFolder(fs: Fs, q: seq<string>, p: seq<string>)
    requires FsOk(fs) && q in fs && p < q
    ensures FolderAt(fs, p)
  {
    PrefixPresent(fs, q, |p| + 1);
    assert NodeOk(fs, q[..|p| + 1]);
    assert q[..|p| + 1][..|p|] == p;
  }

  lemma {:induction false} RenamedParent(fs: Fs, a: seq<string>, b: seq<string>, p: seq<string>)
    requires FsOk(fs) && CanRename(fs, a, b) && p in Renamed(fs, a, b) && p != []
    ensures NodeOk(Renamed(fs, a, b), p)
  {
    var fs', up := Renamed(fs, a, b), p[..|p| - 1];
    if p == b {
      assert !(b <= up) && !(a <= up) by {
        assert a <= up ==> a < b;
      }
    } else if b <= p {
      var q := a + p[|b|..];
      assert NodeOk(fs, q);
      assert b <= up && q[..|q| - 1] == a + up[|b|..];
      assert q[|q| - 1] == p[|p| - 1];
    } else {
      assert NodeOk(fs, p);
      assert !(b <= up) && !(a <= up);
    }
  }

  lemma {:induction false} RenamedOk(fs: Fs, a: seq<string>, b: seq<string>)
    requires FsOk(fs) && CanRename(fs, a, b)
    ensures FsOk(Renamed(fs, a, b))
  {
    forall p | p in Renamed(fs, a, b)
      ensures NodeOk(Renamed(fs, a, b), p)
    {
      if p != [] {
        RenamedParent(fs, a, b, p);
      }
    }
    assert Origin(a, b, []) == [];
  }

  /** Rename stays below the root iff both directories resolve inside, or an equal node is replaced. */
  lemma {:induction false} RenameStaysIff(root: seq<string>, fs: Fs, xs: seq<string>, ys: seq<string>)
    requires FsOk(fs) && xs != [] && ys != [] && Slot(fs, xs).Found? && Slot(fs, ys).Found?
    requires CanRename(fs, Slot(fs, xs).path, Slot(fs, ys).path)
    ensures var a := Slot(fs, xs).path; var b := Slot(fs, ys).path;
            Confined(root, fs, Renamed(fs, a, b))
            <==> ParentInside(fs, root, xs) && (ParentInside(fs, root, ys) || (b in fs && fs[b] == fs[a]))
  {
    SlotInsideIff(fs, root, xs);
    SlotInsideIff(fs, root, ys);
    MoveStaysIff(root, fs, Slot(fs, xs).path, Slot(fs, ys).path);
  }

  /** Between places in the root, the root itself is neither moved nor replaced. */
  lemma {:induction false} MoveInside(root: seq<string>, fs: Fs, a: seq<string>, b: seq<string>)
    requires FsOk(fs) && FolderAt(fs, root) && CanRename(fs, a, b) && root <= a && root <= b
    ensures root < a && root < b && Confined(root, fs, Renamed(fs, a, b))
  {
    assert root != b;
    assert a != root;
    MoveStaysIff(root, fs, a, b);
  }

  lemma {:induction false} MoveStaysIff(root: seq<string>, fs: Fs, a: seq<string>, b: seq<string>)
    requires FsOk(fs) && CanRename(fs, a, b)
    ensures Confined(root, fs, Renamed(fs, a, b))
            <==> root < a && (root < b || (b in fs && fs[b] == fs[a]))
  {
    var fs' := Renamed(fs, a, b);
    RenameTouches(fs, a, b);
    if Confined(root, fs, fs') {
      assert !SameAt(fs, fs', a);
      assert root < b || SameAt(fs, fs', b);
    }
    if root < a && (root < b || (b in fs && fs[b] == fs[a])) {
      forall p | !(root < p)
        ensures SameAt(fs, fs', p)
      {
        if b <= p && p != b {
          assert !(root < b);
          assert !fs[a].Folder?;
          OnlyLeaf(fs, a, a + p[|b|..]);
          OnlyLeaf(fs, b, p);
        }
      }
    }
  }

  lemma {:induction false} OnlyLeaf(fs: Fs, a: seq<string>, q: seq<string>)
    requires FsOk(fs) && !FolderAt(fs, a) && a < q
    ensures q !in fs
  {
    if q in fs {
      AncestorIsFolder(fs, q, a);
    }
  }

  lemma {:induction false} RenameTouches(fs: Fs, a: seq<string>, b: seq<string>)
    requires FsOk(fs) && CanRename(fs, a, b)
    ensures a !in Renamed(fs, a, b) && b in Renamed(fs, a, b) && Renamed(fs, a, b)[b] == fs[a]
  {
    assert Origin(a, b, b) == a;
    if b < a {
      AncestorIsFolder(fs, a, b);
    }
  }

  // ---- Links out of the jail -------------------------------------------------

  lemma {:induction false} FollowAlong(fs: Fs, cur: seq<string>, a: seq<string>, b: seq<string>, links: nat)
    requires FsOk(fs) && LinkFree(fs, cur + a) && AllPlain(a)
    ensures Follow(fs, cur, a + b, links) == Follow(fs, cur + a, b, links)
    decreases |a|
  {
    if a == [] {
      assert cur + a == cur && a + b == b;
    } else {
      assert (cur + a)[..|cur| + 1] == cur + [a[0]];
      LinkFreePrefix(fs, cur + a, |cur| + 1);
      RealStep(fs, cur, a[0]);
      assert (a + b)[1..] == a[1..] + b;
      FollowStep(fs, cur, a + b, links);
      assert cur + [a[0]] + a[1..] == cur + a;
      FollowAlong(fs, cur + [a[0]], a[1..], b, links);
    }
  }

  /** Without links on the way the jail is the real one. */
  lemma {:induction false} LinkFreeInside(fs: Fs, root: seq<string>, xs: seq<string>)
    requires FsOk(fs) && AllPlain(xs) && root < xs && LinkFree(fs, xs[..|xs| - 1])
    ensures ParentInside(fs, root, xs)
  {
    var init := xs[..|xs| - 1];
    assert [] + init == init;
    FollowReal(fs, [], init, KERNEL_LINKS);
  }

  /** A link in the root to a folder d that is not below it takes requests to d. */
  lemma {:induction false} LinkLeadsOut(fs: Fs, root: seq<string>, x: string, d: seq<string>)
    requires FsOk(fs) && LinkFree(fs, root) && AllPlain(root) && Plain(x)
    requires root + [x] in fs && fs[root + [x]] == Link(ToPath(d))
    requires AllPlain(d) && LinkFree(fs, d)
    ensures Follow(fs, [], root + [x], KERNEL_LINKS) == Found(d)
  {
    assert [] + root == root;
    FollowAlong(fs, [], root, [x], KERNEL_LINKS);
    ParentIsFolder(fs, root, x);
    PartsOfPath(d);
    assert d + [x][1..] == d && [] + d == d;
    FollowReal(fs, [], d, KERNEL_LINKS - 1);
  }

  /**
   * Save through such a link writes outside the root: with a link "x" to "/etc" the request
   * "x/passwd" replaces /etc/passwd.
   */
  lemma {:induction false} SaveEscapes(fs: Fs, root: seq<string>, x: string, d: seq<string>, name: string, data: string)
    requires FsOk(fs) && LinkFree(fs, root) && AllPlain(root) && Plain(x) && Plain(name)
    requires root + [x] in fs && fs[root + [x]] == Link(ToPath(d))
    requires AllPlain(d) && LinkFree(fs, d) && fs[d] == Folder && !(root <= d)
    requires d + [name] in fs && fs[d + [name]].Regular? && fs[d + [name]].data != data
    ensures Opened(fs, root + [x, name]) == Found(d + [name])
    ensures !Confined(root, fs, Written(fs, d + [name], data))
  {
    var xs := root + [x, name];
    assert xs[..|xs| - 1] == root + [x] && xs[|xs| - 1] == name;
    LinkLeadsOut(fs, root, x, d);
    OpenedSlot(fs, xs);
    SlotInsideIff(fs, root, xs);
    WriteStaysIff(root, fs, d + [name], data);
    assert Written(fs, d + [name], data)[d + [name]] != fs[d + [name]];
  }

  /** Remove through such a link erases what lies outside the root. */
  lemma {:induction false} RemoveEscapes(fs: Fs, root: seq<string>, x: string, d: seq<string>, name: string)
    requires FsOk(fs) && LinkFree(fs, root) && AllPlain(root) && Plain(x) && Plain(name)
    requires root + [x] in fs && fs[root + [x]] == Link(ToPath(d))
    requires AllPlain(d) && LinkFree(fs, d) && fs[d] == Folder && !(root <= d) && d + [name] in fs
    ensures Slot(fs, root + [x, name]) == Found(d + [name])
    ensures !Confined(root, fs, Without(fs, d + [name]))
  {
    var xs := root + [x, name];
    assert xs[..|xs| - 1] == root + [x] && xs[|xs| - 1] == name;
    LinkLeadsOut(fs, root, x, d);
    RemoveStaysIff(root, fs, xs);
  }

  // ---- The operations --------------------------------------------------------

  datatype Entry = Entry(name: string, path: string)

  predicate Child(fs: Fs, dir: seq<string>, name: string) {
    dir + [name] in fs
  }

  predicate ListedIn(out: seq<Entry>, name: string) {
    exists e :: e in out && e.name == name
  }

  function ChildNames(fs: Fs, dir: seq<string>): (r: set<string>)
    ensures forall n :: n in r <==> Child(fs, dir, n)
  {
    var r := set p | p in fs && dir < p && |p| == |dir| + 1 :: p[|dir|];
    assert forall n :: Child(fs, dir, n) ==> n in r by {
      forall n | Child(fs, dir, n)
        ensures n in r
      {
        assert dir < dir + [n] && (dir + [n])[|dir|] == n;
      }
    }
    assert forall p :: p in fs && dir < p && |p| == |dir| + 1 ==> p == dir + [p[|dir|]];
    r
  }

  predicate FolderReached(fs: Fs, xs: seq<string>) {
    var found := Follow(fs, [], xs, KERNEL_LINKS);
    found.Found? && FolderAt(fs, found.path)
  }

  /** The path handed out resolves to the directory's path, "/" and the name, and names the child. */
  predicate EntryOk(fs: Fs, root: seq<string>, dir: seq<string>, rel: string, e: Entry) {
    var abs := root + Target(rel) + [e.name];
    && Child(fs, dir, e.name)
    && Resolve(ToPath(root), e.path) == Some(ToPath(abs))
    && Slot(fs, abs) == Found(dir + [e.name])
  }

  lemma {:induction false} ListedEntry(fs: Fs, root: seq<string>, dir: seq<string>, rel: string, name: string)
    requires root != [] && AllPlain(root) && FsOk(fs) && Child(fs, dir, name)
    requires Follow(fs, [], root + Target(rel), KERNEL_LINKS) == Found(dir) && FolderAt(fs, dir)
    ensures EntryOk(fs, root, dir, rel, Entry(name, PathJoin([rel, name])))
  {
    assert NodeOk(fs, dir + [name]);
    assert (dir + [name])[|dir|] == name;
    ListedTarget(root, rel, name);
    var abs := root + Target(rel) + [name];
    assert abs[..|abs| - 1] == root + Target(rel) && abs[|abs| - 1] == name;
  }

  /** Each child is still to come, unreadable or listed. */
  ghost predicate Covered(fs: Fs, dir: seq<string>, items: set<string>, unreadable: set<string>, out: seq<Entry>) {
    && (forall n :: n in items ==> Child(fs, dir, n))
    && (forall n :: Child(fs, dir, n) ==> n in items || n in unreadable || ListedIn(out, n))
  }

  /** What is listed is listed once and neither unreadable nor to come. */
  predicate ListedOnce(items: set<string>, unreadable: set<string>, out: seq<Entry>) {
    && (forall i :: 0 <= i < |out| ==> out[i].name !in unreadable && out[i].name !in items)
    && (forall i, j :: 0 <= i < j < |out| ==> out[i].name != out[j].name)
  }

  predicate EntriesOk(fs: Fs, root: seq<string>, dir: seq<string>, rel: string, out: seq<Entry>) {
    forall e :: e in out ==> EntryOk(fs, root, dir, rel, e)
  }

  ghost predicate Listing(fs: Fs, root: seq<string>, dir: seq<string>, rel: string,
                          items: set<string>, unreadable: set<string>, out: seq<Entry>) {
    Covered(fs, dir, items, unreadable, out) && ListedOnce(items, unreadable, out) && EntriesOk(fs, root, dir, rel, out)
  }

  /** The names listed are those of the children that can be read, each once. */
  ghost predicate NamesOf(fs: Fs, dir: seq<string>, unreadable: set<string>, out: seq<Entry>) {
    && (forall n :: ListedIn(out, n) <==> Child(fs, dir, n) && n !in unreadable)
    && (forall i, j :: 0 <= i < j < |out| ==> out[i].name != out[j].name)
  }

  lemma {:induction false} AllListed(fs: Fs, root: seq<string>, dir: seq<string>, rel: string,
        unreadable: set<string>, out: seq<Entry>)
    requires Listing(fs, root, dir, rel, {}, unreadable, out)
    ensures NamesOf(fs, dir, unreadable, out)
  {
    forall n | ListedIn(out, n)
      ensures Child(fs, dir, n) && n !in unreadable
    {
      var i :| 0 <= i < |out| && out[i].name == n;
      assert EntryOk(fs, root, dir, rel, out[i]);
    }
  }

  lemma {:induction false} CoveredMore(fs: Fs, dir: seq<string>, items: set<string>, unreadable: set<string>,
        out: seq<Entry>, e: Entry)
    requires Covered(fs, dir, items, unreadable, out)
    ensures Covered(fs, dir, items - {e.name}, unreadable, out + [e])
  {
    assert e in out + [e];
    forall n | ListedIn(out, n)
      ensures ListedIn(out + [e], n)
    {
      var d :| d in out && d.name == n;
      assert d in out + [e];
    }
  }

  lemma {:induction false} OnceMore(items: set<string>, unreadable: set<string>, out: seq<Entry>, e: Entry)
    requires ListedOnce(items, unreadable, out) && e.name in items && e.name !in unreadable
    ensures ListedOnce(items - {e.name}, unreadable, out + [e])
  {
  }

  lemma {:induction false} ListOne(fs: Fs, root: seq<string>, dir: seq<string>, rel: string, items: set<string>,
        unreadable: set<string>, out: seq<Entry>, e: Entry)
    requires Listing(fs, root, dir, rel, items, unreadable, out)
    requires e.name in items && e.name !in unreadable && EntryOk(fs, root, dir, rel, e)
    ensures Listing(fs, root, dir, rel, items - {e.name}, unreadable, out + [e])
  {
    CoveredMore(fs, dir, items, unreadable, out, e);
    OnceMore(items, unreadable, out, e);
  }

  /** Some subtree of the place is left, no node without its directory. */
  function Partly(fs: Fs, place: seq<string>, rest: set<seq<string>>): Fs {
    map p | p in fs && (place <= p ==> forall j :: |place| <= j <= |p| ==> p[..j] in rest) :: fs[p]
  }

  lemma {:induction false} PartlyOk(fs: Fs, place: seq<string>, rest: set<seq<string>>)
    requires FsOk(fs) && place != []
    ensures FsOk(Partly(fs, place, rest)) && OnlyFrom(place, fs, Partly(fs, place, rest))
  {
    var fs' := Partly(fs, place, rest);
    forall p | p in fs'
      ensures NodeOk(fs', p)
    {
      assert NodeOk(fs, p);
      if p != [] {
        var up := p[..|p| - 1];
        assert place <= up ==> forall j :: |place| <= j <= |up| ==> up[..j] == p[..j];
      }
    }
  }

  /**
   * A removal that stopped half-way: it stays below the root if the path's directory resolves
   * inside; otherwise it does so only if what was being removed holds the root.
   */
  lemma {:induction false} PartialRemoveStays(root: seq<string>, fs: Fs, xs: seq<string>, rest: set<seq<string>>)
    requires FsOk(fs) && xs != [] && Slot(fs, xs).Found? && Partly(fs, Slot(fs, xs).path, rest) != fs
    ensures ParentInside(fs, root, xs) ==> Confined(root, fs, Partly(fs, Slot(fs, xs).path, rest))
    ensures Confined(root, fs, Partly(fs, Slot(fs, xs).path, rest)) && !ParentInside(fs, root, xs) ==>
              Slot(fs, xs).path <= root
  {
    var place := Slot(fs, xs).path;
    var fs' := Partly(fs, place, rest);
    SlotInsideIff(fs, root, xs);
    PartlyOk(fs, place, rest);
    if root < place {
      OnlyFromBelow(root, place, fs, fs');
    } else if Confined(root, fs, fs') {
      var q := SomeGone(fs, fs');
      assert !SameAt(fs, fs', q);
      PrefixesCompare(root, place, q);
    }
  }

  lemma {:induction false} PrefixesCompare(a: seq<string>, b: seq<string>, q: seq<string>)
    requires a <= q && b <= q
    ensures a <= b || b <= a
  {
    assert a == q[..|a|] && b == q[..|b|];
    var n := if |a| <= |b| then |a| else |b|;
    assert q[..|a|][..n] == q[..n] == q[..|b|][..n];
  }

  lemma {:induction false} SomeGone(fs: Fs, fs': Fs) returns (q: seq<string>)
    requires fs' != fs && forall p :: p in fs' ==> p in fs && fs'[p] == fs[p]
    ensures q in fs && q !in fs'
  {
    assert (forall p :: p in fs ==> p in fs') ==> fs' == fs;
    q :| q in fs && q !in fs';
  }

  lemma {:induction false} WithoutOk(fs: Fs, place: seq<string>)
    requires FsOk(fs) && place != []
    ensures FsOk(Without(fs, place)) && OnlyFrom(place, fs, Without(fs, place))
  {
    var fs' := Without(fs, place);
    forall p | p in fs'
      ensures NodeOk(fs', p)
    {
      assert NodeOk(fs, p);
      assert p != [] && place <= p[..|p| - 1] ==> place <= p;
    }
  }

  lemma {:induction false} WrittenOk(fs: Fs, p: seq<string>, data: string)
    requires FsOk(fs) && Place(fs, p) && !FolderAt(fs, p)
    ensures FsOk(Written(fs, p, data))
  {
    var fs' := Written(fs, p, data);
    forall q | q in fs'
      ensures NodeOk(fs', q)
    {
      assert q in fs ==> NodeOk(fs, q);
    }
  }

  /** In the operations `works` says that the operating system lets each of their steps through. */
  class FileManager {
    const root: seq<string>
    var tree: Fs

    ghost predicate Valid()
      reads this
    {
      root != [] && AllPlain(root) && FsOk(tree)
    }

    /** resolve, as the component list of the path. */
    method Locate(rel: string) returns (abs: seq<string>)
      requires Valid()
      ensures abs == root + Target(rel) && AllPlain(abs) && root <= abs
      ensures Resolve(ToPath(root), rel) == Some(ToPath(abs))
    {
      ResolveLands(root, rel);
      var p := Resolve(ToPath(root), rel);
      abs := Target(p.value);
      TargetOfPath(root + Target(rel));
    }

    /**
     * The entries are the children of the directory that the path resolves to, each once,
     * except the unreadable ones, whose Info fails; every path handed out names its child.
     */
    method List(rel: string, readable: bool, unreadable: set<string>) returns (ok: bool, out: seq<Entry>)
      requires Valid()
      ensures ok <==> readable && FolderReached(tree, root + Target(rel))
      ensures ok ==> EntriesOk(tree, root, Follow(tree, [], root + Target(rel), KERNEL_LINKS).path, rel, out)
      ensures ok ==> NamesOf(tree, Follow(tree, [], root + Target(rel), KERNEL_LINKS).path, unreadable, out)
    {
      out := [];
      var abs := Locate(rel);
      var found := Follow(tree, [], abs, KERNEL_LINKS);
      if !readable || !FolderReached(tree, abs) {
        return false, out;
      }
      var dir := found.path;
      var items := ChildNames(tree, dir);
      while items != {}
        invariant Listing(tree, root, dir, rel, items, unreadable, out)
      {
        var name :| name in items;
        if name !in unreadable {
          var e := Entry(name, PathJoin([rel, name]));
          ListedEntry(tree, root, dir, rel, name);
          ListOne(tree, root, dir, rel, items, unreadable, out, e);
          out := out + [e];
        }
        items := items - {name};
      }
      AllListed(tree, root, dir, rel, unreadable, out);
      ok := true;
    }

    /**
     * os.MkdirAll: what exists of the path is resolved, and only folders below that are
     * made; it may stop after any of them.
     */
    method Mkdir(rel: string, works: bool) returns (ok: bool)
      requires Valid()
      modifies this`tree
      ensures Valid()
      ensures var xs := root + Target(rel); var now := CanonExisting(old(tree), xs);
              && (tree == old(tree) || exists r :: ResolvedBase(old(tree), xs, r) && Extended(old(tree), tree, r, now))
              && (ok ==> FolderAt(tree, now))
      ensures works ==> (ok <==> BaseIsFolder(old(tree), root + Target(rel)))
    {
      var abs := Locate(rel);
      ok, tree := MkdirAll(tree, abs, works);
    }

    /**
     * Never the entry of the root itself by that name; what goes is the entry of the path
     * with all below it, or a part of that when it fails.
     */
    method Remove(rel: string, works: bool) returns (ok: bool)
      requires Valid()
      modifies this`tree
      ensures Valid()
      ensures Target(rel) == [] ==> !ok && tree == old(tree)
      ensures Target(rel) != [] ==>
                var slot := Slot(old(tree), root + Target(rel));
                if !slot.Found? then tree == old(tree)
                else OnlyFrom(slot.path, old(tree), tree) && (ok ==> tree == Without(old(tree), slot.path))
                     && (works ==> ok)
    {
      var abs := Locate(rel);
      if abs == root {
        return false;
      }
      var slot := Slot(tree, abs);
      ok := *;
      ok := ok || works;
      if slot.Found? {
        if ok {
          WithoutOk(tree, slot.path);
          tree := Without(tree, slot.path);
        } else {
          var rest: set<seq<string>> := *;
          PartlyOk(tree, slot.path, rest);
          tree := Partly(tree, slot.path, rest);
        }
      }
    }

    /** One file is written, where the path leads with every link followed, the last too. */
    method Save(rel: string, data: string, works: bool) returns (ok: bool)
      requires Valid()
      modifies this`tree
      ensures Valid()
      ensures Target(rel) == [] ==> !ok && tree == old(tree)
      ensures works && Target(rel) != [] ==>
                var place := Opened(old(tree), root + Target(rel));
                (ok <==> place.Found? && !FolderAt(old(tree), place.path))
      ensures ok ==>
                var place := Opened(old(tree), root + Target(rel));
                place.Found? && !FolderAt(old(tree), place.path) && tree == Written(old(tree), place.path, data)
      ensures !ok && tree != old(tree) ==>
                var place := Opened(old(tree), root + Target(rel));
                place.Found? && !FolderAt(old(tree), place.path)
                && exists n :: 0 <= n <= |data| && tree == Written(old(tree), place.path, data[..n])
    {
      var abs := Locate(rel);
      if abs == root {
        return false;
      }
      ReachPlace(tree, [], abs, KERNEL_LINKS);
      var place := Opened(tree, abs);
      var canOpen: bool := *;
      if !(canOpen || works) || !place.Found? || FolderAt(tree, place.path) {
        return false;
      }
      var n :| 0 <= n <= |data| && (works ==> n == |data|);
      ok := n == |data|;
      assert data[..|data|] == data;
      WrittenOk(tree, place.path, data[..n]);
      tree := Written(tree, place.path, data[..n]);
    }

    /** The entry of one path is moved to the entry of the other, with all below it. */
    method Rename(src: string, dst: string, works: bool) returns (ok: bool)
      requires Valid()
      modifies this`tree
      ensures Valid()
      ensures !ok ==> tree == old(tree)
      ensures works ==>
                var a := Slot(old(tree), root + Target(src)); var b := Slot(old(tree), root + Target(dst));
                (ok <==> a.Found? && b.Found? && a.path in old(tree) && (a == b || CanRename(old(tree), a.path, b.path)))
      ensures ok ==>
                var a := Slot(old(tree), root + Target(src)); var b := Slot(old(tree), root + Target(dst));
                && a.Found? && b.Found? && a.path in old(tree)
                && (if a == b then tree == old(tree)
                    else CanRename(old(tree), a.path, b.path) && tree == Renamed(old(tree), a.path, b.path))
    {
      var from := Locate(src);
      var to := Locate(dst);
      var a := Slot(tree, from);
      var b := Slot(tree, to);
      ok := *;
      ok := (ok || works) && a.Found? && b.Found? && a.path in tree && (a == b || CanRename(tree, a.path, b.path));
      if ok && a != b {
        RenamedOk(tree, a.path, b.path);
        tree := Renamed(tree, a.path, b.path);
      }
    }
  }
}
