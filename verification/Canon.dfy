/**
 * Paths inside data volumes (qbt/configure.go): canonExisting and resolveInVolumes over a
 * filesystem tree with symbolic links, resolved as in section 4.13 (Pathname Resolution) of
 * the Base Definitions of POSIX.1-2017.
 */
module Canon {
  import opened GoStrings
  import opened GoPath
  import opened Options

  datatype Node = Folder | Regular(data: string) | Link(target: string)

  type Fs = map<seq<string>, Node>

  predicate NodeOk(fs: Fs, p: seq<string>) {
    p != [] ==> Plain(p[|p| - 1]) && p[..|p| - 1] in fs && fs[p[..|p| - 1]] == Folder
  }

  /** Every node but the root has a plain name and a parent that is a directory. */
  predicate FsOk(fs: Fs) {
    [] in fs && fs[[]] == Folder && forall p {:trigger NodeOk(fs, p)} :: p in fs ==> NodeOk(fs, p)
  }

  /** Links followed at most: by the kernel, and by filepath.EvalSymlinks. */
  const KERNEL_LINKS := 40
  const EVAL_LINKS := 255

  datatype Found = Found(path: seq<string>) | NotFound | TooManyLinks

  /** Pathname resolution from a directory `cur`, following at most `links` links. */
  function Follow(fs: Fs, cur: seq<string>, todo: seq<string>, links: nat): Found
    decreases links, |todo|
  {
    if todo == [] then Found(cur)
    else if cur !in fs || fs[cur] != Folder then NotFound
    else if todo[0] == ".." then Follow(fs, if cur == [] then [] else cur[..|cur| - 1], todo[1..], links)
    else
      var p := cur + [todo[0]];
      if p !in fs then NotFound
      else
        match fs[p]
        case Link(target) =>
          if links == 0 then TooManyLinks
          else if target == "" then NotFound
          else Follow(fs, if Rooted(target) then [] else cur, Parts(target) + todo[1..], links - 1)
        case _ => Follow(fs, p, todo[1..], links)
  }

  /** lstat: the last component is looked up without following it. */
  predicate Lstat(fs: Fs, xs: seq<string>) {
    xs == [] ||
    match Follow(fs, [], xs[..|xs| - 1], KERNEL_LINKS)
    case Found(d) => d in fs && fs[d] == Folder && d + [xs[|xs| - 1]] in fs
    case _ => false
  }

  function EvalSymlinks(fs: Fs, xs: seq<string>): Found {
    Follow(fs, [], xs, EVAL_LINKS)
  }

  /** The length of the longest prefix of at most n components that exists. */
  function Existing(fs: Fs, xs: seq<string>, n: nat): (k: nat)
    requires n <= |xs|
    ensures k <= n && Lstat(fs, xs[..k])
    ensures forall j :: k < j <= n ==> !Lstat(fs, xs[..j])
  {
    if Lstat(fs, xs[..n]) then n else Existing(fs, xs, n - 1)
  }

  /** canonExisting on components: the existing prefix, resolved if it can be, and the rest. */
  function CanonExisting(fs: Fs, xs: seq<string>): seq<string> {
    var k := Existing(fs, xs, |xs|);
    (match EvalSymlinks(fs, xs[..k]) case Found(r) => r case _ => xs[..k]) + xs[k..]
  }

  // ---- Laws of resolution ----------------------------------------------------

  /** A path whose every prefix is a node other than a link. */
  predicate LinkFree(fs: Fs, p: seq<string>) {
    p in fs && !fs[p].Link? && (p == [] || LinkFree(fs, p[..|p| - 1]))
  }

  lemma {:induction false} LinkFreePrefix(fs: Fs, p: seq<string>, j: nat)
    requires LinkFree(fs, p) && j <= |p|
    ensures LinkFree(fs, p[..j])
  {
    if j == |p| {
      assert p[..j] == p;
    } else {
      LinkFreePrefix(fs, p[..|p| - 1], j);
      assert p[..|p| - 1][..j] == p[..j];
    }
  }

  lemma {:induction false} LinkFreeChild(fs: Fs, p: seq<string>, c: string)
    requires LinkFree(fs, p) && p + [c] in fs && !fs[p + [c]].Link?
    ensures LinkFree(fs, p + [c])
  {
    assert (p + [c])[..|p + [c]| - 1] == p;
  }

  /** A directory reached without links on the way, by plain names. */
  predicate Real(fs: Fs, p: seq<string>) {
    LinkFree(fs, p) && AllPlain(p)
  }

  predicate RealIfFound(fs: Fs, found: Found) {
    found.Found? ==> Real(fs, found.path)
  }

  lemma {:induction false} RealRoot(fs: Fs)
    requires FsOk(fs)
    ensures Real(fs, [])
  {
  }

  function Up(p: seq<string>): seq<string> {
    if p == [] then [] else p[..|p| - 1]
  }

  lemma {:induction false} RealParent(fs: Fs, p: seq<string>)
    requires Real(fs, p)
    ensures Real(fs, Up(p))
  {
  }

  lemma {:induction false} RealChild(fs: Fs, p: seq<string>, c: string)
    requires FsOk(fs) && Real(fs, p) && p + [c] in fs && !fs[p + [c]].Link?
    ensures Real(fs, p + [c])
  {
    LinkFreeChild(fs, p, c);
    assert NodeOk(fs, p + [c]);
  }

  /** What resolution finds has no link on the way and only plain names. */
  lemma {:induction false} FollowLinkFree(fs: Fs, cur: seq<string>, todo: seq<string>, links: nat)
    requires FsOk(fs) && Real(fs, cur)
    ensures RealIfFound(fs, Follow(fs, cur, todo, links))
    decreases links, |todo|
  {
    if todo == [] || cur !in fs || fs[cur] != Folder {
    } else if todo[0] == ".." {
      RealParent(fs, cur);
      FollowLinkFree(fs, Up(cur), todo[1..], links);
    } else if cur + [todo[0]] in fs {
      match fs[cur + [todo[0]]]
      case Link(target) =>
        if links > 0 && target != "" {
          RealRoot(fs);
          FollowLinkFree(fs, if Rooted(target) then [] else cur, Parts(target) + todo[1..], links - 1);
        }
      case _ =>
        RealChild(fs, cur, todo[0]);
        FollowLinkFree(fs, cur + [todo[0]], todo[1..], links);
    }
  }

  /** Allowing more links does not change what was found. */
  lemma {:induction false} FollowMore(fs: Fs, cur: seq<string>, todo: seq<string>, links: nat, more: nat)
    requires Follow(fs, cur, todo, links).Found? && links <= more
    ensures Follow(fs, cur, todo, more) == Follow(fs, cur, todo, links)
    decreases links, |todo|
  {
    if todo != [] {
      if todo[0] == ".." {
        FollowMore(fs, if cur == [] then [] else cur[..|cur| - 1], todo[1..], links, more);
      } else {
        var p := cur + [todo[0]];
        match fs[p] {
          case Link(target) =>
            FollowMore(fs, if Rooted(target) then [] else cur, Parts(target) + todo[1..], links - 1, more - 1);
          case _ =>
            FollowMore(fs, p, todo[1..], links, more);
        }
      }
    }
  }

  lemma {:induction false} RealStep(fs: Fs, cur: seq<string>, c: string)
    requires FsOk(fs) && LinkFree(fs, cur + [c])
    ensures cur in fs && fs[cur] == Folder && cur + [c] in fs && !fs[cur + [c]].Link?
  {
    assert NodeOk(fs, cur + [c]);
    assert (cur + [c])[..|cur + [c]| - 1] == cur;
  }

  lemma {:induction false} FollowStep(fs: Fs, cur: seq<string>, todo: seq<string>, links: nat)
    requires todo != [] && todo[0] != ".." && cur in fs && fs[cur] == Folder
    requires cur + [todo[0]] in fs && !fs[cur + [todo[0]]].Link?
    ensures Follow(fs, cur, todo, links) == Follow(fs, cur + [todo[0]], todo[1..], links)
  {
  }

  lemma {:induction false} RealFollow(fs: Fs, cur: seq<string>, rest: seq<string>, links: nat)
    requires FsOk(fs) && LinkFree(fs, cur + rest) && rest != [] && Plain(rest[0])
    ensures Follow(fs, cur, rest, links) == Follow(fs, cur + [rest[0]], rest[1..], links)
  {
    assert (cur + rest)[..|cur| + 1] == cur + [rest[0]];
    LinkFreePrefix(fs, cur + rest, |cur| + 1);
    RealStep(fs, cur, rest[0]);
    FollowStep(fs, cur, rest, links);
  }

  /** A link-free path resolves to itself, whatever the link budget. */
  lemma {:induction false} FollowReal(fs: Fs, cur: seq<string>, rest: seq<string>, links: nat)
    requires FsOk(fs) && LinkFree(fs, cur + rest) && AllPlain(rest)
    ensures Follow(fs, cur, rest, links) == Found(cur + rest)
    decreases |rest|
  {
    if rest == [] {
      assert cur + rest == cur;
    } else {
      RealFollow(fs, cur, rest, links);
      assert cur + [rest[0]] + rest[1..] == cur + rest;
      FollowReal(fs, cur + [rest[0]], rest[1..], links);
    }
  }

  // ---- Cleaning against the kernel -------------------------------------------

  predicate NoLinks(fs: Fs) {
    forall p :: p in fs ==> !fs[p].Link?
  }

  lemma {:induction false} FollowWalks(fs: Fs, cur: seq<string>, todo: seq<string>, links: nat)
    requires NoLinks(fs) && AllPlain(cur) && AllSignificant(todo) && Follow(fs, cur, todo, links).Found?
    ensures Follow(fs, cur, todo, links) == Found(Walk(true, cur, todo))
    decreases |todo|
  {
    if todo != [] {
      var next := if todo[0] == ".." then Up(cur) else cur + [todo[0]];
      assert Push(true, cur, todo[0]) == next;
      FollowWalks(fs, next, todo[1..], links);
    }
  }

  /**
   * In a tree without links a path that the kernel resolves, by its own rules for "..", leads
   * to what cleaning says; so cleaning a path does not change the node it denotes.
   */
  lemma {:induction false} CleaningIsResolving(fs: Fs, s: string, links: nat)
    requires FsOk(fs) && NoLinks(fs) && Follow(fs, [], Parts(s), links).Found?
    ensures Follow(fs, [], Parts(s), links) == Found(Target(s))
    ensures Follow(fs, [], Target(s), links) == Found(Target(s))
  {
    FollowWalks(fs, [], Parts(s), links);
    RealRoot(fs);
    FollowLinkFree(fs, [], Parts(s), links);
    assert [] + Target(s) == Target(s);
    FollowReal(fs, [], Target(s), links);
  }

  /** "/vol1/../etc" is not in a volume mounted on /vol1. */
  lemma {:induction false} UpLeavesVolume(vol: string, rest: string)
    requires Plain(vol)
    ensures Target("/" + vol + "/" + ".." + "/" + rest) == Target("/" + rest)
  {
    var p := "/" + vol + "/" + "..";
    PartsAt(p, rest);
    assert "" + "/" + vol == "/" + vol;
    UpCancels("", vol);
    PartsAt("", rest);
    assert "" + "/" + rest == "/" + rest;
    PartsEmpty();
    WalkAppend(true, [], Parts(p), Parts(rest));
    assert Target("") == [] && [] + Parts(rest) == Parts(rest);
  }

  // ---- canonExisting ---------------------------------------------------------

  /** Whatever happens, the suffix is the input's own and nothing of it exists. */
  lemma {:induction false} CanonSplit(fs: Fs, xs: seq<string>)
    ensures var k := Existing(fs, xs, |xs|);
            xs == xs[..k] + xs[k..] && (forall j :: k < j <= |xs| ==> !Lstat(fs, xs[..j]))
            && exists p :: CanonExisting(fs, xs) == p + xs[k..]
  {
  }

  /**
   * When the longest existing prefix resolves to r, the result is r and the suffix: r is
   * link-free, denotes the same node as the prefix, and is the result's whole existing part.
   */
  lemma {:induction false} CanonIsReal(fs: Fs, xs: seq<string>, r: seq<string>)
    requires FsOk(fs) && AllPlain(xs)
    requires Follow(fs, [], xs[..Existing(fs, xs, |xs|)], KERNEL_LINKS) == Found(r)
    ensures var k := Existing(fs, xs, |xs|);
            && CanonExisting(fs, xs) == r + xs[k..]
            && LinkFree(fs, r) && AllPlain(r + xs[k..])
            && (forall links :: Follow(fs, [], r, links) == Found(r))
            && (forall j :: |r| < j <= |r + xs[k..]| ==> (r + xs[k..])[..j] !in fs)
  {
    var k := Existing(fs, xs, |xs|);
    FollowMore(fs, [], xs[..k], KERNEL_LINKS, EVAL_LINKS);
    ResolvedPrefix(fs, xs[..k], r);
    CanonPlain(fs, xs);
    if k < |xs| {
      assert xs[..k + 1][..k] == xs[..k] && xs[..k + 1][k] == xs[k];
      assert !Lstat(fs, xs[..k + 1]);
      NothingBelow(fs, r, xs[k..]);
    } else {
      assert r + xs[k..] == r;
    }
  }

  lemma {:induction false} ResolvedPrefix(fs: Fs, xs: seq<string>, r: seq<string>)
    requires FsOk(fs) && Follow(fs, [], xs, KERNEL_LINKS) == Found(r)
    ensures LinkFree(fs, r) && AllPlain(r) && r in fs
    ensures forall links :: Follow(fs, [], r, links) == Found(r)
  {
    RealRoot(fs);
    FollowLinkFree(fs, [], xs, KERNEL_LINKS);
    assert r[..|r|] == r;
    forall links: nat
      ensures Follow(fs, [], r, links) == Found(r)
    {
      assert [] + r == r;
      FollowReal(fs, [], r, links);
    }
  }

  lemma {:induction false} ParentIsFolder(fs: Fs, r: seq<string>, c: string)
    requires FsOk(fs)
    ensures r + [c] in fs ==> r in fs && fs[r] == Folder
  {
    assert r + [c] in fs ==> NodeOk(fs, r + [c]);
    assert (r + [c])[..|r + [c]| - 1] == r;
  }

  lemma {:induction false} NothingBelow(fs: Fs, r: seq<string>, rest: seq<string>)
    requires FsOk(fs) && rest != [] && r in fs && (fs[r] != Folder || r + [rest[0]] !in fs)
    ensures forall j :: |r| < j <= |r + rest| ==> (r + rest)[..j] !in fs
  {
    var p := r + rest;
    assert p[..|r| + 1] == r + [rest[0]];
    ParentIsFolder(fs, r, rest[0]);
    forall j | |r| < j <= |p|
      ensures p[..j] !in fs
    {
      AbsentBelow(fs, p, |r|, j);
    }
  }

  lemma {:induction false} AbsentChild(fs: Fs, p: seq<string>, j: nat)
    requires FsOk(fs) && j < |p| && p[..j] !in fs
    ensures p[..j + 1] !in fs
  {
    assert p[..j + 1] in fs ==> NodeOk(fs, p[..j + 1]);
    assert p[..j + 1][..j] == p[..j];
  }

  lemma {:induction false} AbsentBelow(fs: Fs, p: seq<string>, m: nat, j: nat)
    requires FsOk(fs) && m < j <= |p| && p[..m + 1] !in fs
    ensures p[..j] !in fs
  {
    if j > m + 1 {
      AbsentBelow(fs, p, m, j - 1);
      AbsentChild(fs, p, j - 1);
    }
  }

  /** When the prefix exists but does not resolve, it is kept as written, link included. */
  lemma {:induction false} CanonUnresolved(fs: Fs, xs: seq<string>)
    requires !EvalSymlinks(fs, xs[..Existing(fs, xs, |xs|)]).Found?
    ensures CanonExisting(fs, xs) == xs
  {
    var k := Existing(fs, xs, |xs|);
    assert xs[..k] + xs[k..] == xs;
  }

  /** A path that is link-free up to the given suffix. */
  ghost predicate RealUpTo(fs: Fs, path: seq<string>, suffix: seq<string>) {
    exists p :: LinkFree(fs, p) && path == p + suffix
  }

  /**
   * The promise of canonExisting, that links in the existing prefix are resolved, is kept
   * exactly when that prefix resolves.
   */
  lemma {:induction false} CanonRealIff(fs: Fs, xs: seq<string>)
    requires FsOk(fs) && AllPlain(xs)
    ensures var k := Existing(fs, xs, |xs|);
            EvalSymlinks(fs, xs[..k]).Found? <==> RealUpTo(fs, CanonExisting(fs, xs), xs[k..])
  {
    var k := Existing(fs, xs, |xs|);
    match EvalSymlinks(fs, xs[..k])
    case Found(r) =>
      RealRoot(fs);
      FollowLinkFree(fs, [], xs[..k], EVAL_LINKS);
      assert CanonExisting(fs, xs) == r + xs[k..] && LinkFree(fs, r);
    case _ =>
      forall p | CanonExisting(fs, xs) == p + xs[k..]
        ensures !LinkFree(fs, p)
      {
        UnresolvedIsNotReal(fs, xs, k, p);
      }
  }

  lemma {:induction false} UnresolvedIsNotReal(fs: Fs, xs: seq<string>, k: nat, p: seq<string>)
    requires FsOk(fs) && AllPlain(xs) && k == Existing(fs, xs, |xs|) && !EvalSymlinks(fs, xs[..k]).Found?
    requires CanonExisting(fs, xs) == p + xs[k..]
    ensures !LinkFree(fs, p)
  {
    CanonUnresolved(fs, xs);
    assert p == (p + xs[k..])[..|xs| - |xs[k..]|] == xs[..k];
    if LinkFree(fs, p) {
      assert [] + p == p;
      FollowReal(fs, [], p, EVAL_LINKS);
    }
  }

  /** Such a prefix exists: a link to a name that is not there is kept as it is written. */
  lemma {:induction false} DanglingLinkKept(x: string, e: string)
    requires Plain(x) && Plain(e) && x != e
    ensures var fs: Fs := map[[] := Folder, [x] := Link(e)];
            FsOk(fs) && Lstat(fs, [x]) && EvalSymlinks(fs, [x]) == NotFound && CanonExisting(fs, [x]) == [x]
  {
    var fs: Fs := map[[] := Folder, [x] := Link(e)];
    assert [x][..0] == [] && [] + [x] == [x] && [x][1..] == [];
    assert Lstat(fs, [x]);
    SplitNone(e, '/');
    KeepAll([e]);
    assert Parts(e) + [] == [e] && [] + [e] == [e];
    assert Follow(fs, [], [e], EVAL_LINKS - 1) == NotFound;
    assert EvalSymlinks(fs, [x]) == NotFound;
    assert [x][..1] == [x];
    assert Existing(fs, [x], 1) == 1;
    CanonUnresolved(fs, [x]);
  }

  // ---- The code's loop on strings --------------------------------------------

  /** canonExisting: peel components off a clean absolute path until something exists. */
  method CanonPath(fs: Fs, path: string) returns (result: string)
    requires FsOk(fs) && Rooted(path) && Clean(path) == path
    ensures result == ToPath(CanonExisting(fs, Target(path)))
    ensures AllPlain(CanonExisting(fs, Target(path)))
  {
    ghost var xs := Target(path);
    CleanRooted(path);
    var p := path;
    var suffix: seq<string> := [];
    ghost var n := |xs|;
    assert xs[..n] == xs && xs[n..] == [];
    CanonPlain(fs, xs);
    while true
      invariant 0 <= n <= |xs| && p == ToPath(xs[..n]) && suffix == xs[n..]
      invariant Existing(fs, xs, |xs|) == Existing(fs, xs, n)
      decreases n
    {
      TargetOfPath(xs[..n]);
      var comps := Target(p);
      if Lstat(fs, comps) {
        var eval := EvalSymlinks(fs, comps);
        if eval.Found? {
          p := ToPath(eval.path);
        }
        break;
      }
      PeelStep(xs, n);
      SuffixGrows(xs, n);
      var parent := Dir(p);
      if parent == p {
        break;
      }
      suffix := [Base(p)] + suffix;
      p := parent;
      n := n - 1;
    }
    HeadOf(fs, xs, n, p);
    result := Reattach(p, suffix);
  }

  method Reattach(p: string, suffix: seq<string>) returns (result: string)
    requires AllPlain(Target(p)) && ToPath(Target(p)) == p && AllPlain(suffix)
    ensures result == ToPath(Target(p) + suffix)
  {
    if |suffix| > 0 {
      JoinOntoPath(Target(p), suffix);
      return PathJoin([p] + suffix);
    }
    assert Target(p) + suffix == Target(p);
    return p;
  }

  lemma {:induction false} SuffixGrows(xs: seq<string>, n: nat)
    requires 0 < n <= |xs|
    ensures [xs[n - 1]] + xs[n..] == xs[n - 1..]
  {
  }

  lemma {:induction false} PeelStep(xs: seq<string>, n: nat)
    requires AllPlain(xs) && 0 < n <= |xs|
    ensures Dir(ToPath(xs[..n])) == ToPath(xs[..n - 1]) && Base(ToPath(xs[..n])) == xs[n - 1]
    ensures ToPath(xs[..n - 1]) != ToPath(xs[..n])
  {
    DirOfPath(xs[..n]);
    BaseOfPath(xs[..n]);
    assert xs[..n][..n - 1] == xs[..n - 1];
    ParentDiffers(xs[..n]);
  }

  lemma {:induction false} ParentDiffers(xs: seq<string>)
    requires AllPlain(xs) && xs != []
    ensures ToPath(xs[..|xs| - 1]) != ToPath(xs)
  {
    if ToPath(xs[..|xs| - 1]) == ToPath(xs) {
      ToPathInjective(xs[..|xs| - 1], xs);
    }
  }

  lemma {:induction false} CanonPlain(fs: Fs, xs: seq<string>)
    requires FsOk(fs) && AllPlain(xs)
    ensures AllPlain(CanonExisting(fs, xs))
  {
    var k := Existing(fs, xs, |xs|);
    RealRoot(fs);
    FollowLinkFree(fs, [], xs[..k], EVAL_LINKS);
  }

  lemma {:induction false} HeadOf(fs: Fs, xs: seq<string>, k: nat, p: string)
    requires FsOk(fs) && AllPlain(xs) && k == Existing(fs, xs, |xs|)
    requires p == ToPath(match EvalSymlinks(fs, xs[..k]) case Found(r) => r case _ => xs[..k])
    ensures AllPlain(Target(p)) && ToPath(Target(p)) == p && Target(p) + xs[k..] == CanonExisting(fs, xs)
  {
    RealRoot(fs);
    FollowLinkFree(fs, [], xs[..k], EVAL_LINKS);
    TargetOfPath(match EvalSymlinks(fs, xs[..k]) case Found(r) => r case _ => xs[..k]);
  }

  // ---- resolveInVolumes ------------------------------------------------------

  datatype Volume = Volume(name: string, mountPoint: string)

  /** The real path lies in the volume; "/" as a mount point admits only itself. */
  predicate Within(mount: seq<string>, canon: seq<string>) {
    if mount == [] then canon == [] else mount <= canon
  }

  predicate Acceptable(path: string) {
    path != "" && HasPrefix(path, "/") && '\0' !in path
  }

  lemma {:induction false} ValidNameIff(name: string)
    ensures ValidName(name) <==>
              && 1 <= |name| <= 255 && name != "." && '/' !in name && '\0' !in name
              && forall i :: 0 <= i < |name| - 1 ==> !(name[i] == '.' && name[i + 1] == '.')
  {
    BadChars(name);
    TwoDots(name);
    assert name == ".." ==> name[0] == '.' && name[1] == '.';
  }

  lemma {:induction false} TwoDots(name: string)
    ensures Contains(name, "..") <==> exists i :: 0 <= i < |name| - 1 && name[i] == '.' && name[i + 1] == '.'
  {
    if Contains(name, "..") {
      var i :| 0 <= i <= |name| && OccursAt(name, "..", i);
      assert name[i..i + 2][0] == name[i] && name[i..i + 2][1] == name[i + 1];
    }
    if exists i :: 0 <= i < |name| - 1 && name[i] == '.' && name[i + 1] == '.' {
      var i :| 0 <= i < |name| - 1 && name[i] == '.' && name[i + 1] == '.';
      assert name[i..i + 2] == "..";
      assert OccursAt(name, "..", i);
    }
  }

  lemma {:induction false} BadChars(name: string)
    ensures ContainsAny(name, "/\0") <==> '/' in name || '\0' in name
  {
    var bad := "/\0";
    assert |bad| == 2 && bad[0] == '/' && bad[1] == '\0';
    if '/' in name {
      var i :| 0 <= i < |name| && name[i] == '/';
      assert name[i] in bad;
    }
    if '\0' in name {
      var i :| 0 <= i < |name| && name[i] == '\0';
      assert name[i] in bad;
    }
  }

  predicate Admits(vols: seq<Volume>, canon: seq<string>) {
    exists v :: v in vols && Within(Target(v.mountPoint), canon)
  }

  method FindVolume(vols: seq<Volume>, canon: string, ghost xs: seq<string>) returns (vol: Option<Volume>)
    requires AllPlain(xs) && canon == ToPath(xs) && forall v :: v in vols ==> Rooted(v.mountPoint)
    ensures vol.Some? <==> Admits(vols, xs)
    ensures vol.Some? ==> vol.value in vols && Within(Target(vol.value.mountPoint), xs)
  {
    var i := 0;
    while i < |vols|
      invariant 0 <= i <= |vols|
      invariant forall j :: 0 <= j < i ==> !Within(Target(vols[j].mountPoint), xs)
    {
      var v := vols[i];
      assert v in vols;
      CleanRooted(v.mountPoint);
      var mp := Clean(v.mountPoint);
      WithinTest(Target(v.mountPoint), xs);
      if canon == mp || HasPrefix(canon + "/", mp + "/") {
        return Some(v);
      }
      i := i + 1;
    }
    return None;
  }

  /** Accepted exactly if the canonical components extend some volume's mount point. */
  method ResolveInVolumes(fs: Fs, vols: seq<Volume>, path: string) returns (vol: Option<Volume>)
    requires FsOk(fs) && forall v :: v in vols ==> Rooted(v.mountPoint)
    ensures vol.Some? <==> Acceptable(path) && Admits(vols, CanonExisting(fs, Target(path)))
    ensures vol.Some? ==> vol.value in vols && Within(Target(vol.value.mountPoint), CanonExisting(fs, Target(path)))
  {
    if path == "" || !HasPrefix(path, "/") || '\0' in path {
      return None;
    }
    var clean := Clean(path);
    CleanRooted(path);
    CleanPath(Target(path));
    TargetOfClean(path);
    var canon := CanonPath(fs, clean);
    vol := FindVolume(vols, canon, CanonExisting(fs, Target(path)));
  }

  /** The code's two string comparisons decide the component prefix. */
  lemma {:induction false} WithinTest(m: seq<string>, r: seq<string>)
    requires AllPlain(m) && AllPlain(r)
    ensures ToPath(r) == ToPath(m) || HasPrefix(ToPath(r) + "/", ToPath(m) + "/") <==> Within(m, r)
  {
    if m == [] {
      assert ToPath([]) == "/";
      if r != [] {
        assert Join(r, '/')[0] == r[0][0];
        assert (ToPath(r) + "/")[1] == r[0][0];
      }
    } else {
      PrefixTest(m, r);
      if ToPath(r) == ToPath(m) {
        ToPathInjective(r, m);
      }
    }
  }

  /** Sibling volumes are kept apart: a path under /vol10 is not in /vol1. */
  lemma {:induction false} SiblingsApart(m: seq<string>, r: seq<string>)
    requires m != [] && Within(m, r)
    ensures |r| >= |m| && r[|m| - 1] == m[|m| - 1]
  {
  }

  /**
   * For a path whose longest existing prefix resolves to r, acceptance by a link-free mount
   * point other than "/" means that r with the missing suffix lies below it; in particular a
   * fully existing path is accepted iff the node it denotes lies in the volume.
   */
  lemma {:induction false} AcceptedMeansInside(fs: Fs, mount: seq<string>, path: string, r: seq<string>)
    requires FsOk(fs) && mount != []
    requires Follow(fs, [], Target(path)[..Existing(fs, Target(path), |Target(path)|)], KERNEL_LINKS) == Found(r)
    ensures var xs := Target(path); var k := Existing(fs, xs, |xs|);
            && (Within(mount, CanonExisting(fs, xs)) <==> mount <= r + xs[k..])
            && (mount in fs ==> (Within(mount, CanonExisting(fs, xs)) <==> mount <= r))
  {
    var xs := Target(path);
    var k := Existing(fs, xs, |xs|);
    CanonIsReal(fs, xs, r);
    if mount in fs {
      NodePrefix(fs, mount, r, xs[k..]);
    }
  }

  lemma {:induction false} NodePrefix(fs: Fs, mount: seq<string>, r: seq<string>, rest: seq<string>)
    requires mount in fs && forall j :: |r| < j <= |r + rest| ==> (r + rest)[..j] !in fs
    ensures mount <= r + rest <==> mount <= r
  {
    var p := r + rest;
    if mount <= p {
      assert mount == p[..|mount|];
      assert |mount| <= |r|;
      assert p[..|mount|] == r[..|mount|];
    }
  }

  // ---- Folder names and Mkdir ------------------------------------------------

  /** validName; a code point counts as one byte, as in ASCII. */
  predicate ValidName(name: string) {
    && name != "" && |name| <= 255 && name != "." && name != ".."
    && !ContainsAny(name, "/\0") && !Contains(name, "..")
  }

  /** A valid name is one plain component, so the new folder is a child of the parent. */
  lemma {:induction false} NewFolderIsChild(parent: string, name: string)
    requires Rooted(parent) && ValidName(name)
    ensures Plain(name) && PathJoin([parent, name]) == ToPath(Target(parent) + [name])
  {
    assert '/' in "/\0";
    assert forall i :: 0 <= i < |name| ==> name[i] !in "/\0";
    JoinTarget(parent, name);
    var s := parent + "/" + name;
    assert [parent, name][1..] == [name];
    assert Join([parent, name], '/') == s;
    TargetOfClean(s);
    CleanRooted(s);
  }

  /** Where the path would be made: the resolved existing prefix and the missing rest. */
  predicate ResolvedBase(fs: Fs, xs: seq<string>, r: seq<string>) {
    Follow(fs, [], xs[..Existing(fs, xs, |xs|)], KERNEL_LINKS) == Found(r)
  }

  /** Nothing is lost; what is new are folders strictly below r, on the way to p. */
  ghost predicate Extended(fs: Fs, fs': Fs, r: seq<string>, p: seq<string>) {
    && (forall q :: q in fs ==> q in fs' && fs'[q] == fs[q])
    && (forall q :: q in fs' && q !in fs ==> r < q <= p && fs'[q] == Folder)
  }

  lemma {:induction false} AddFolderOk(fs: Fs, q: seq<string>)
    requires FsOk(fs) && q != [] && q !in fs && Plain(q[|q| - 1])
    requires q[..|q| - 1] in fs && fs[q[..|q| - 1]] == Folder
    ensures FsOk(fs[q := Folder])
  {
    var g := fs[q := Folder];
    forall p | p in g
      ensures NodeOk(g, p)
    {
      assert p != q ==> NodeOk(fs, p);
    }
  }

  lemma {:induction false} ExtendedAdd(fs: Fs, fs0: Fs, r: seq<string>, p: seq<string>, q: seq<string>)
    requires Extended(fs0, fs, r, p) && r < q <= p && q !in fs
    ensures Extended(fs0, fs[q := Folder], r, p)
  {
  }

  lemma {:induction false} FolderAdded(fs: Fs, fs0: Fs, r: seq<string>, p: seq<string>, i: nat)
    requires FsOk(fs) && Extended(fs0, fs, r, p) && AllPlain(p) && r <= p && |r| <= i < |p|
    requires p[..i] in fs && fs[p[..i]] == Folder && p[..i + 1] !in fs
    ensures FsOk(fs[p[..i + 1] := Folder]) && Extended(fs0, fs[p[..i + 1] := Folder], r, p)
  {
    var q := p[..i + 1];
    assert q[..|q| - 1] == p[..i] && q[|q| - 1] == p[i];
    AddFolderOk(fs, q);
    BetweenPrefixes(r, p, i + 1);
    ExtendedAdd(fs, fs0, r, p, q);
  }

  lemma {:induction false} BetweenPrefixes(r: seq<string>, p: seq<string>, n: nat)
    requires r <= p && |r| < n <= |p|
    ensures r < p[..n] <= p
  {
    assert p[..n][..|r|] == p[..|r|] == r;
  }

  /** The folders down to p[..i] are there, and nothing below. */
  ghost predicate Building(fs: Fs, fs': Fs, r: seq<string>, p: seq<string>, i: nat) {
    && r <= p && |r| <= i <= |p| && FsOk(fs') && Extended(fs, fs', r, p)
    && p[..i] in fs' && fs'[p[..i]] == Folder
    && forall j :: i < j <= |p| ==> p[..j] !in fs'
  }

  lemma {:induction false} BuildStep(fs: Fs, fs': Fs, r: seq<string>, p: seq<string>, i: nat)
    ensures Building(fs, fs', r, p, i) && i < |p| && AllPlain(p) ==> Building(fs, fs'[p[..i + 1] := Folder], r, p, i + 1)
  {
    if Building(fs, fs', r, p, i) && i < |p| && AllPlain(p) {
      FolderAdded(fs', fs, r, p, i);
      forall j | i + 1 < j <= |p|
        ensures p[..j] !in fs'[p[..i + 1] := Folder]
      {
        assert |p[..j]| != |p[..i + 1]|;
      }
    }
  }

  lemma {:induction false} BuildStart(fs: Fs, r: seq<string>, p: seq<string>)
    requires FsOk(fs) && r <= p && r in fs && fs[r] == Folder
    requires forall j :: |r| < j <= |p| ==> p[..j] !in fs
    ensures Building(fs, fs, r, p, |r|)
  {
    assert p[..|r|] == r;
  }

  /** The tree with the folders p[..m + 1] to p[..i] added. */
  function WithFolders(fs: Fs, p: seq<string>, m: nat, i: nat): Fs
    requires m <= i <= |p|
  {
    if i == m then fs else WithFolders(fs, p, m, i - 1)[p[..i] := Folder]
  }

  lemma {:induction false} FoldersBuilt(fs: Fs, r: seq<string>, p: seq<string>, i: nat)
    requires |r| <= i <= |p|
    ensures Building(fs, fs, r, p, |r|) && AllPlain(p) ==> Building(fs, WithFolders(fs, p, |r|, i), r, p, i)
  {
    if i > |r| {
      FoldersBuilt(fs, r, p, i - 1);
      BuildStep(fs, WithFolders(fs, p, |r|, i - 1), r, p, i - 1);
    }
  }

  /** os.MkdirAll below an existing folder, level by level; unless each works it may stop after any. */
  method Build(fs: Fs, p: seq<string>, m: nat, works: bool) returns (ok: bool, fs': Fs, i: nat)
    requires m <= |p|
    ensures m <= i <= |p| && fs' == WithFolders(fs, p, m, i) && (ok ==> i == |p|)
    ensures works ==> ok
  {
    fs', i := fs, m;
    while i < |p|
      invariant m <= i <= |p| && fs' == WithFolders(fs, p, m, i)
    {
      ok := *;
      ok := ok || works;
      if !ok {
        return;
      }
      i := i + 1;
      fs' := fs'[p[..i] := Folder];
    }
    ok := true;
  }

  /** What exists of the path is a folder. */
  predicate BaseIsFolder(fs: Fs, xs: seq<string>) {
    var base := Follow(fs, [], xs[..Existing(fs, xs, |xs|)], KERNEL_LINKS);
    base.Found? && base.path in fs && fs[base.path] == Folder
  }

  /** os.MkdirAll on a path: the existing prefix must be a folder. */
  method MkdirAll(fs: Fs, xs: seq<string>, works: bool) returns (ok: bool, fs': Fs)
    requires FsOk(fs) && AllPlain(xs)
    ensures FsOk(fs')
    ensures works ==> (ok <==> BaseIsFolder(fs, xs))
    ensures fs' == fs || exists r :: ResolvedBase(fs, xs, r) && Extended(fs, fs', r, CanonExisting(fs, xs))
    ensures ok ==> CanonExisting(fs, xs) in fs' && fs'[CanonExisting(fs, xs)] == Folder
  {
    var k := Existing(fs, xs, |xs|);
    var base := Follow(fs, [], xs[..k], KERNEL_LINKS);
    if !base.Found? || base.path !in fs || fs[base.path] != Folder {
      return false, fs;
    }
    var p := base.path + xs[k..];
    CanonIsReal(fs, xs, base.path);
    BuildStart(fs, base.path, p);
    var i;
    ok, fs', i := Build(fs, p, |base.path|, works);
    FoldersBuilt(fs, base.path, p, i);
    assert ok ==> p[..i] == p;
  }

  /** Every volume is mounted on a node of the tree other than the root. */
  predicate VolumesPresent(fs: Fs, vols: seq<Volume>) {
    forall v :: v in vols ==> Target(v.mountPoint) != [] && Target(v.mountPoint) in fs
  }

  ghost predicate InsideVolume(vols: seq<Volume>, p: seq<string>) {
    exists v :: v in vols && Target(v.mountPoint) < p
  }

  lemma {:induction false} NewNodesInside(fs: Fs, fs': Fs, vols: seq<Volume>, vol: Volume, xs: seq<string>,
        r: seq<string>)
    requires FsOk(fs) && AllPlain(xs) && VolumesPresent(fs, vols) && vol in vols
    requires ResolvedBase(fs, xs, r) && Extended(fs, fs', r, CanonExisting(fs, xs))
    requires Within(Target(vol.mountPoint), CanonExisting(fs, xs))
    ensures forall q :: q in fs' && q !in fs ==> InsideVolume(vols, q)
  {
    CanonIsReal(fs, xs, r);
    NodePrefix(fs, Target(vol.mountPoint), r, xs[Existing(fs, xs, |xs|)..]);
    forall q | q in fs' && q !in fs
      ensures Target(vol.mountPoint) < q
    {
      assert r < q;
    }
  }

  lemma {:induction false} NewNodes(fs: Fs, fs': Fs, vols: seq<Volume>, vol: Volume, xs: seq<string>)
    requires FsOk(fs) && AllPlain(xs) && vol in vols && Within(Target(vol.mountPoint), CanonExisting(fs, xs))
    requires fs' == fs || exists r :: ResolvedBase(fs, xs, r) && Extended(fs, fs', r, CanonExisting(fs, xs))
    ensures VolumesPresent(fs, vols) ==> forall q :: q in fs' && q !in fs ==> InsideVolume(vols, q)
  {
    if VolumesPresent(fs, vols) && fs' != fs {
      var r :| ResolvedBase(fs, xs, r) && Extended(fs, fs', r, CanonExisting(fs, xs));
      NewNodesInside(fs, fs', vols, vol, xs, r);
    }
  }

  /** The path is in the volumes, nothing is there, and what exists of it is a folder. */
  predicate CanMake(fs: Fs, vols: seq<Volume>, path: string) {
    DirOk(fs, vols, path) && !Follow(fs, [], Target(path), KERNEL_LINKS).Found? && BaseIsFolder(fs, Target(path))
  }

  predicate DirOk(fs: Fs, vols: seq<Volume>, dir: string) {
    Acceptable(dir) && Admits(vols, CanonExisting(fs, Target(dir)))
  }

  /**
   * Mkdir: nothing is created for a bad name or outside the volumes; whatever is created,
   * also by a failing call, lies strictly inside a volume that is present. When the operating
   * system lets it, it makes every folder that is asked for by a valid name inside the volumes
   * and is not there yet.
   */
  method Mkdir(fs: Fs, vols: seq<Volume>, parent: string, name: string, works: bool)
    returns (dst: Option<string>, fs': Fs)
    requires FsOk(fs) && forall v :: v in vols ==> Rooted(v.mountPoint)
    ensures FsOk(fs') && forall q :: q in fs ==> q in fs' && fs'[q] == fs[q]
    ensures VolumesPresent(fs, vols) ==> forall q :: q in fs' && q !in fs ==> InsideVolume(vols, q)
    ensures !ValidName(name) || !Acceptable(parent) || !Admits(vols, CanonExisting(fs, Target(parent))) ==>
              dst.None? && fs' == fs
    ensures dst.Some? ==>
              var xs := Target(parent) + [name];
              && dst.value == ToPath(xs) && Admits(vols, CanonExisting(fs, xs))
              && CanonExisting(fs, xs) in fs' && fs'[CanonExisting(fs, xs)] == Folder
              && !Follow(fs, [], xs, KERNEL_LINKS).Found?
    ensures works && ValidName(name) && DirOk(fs, vols, parent) ==>
              (dst.Some? <==> CanMake(fs, vols, ToPath(Target(parent) + [name])))
  {
    fs' := fs;
    if !ValidName(name) {
      return None, fs';
    }
    var vol := ResolveInVolumes(fs, vols, parent);
    if vol.None? {
      return None, fs';
    }
    NewFolderIsChild(parent, name);
    var path := PathJoin([parent, name]);
    ghost var xs := Target(parent) + [name];
    TargetOfPath(xs);
    vol := ResolveInVolumes(fs, vols, path);
    if vol.None? || Follow(fs, [], Target(path), KERNEL_LINKS).Found? {
      return None, fs';
    }
    var ok;
    ok, fs' := MkdirAll(fs, Target(path), works);
    NewNodes(fs, fs', vols, vol.value, xs);
    dst := if ok then Some(path) else None;
  }

  // ---- Validate --------------------------------------------------------------

  predicate FirstOk(fs: Fs, vols: seq<Volume>, dirs: seq<string>, n: nat) {
    n <= |dirs| && forall j :: 0 <= j < n ==> DirOk(fs, vols, dirs[j])
  }

  lemma {:induction false} FirstOkStep(fs: Fs, vols: seq<Volume>, dirs: seq<string>, n: nat)
    requires n < |dirs|
    ensures FirstOk(fs, vols, dirs, n + 1) <==> FirstOk(fs, vols, dirs, n) && DirOk(fs, vols, dirs[n])
  {
  }

  lemma {:induction false} FirstDir(fs: Fs, vols: seq<Volume>, dirs: seq<string>)
    requires dirs != []
    ensures FirstOk(fs, vols, dirs, |dirs|) ==> dirs[0] != ""
  {
  }

  method CountErrors(fs: Fs, vols: seq<Volume>, dirs: seq<string>) returns (errors: nat)
    requires FsOk(fs) && forall v :: v in vols ==> Rooted(v.mountPoint)
    ensures errors == 0 <==> FirstOk(fs, vols, dirs, |dirs|)
  {
    errors := 0;
    var i := 0;
    ghost var good := true;
    while i < |dirs|
      invariant 0 <= i <= |dirs|
      invariant good == FirstOk(fs, vols, dirs, i)
      invariant errors == 0 <==> good
    {
      var vol := ResolveInVolumes(fs, vols, dirs[i]);
      FirstOkStep(fs, vols, dirs, i);
      good := good && DirOk(fs, vols, dirs[i]);
      if vol.None? {
        errors := errors + 1;
      }
      i := i + 1;
    }
  }

  /** There is no error iff each directory is in a volume and two of them differ as texts. */
  method Validate(fs: Fs, vols: seq<Volume>, temp: string, torfile: string, downloads: string)
    returns (ok: bool, warned: bool)
    requires FsOk(fs) && forall v :: v in vols ==> Rooted(v.mountPoint)
    ensures ok <==> FirstOk(fs, vols, [temp, torfile, downloads], 3) && temp != downloads
    ensures warned <==> torfile != "" && torfile in [temp, downloads]
  {
    var errors := CountErrors(fs, vols, [temp, torfile, downloads]);
    ghost var good := FirstOk(fs, vols, [temp, torfile, downloads], 3);
    FirstDir(fs, vols, [temp, torfile, downloads]);
    if temp != "" && temp == downloads {
      errors := errors + 1;
    }
    warned := torfile != "" && (torfile == temp || torfile == downloads);
    ok := errors == 0;
  }
}
