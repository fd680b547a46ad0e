/**
 * Schema migrations (config.go): the sorted scripts, one transaction each, with failures
 * and crashes at any point. An uncommitted transaction is lost; a commit is atomic.
 */
module Migrations {
  import opened GoStrings
  import opened GoSort

  datatype DirEntry = DirEntry(name: string, isDir: bool)

  datatype Outcome = Success | FailedAt(file: string) | FailedEarly | Crashed

  function Name(s: string): string {
    s
  }

  predicate IsScript(e: DirEntry) {
    !e.isDir && HasSuffix(e.name, ".sql")
  }

  function ScriptNames(es: seq<DirEntry>): seq<string> {
    if es == [] then [] else (if IsScript(es[0]) then [es[0].name] else []) + ScriptNames(es[1..])
  }

  /** The scripts of the directory in the order in which they are applied. */
  function Scripts(es: seq<DirEntry>): seq<string> {
    SortBy(ScriptNames(es), Name)
  }

  predicate NamesDistinct(es: seq<DirEntry>) {
    forall i, j :: 0 <= i < j < |es| ==> es[i].name != es[j].name
  }

  lemma {:induction false} ScriptNamesFrom(es: seq<DirEntry>)
    ensures forall n :: n in ScriptNames(es) <==> exists e :: e in es && IsScript(e) && e.name == n
  {
    if es != [] {
      ScriptNamesFrom(es[1..]);
      assert forall e :: e in es <==> e == es[0] || e in es[1..];
    }
  }

  lemma {:induction false} ScriptNamesDistinct(es: seq<DirEntry>)
    requires NamesDistinct(es)
    ensures Distinct(ScriptNames(es))
  {
    if es != [] {
      var rest := ScriptNames(es[1..]);
      ScriptNamesDistinct(es[1..]);
      ScriptNamesFrom(es[1..]);
      forall j | 0 <= j < |es[1..]|
        ensures es[1..][j].name != es[0].name
      {
        assert es[1..][j] == es[j + 1];
      }
      assert es[0].name !in rest;
      assert [] + rest == rest;
    }
  }

  /** Each script once, in ascending order. */
  lemma {:induction false} ScriptsSorted(es: seq<DirEntry>)
    requires NamesDistinct(es)
    ensures Distinct(Scripts(es)) && Sorted(Scripts(es), Name)
    ensures forall n :: n in Scripts(es) <==> exists e :: e in es && !e.isDir && HasSuffix(e.name, ".sql") && e.name == n
  {
    ScriptNamesDistinct(es);
    ScriptNamesFrom(es);
    SortedDistinct(ScriptNames(es), Name);
    SortedPermutation(ScriptNames(es), Name);
    SortedMembers(ScriptNames(es), Name);
  }

  /** The scripts not recorded yet, in order. */
  function Pending(fs: seq<string>, recorded: set<string>): (r: seq<string>)
    ensures forall f :: f in r <==> f in fs && f !in recorded
  {
    if fs == [] then []
    else Pending(fs[..|fs| - 1], recorded) + if fs[|fs| - 1] in recorded then [] else [fs[|fs| - 1]]
  }

  function Members(fs: seq<string>): set<string> {
    set f | f in fs
  }

  lemma {:induction false} PendingStep(fs: seq<string>, i: nat, recorded: set<string>)
    requires Distinct(fs) && i < |fs|
    ensures fs[i] !in fs[..i]
    ensures Pending(fs[..i + 1], recorded)
         == Pending(fs[..i], recorded) + if fs[i] in recorded then [] else [fs[i]]
    ensures Members(fs[..i + 1]) == Members(fs[..i]) + {fs[i]}
  {
    assert fs[..i + 1] == fs[..i] + [fs[i]];
    assert fs[..i + 1][..i] == fs[..i];
  }

  /** A run over scripts that are all recorded has nothing to do. */
  lemma {:induction false} NothingPending(fs: seq<string>, recorded: set<string>)
    requires forall f :: f in fs ==> f in recorded
    ensures Pending(fs, recorded) == []
  {
    if Pending(fs, recorded) != [] {
      assert Pending(fs, recorded)[0] in Pending(fs, recorded);
      assert false;
    }
  }

  /** The database after the first i scripts have been dealt with. */
  ghost predicate Through(fs: seq<string>, i: nat, recorded: set<string>, committed: seq<string>,
                          recorded': set<string>, committed': seq<string>) {
    && i <= |fs|
    && recorded' == recorded + Members(fs[..i])
    && committed' == committed + Pending(fs[..i], recorded)
  }

  lemma {:induction false} ThroughNext(fs: seq<string>, i: nat, r: set<string>, c: seq<string>, r1: set<string>,
        c1: seq<string>, r2: set<string>, c2: seq<string>)
    requires Distinct(fs) && i < |fs| && Through(fs, i, r, c, r1, c1)
    requires r2 == r1 + {fs[i]} && c2 == c1 + if fs[i] in r1 then [] else [fs[i]]
    ensures Through(fs, i + 1, r, c, r2, c2)
  {
    PendingStep(fs, i, r);
  }

  class Database {
    /** The versions in schema_migrations. */
    var recorded: set<string>
    /** The scripts whose transaction was committed, in order. */
    var committed: seq<string>
    /** How many operations have failed, crashes included. */
    ghost var faults: nat

    ghost predicate Valid()
      reads this
    {
      Distinct(committed) && forall f :: f in recorded <==> f in committed
    }

    constructor ()
      ensures Valid() && committed == []
    {
      recorded, committed, faults := {}, [], 0;
    }

    /** A file or database operation, which may fail. */
    method Try() returns (ok: bool)
      modifies this`faults
      ensures faults == old(faults) + if ok then 0 else 1
    {
      ok := *;
      if !ok {
        faults := faults + 1;
      }
    }

    /** One script in its own transaction: true once committed; otherwise nothing changed. */
    method ApplyScript(f: string) returns (ok: bool, crashed: bool)
      requires Valid()
      modifies this
      ensures Valid() && !(ok && crashed)
      ensures ok ==> f !in old(recorded) && recorded == old(recorded) + {f} && committed == old(committed) + [f]
      ensures !ok ==> recorded == old(recorded) && committed == old(committed)
      ensures faults >= old(faults) && (crashed ==> faults > old(faults))
      ensures faults == old(faults) && f !in old(recorded) ==> ok
    {
      var running := Try();
      if !running {
        return false, true;
      }
      // Reading the file, the transaction and the script in it.
      var done := Try();
      // The primary key refuses a version that is already there.
      if !done || f in recorded {
        return false, false;
      }
      running := Try();
      if !running {
        return false, true;
      }
      var commitOk := Try();
      if !commitOk {
        return false, false;
      }
      recorded, committed := recorded + {f}, committed + [f];
      return true, false;
    }

    /** One turn of the loop; a lookup that fails leaves the count at zero. */
    method Turn(f: string) returns (failed: bool, crashed: bool)
      requires Valid()
      modifies this
      ensures Valid()
      ensures failed ==> recorded == old(recorded) && committed == old(committed)
      ensures !failed ==> recorded == old(recorded) + {f}
      ensures !failed ==> committed == old(committed) + if f in old(recorded) then [] else [f]
      ensures faults >= old(faults) && (faults == old(faults) ==> !failed && !crashed)
    {
      var lookupOk := Try();
      var found := if lookupOk && f in recorded then 1 else 0;
      if found > 0 {
        return false, false;
      }
      var ok;
      ok, crashed := ApplyScript(f);
      failed := !ok;
      if ok {
        var running := Try();
        crashed := !running;
      }
    }

    /**
     * One run: it commits exactly the pending scripts before the point where it stopped,
     * also when the COUNT lookup fails and is taken for zero.
     */
    method Migrate(es: seq<DirEntry>) returns (r: Outcome, ghost k: nat)
      requires Valid() && NamesDistinct(es)
      modifies this
      ensures Valid() && k <= |Scripts(es)|
      ensures Through(Scripts(es), k, old(recorded), old(committed), recorded, committed)
      ensures r == Success ==> k == |Scripts(es)|
      ensures r.FailedAt? ==> k < |Scripts(es)| && r.file == Scripts(es)[k]
      ensures r == FailedEarly ==> k == 0
      ensures faults >= old(faults) && (faults == old(faults) ==> r == Success)
    {
      k := 0;
      ghost var before := recorded;
      var tableOk := Try();
      if !tableOk {
        return FailedEarly, k;
      }
      var dirOk := Try();
      if !dirOk {
        return FailedEarly, k;
      }
      ScriptsSorted(es);
      var files := Scripts(es);
      var i := 0;
      while i < |files|
        invariant 0 <= i <= |files| && k == i && Valid()
        invariant Through(files, i, before, old(committed), recorded, committed)
        invariant faults >= old(faults)
      {
        ghost var r1, c1 := recorded, committed;
        var failed, crashed := Turn(files[i]);
        if failed {
          return (if crashed then Crashed else FailedAt(files[i])), k;
        }
        ThroughNext(files, i, before, old(committed), r1, c1, recorded, committed);
        i := i + 1;
        k := i;
        if crashed {
          return Crashed, k;
        }
      }
      return Success, k;
    }

    /** After a successful run, a second one over the same files changes nothing. */
    method MigrateAgain(es: seq<DirEntry>) returns (r: Outcome)
      requires Valid() && NamesDistinct(es)
      requires forall f :: f in Scripts(es) ==> f in recorded
      modifies this
      ensures Valid() && committed == old(committed) && recorded == old(recorded)
      ensures faults == old(faults) ==> r == Success
    {
      ghost var k;
      r, k := Migrate(es);
      NothingPending(Scripts(es)[..k], old(recorded));
    }

    /** One run of several: what it keeps of the earlier ones. */
    method MigrateNext(es: seq<DirEntry>) returns (r: Outcome)
      requires Valid() && NamesDistinct(es)
      modifies this
      ensures Valid() && old(committed) <= committed && old(recorded) <= recorded
      ensures r == Success ==> Members(Scripts(es)) <= recorded
    {
      ghost var k;
      r, k := Migrate(es);
      if r == Success {
        assert Scripts(es)[..k] == Scripts(es);
      }
    }

    /** Any sequence of runs over any directories: every script is committed at most once. */
    method MigrateOften(dirs: seq<seq<DirEntry>>) returns (rs: seq<Outcome>)
      requires Valid() && forall d :: d in dirs ==> NamesDistinct(d)
      modifies this
      ensures Valid() && |rs| == |dirs| && old(committed) <= committed
      ensures forall i :: 0 <= i < |dirs| && rs[i] == Success ==> Members(Scripts(dirs[i])) <= recorded
    {
      rs := [];
      var i := 0;
      while i < |dirs|
        invariant 0 <= i <= |dirs| && |rs| == i && Valid() && old(committed) <= committed
        invariant forall j :: 0 <= j < i && rs[j] == Success ==> Members(Scripts(dirs[j])) <= recorded
      {
        var r := MigrateNext(dirs[i]);
        rs := rs + [r];
        i := i + 1;
      }
    }
  }
}
