/** The collision-free member inventory of an archive. */
module ArchiveInventory {
  import opened Common
  import opened Sorting

  const MAX_MEMBERS := 4096
  const MAX_FILES := 2048

  /** The parts of a canonical relative path. */
  type Path = p: seq<string> | p != [] witness ["x"]

  /** _member_path: the canonical path a raw member name denotes, if it is one. */
  type PathParser = (string, bool) -> Option<Path>

  datatype Kind = FileKind | DirectoryKind

  datatype RawMember = RawMember(name: string, isDir: bool)

  datatype Entry = Entry(path: Path, isDir: bool)

  datatype InventoryError = TooMany | BadName | Duplicate | Collision | UnnecessaryDirectory

  function FoldChar(c: char): char {
    if 'A' <= c <= 'Z' then ((c as int) - ('A' as int) + ('a' as int)) as char else c
  }

  /** Only the ASCII capitals fold, each to its small letter. */
  lemma FoldExact(c: char)
    ensures 'A' <= c <= 'Z' ==> 'a' <= FoldChar(c) <= 'z' && (FoldChar(c) as int) - (c as int) == 32
    ensures !('A' <= c <= 'Z') ==> FoldChar(c) == c
  {
  }

  /** Two names collide exactly when they differ in the case of ASCII letters alone. */
  lemma KeysEqualIff(p: Path, q: Path)
    ensures Key(p) == Key(q) <==>
            |p| == |q| && forall i :: 0 <= i < |p| ==>
              |p[i]| == |q[i]| && forall k :: 0 <= k < |p[i]| ==> FoldChar(p[i][k]) == FoldChar(q[i][k])
  {
    if Key(p) == Key(q) {
      assert |Key(p)| == |Key(q)|;
      forall i | 0 <= i < |p|
        ensures |p[i]| == |q[i]| && forall k :: 0 <= k < |p[i]| ==> FoldChar(p[i][k]) == FoldChar(q[i][k])
      {
        assert FoldString(p[i]) == Key(p)[i] == Key(q)[i] == FoldString(q[i]);
        assert |FoldString(p[i])| == |p[i]| && |FoldString(q[i])| == |q[i]|;
        forall k | 0 <= k < |p[i]|
          ensures FoldChar(p[i][k]) == FoldChar(q[i][k])
        {
          assert FoldString(p[i])[k] == FoldString(q[i])[k];
        }
      }
    } else if |p| == |q| {
      assert exists i :: 0 <= i < |p| && Key(p)[i] != Key(q)[i];
      var i :| 0 <= i < |p| && Key(p)[i] != Key(q)[i];
      assert FoldString(p[i]) != FoldString(q[i]);
    }
  }

  function FoldString(s: string): string {
    seq(|s|, i requires 0 <= i < |s| => FoldChar(s[i]))
  }

  /** _portable_path_key, kept as its parts; Join renders it. */
  function Key(p: Path): (k: Path)
    ensures |k| == |p|
  {
    seq(|p|, i requires 0 <= i < |p| => FoldString(p[i]))
  }

  function Join(parts: seq<string>): string {
    if parts == [] then "" else if |parts| == 1 then parts[0] else parts[0] + "/" + Join(parts[1..])
  }

  ghost predicate SlashFree(parts: seq<string>) {
    forall i :: 0 <= i < |parts| ==> '/' !in parts[i]
  }

  lemma FirstSlash(a: string, b: string, x: string, y: string)
    requires '/' !in a && '/' !in b && a + "/" + x == b + "/" + y
    ensures a == b && x == y
  {
    var l, r := a + "/" + x, b + "/" + y;
    assert l[|a|] == '/' && r[|b|] == '/';
    assert forall i :: 0 <= i < |a| ==> l[i] == a[i] && a[i] in a;
    assert forall i :: 0 <= i < |b| ==> r[i] == b[i] && b[i] in b;
    assert |a| == |b|;
    assert a == l[..|a|] && b == r[..|b|];
    assert x == l[|a| + 1..] && y == r[|b| + 1..];
  }

  /** The joined rendering identifies the parts, so comparing rendered keys compares part lists. */
  lemma {:induction false} JoinInjective(p: Path, q: Path)
    requires SlashFree(p) && SlashFree(q) && Join(p) == Join(q)
    ensures p == q
  {
    if |p| == 1 && |q| == 1 {
      assert p == [p[0]] && q == [q[0]];
    } else if |p| == 1 {
      SlashInJoin(q);
    } else if |q| == 1 {
      SlashInJoin(p);
    } else {
      FirstSlash(p[0], q[0], Join(p[1..]), Join(q[1..]));
      JoinInjective(p[1..], q[1..]);
      assert p == [p[0]] + p[1..] && q == [q[0]] + q[1..];
    }
  }

  lemma SlashInJoin(p: Path)
    requires |p| > 1
    ensures '/' in Join(p)
  {
    assert Join(p)[|p[0]|] == '/';
  }

  predicate ProperPrefix(a: seq<string>, b: seq<string>) {
    |a| < |b| && b[..|a|] == a
  }

  // ----- the specification

  /** Pairwise distinct portable keys, and no file standing where another member needs a directory. */
  ghost predicate NoCollision(es: seq<Entry>) {
    && (forall i, j :: 0 <= i < j < |es| ==> Key(es[i].path) != Key(es[j].path))
    && (forall x, y :: x in es && y in es && !x.isDir ==> !ProperPrefix(Key(x.path), Key(y.path)))
  }

  ghost predicate Parses(raw: seq<RawMember>, es: seq<Entry>, parse: PathParser) {
    && |es| == |raw|
    && forall i :: 0 <= i < |raw| ==> es[i].isDir == raw[i].isDir && parse(raw[i].name, raw[i].isDir) == Some(es[i].path)
  }

  function FileCount(raw: seq<RawMember>): nat {
    if raw == [] then 0 else (if raw[0].isDir then 0 else 1) + FileCount(raw[1..])
  }

  /** The number of members that are no directories. */
  lemma FileCountIs(raw: seq<RawMember>)
    ensures FileCount(raw) == |set i: nat | i < |raw| && !raw[i].isDir|
  {
    var files := set i: nat | i < |raw| && !raw[i].isDir;
    if raw == [] {
      assert files == {};
    } else {
      var n := |raw| - 1;
      FileCountIs(raw[..n]);
      FileCountWithout(raw, n);
      assert Without(raw, n) == raw[..n];
      var rest := set i: nat | i < |raw[..n]| && !raw[..n][i].isDir;
      assert files == if raw[n].isDir then rest else rest + {n};
    }
  }

  predicate CountsOk(raw: seq<RawMember>) {
    1 <= |raw| <= MAX_MEMBERS && 1 <= FileCount(raw) <= MAX_FILES
  }

  lemma CountsAre(raw: seq<RawMember>)
    ensures CountsOk(raw) <==> 1 <= |raw| <= 4096 && 1 <= FileCount(raw) <= 2048
  {
  }

  ghost predicate Acceptable(raw: seq<RawMember>, es: seq<Entry>, parse: PathParser) {
    1 <= |raw| <= 4096 && 1 <= FileCount(raw) <= 2048 && Parses(raw, es, parse) && NoCollision(es)
  }

  /** Every explicit directory is an ancestor of some file. */
  ghost predicate DirectoriesNeeded(es: seq<Entry>) {
    forall x :: x in es && x.isDir ==> exists y :: y in es && !y.isDir && ProperPrefix(Key(x.path), Key(y.path))
  }

  // ----- the incremental check

  type Kinds = map<Path, Kind>

  function KindOf(e: Entry): Kind {
    if e.isDir then DirectoryKind else FileKind
  }

  /** The two collections are exactly those of the members registered so far. */
  ghost predicate Mirrors(kinds: Kinds, required: set<Path>, es: seq<Entry>) {
    && (forall k: Path :: k in kinds ==> exists x :: x in es && Key(x.path) == k)
    && (forall x :: x in es ==> Key(x.path) in kinds && kinds[Key(x.path)] == KindOf(x))
    && (forall k: Path :: k in required <==> exists x :: x in es && ProperPrefix(k, Key(x.path)))
    && NoCollision(es)
  }

  predicate FileAt(kinds: Kinds, k: Path) {
    k in kinds && kinds[k] == FileKind
  }

  class Inventory {
    var kinds: Kinds
    var required: set<Path>

    ghost predicate Holds(es: seq<Entry>)
      reads this
    {
      Mirrors(kinds, required, es)
    }

    constructor ()
      ensures Holds([]) && NoCollision([])
    {
      kinds, required := map[], {};
    }

    /** _register_canonical_member after the name has been parsed. */
    method Register(e: Entry, ghost es: seq<Entry>) returns (r: Result<(), InventoryError>)
      requires Holds(es)
      modifies this
      ensures r.Ok? <==> NoCollision(es + [e])
      ensures r.Ok? ==> Holds(es + [e])
    {
      hide Mirrors, NoCollision, Key, KindOf;
      var key := Key(e.path);
      if key in kinds {
        DuplicateCollides(kinds, required, es, e);
        return Err(Duplicate);
      }
      if !e.isDir && key in required {
        DirectoryCollides(kinds, required, es, e);
        return Err(Collision);
      }
      ghost var before := required;
      var n := |key| - 1;
      while n > 0
        invariant 0 <= n < |key|
        invariant kinds == old(kinds)
        invariant forall k: Path :: k in required <==> k in before || (ProperPrefix(k, key) && |k| > n)
        invariant forall m :: n < m < |key| ==> !FileAt(kinds, key[..m])
      {
        var parent: Path := key[..n];
        if FileAt(kinds, parent) {
          FileCollides(kinds, before, es, e, n);
          return Err(Collision);
        }
        required := required + {parent};
        assert forall k: Path :: ProperPrefix(k, key) && |k| == n ==> k == parent;
        n := n - 1;
      }
      assert forall k: Path :: ProperPrefix(k, key) ==> |k| > 0;
      Registered(es, e, kinds, before, required);
      kinds := kinds[key := KindOf(e)];
      r := Ok(());
    }
  }

  lemma DuplicateCollides(kinds: Kinds, required: set<Path>, es: seq<Entry>, e: Entry)
    requires Mirrors(kinds, required, es) && Key(e.path) in kinds
    ensures !NoCollision(es + [e])
  {
    hide Key;
    var all := es + [e];
    var x :| x in es && Key(x.path) == Key(e.path);
    var i :| 0 <= i < |es| && es[i] == x;
    assert all[i] == x && all[|es|] == e;
  }

  lemma DirectoryCollides(kinds: Kinds, required: set<Path>, es: seq<Entry>, e: Entry)
    requires Mirrors(kinds, required, es) && Key(e.path) in required && !e.isDir
    ensures !NoCollision(es + [e])
  {
    hide Key, ProperPrefix;
    var x :| x in es && ProperPrefix(Key(e.path), Key(x.path));
    assert x in es + [e] && e in es + [e];
  }

  lemma FileCollides(kinds: Kinds, required: set<Path>, es: seq<Entry>, e: Entry, n: nat)
    requires Mirrors(kinds, required, es) && 0 < n < |Key(e.path)| && FileAt(kinds, Key(e.path)[..n])
    ensures !NoCollision(es + [e])
  {
    hide Key;
    var x :| x in es && Key(x.path) == Key(e.path)[..n];
    assert x in es + [e] && e in es + [e];
    assert ProperPrefix(Key(x.path), Key(e.path));
  }

  lemma Registered(es: seq<Entry>, e: Entry, kinds: Kinds, before: set<Path>, required: set<Path>)
    requires Mirrors(kinds, before, es)
    requires Key(e.path) !in kinds && (!e.isDir ==> Key(e.path) !in before)
    requires forall k: Path :: k in required <==> k in before || ProperPrefix(k, Key(e.path))
    requires forall m :: 0 < m < |Key(e.path)| ==> !FileAt(kinds, Key(e.path)[..m])
    ensures Mirrors(kinds[Key(e.path) := KindOf(e)], required, es + [e])
    ensures NoCollision(es + [e])
  {
    hide Key, ProperPrefix;
    var all := es + [e];
    assert forall x :: x in all <==> x in es || x == e;
    StillClear(es, e, kinds, before);
    forall k: Path | k in required
      ensures exists x :: x in all && ProperPrefix(k, Key(x.path))
    {
      if k in before {
        var x :| x in es && ProperPrefix(k, Key(x.path));
        assert x in all;
      } else {
        assert e in all;
      }
    }
    forall k: Path | exists x :: x in all && ProperPrefix(k, Key(x.path))
      ensures k in required
    {
      var x :| x in all && ProperPrefix(k, Key(x.path));
    }
    forall x | x in es
      ensures Key(x.path) != Key(e.path)
    {
    }
  }

  lemma StillClear(es: seq<Entry>, e: Entry, kinds: Kinds, before: set<Path>)
    requires Mirrors(kinds, before, es)
    requires Key(e.path) !in kinds && (!e.isDir ==> Key(e.path) !in before)
    requires forall m :: 0 < m < |Key(e.path)| ==> !FileAt(kinds, Key(e.path)[..m])
    ensures NoCollision(es + [e])
  {
    hide Key;
    var all := es + [e];
    forall x, y | x in all && y in all && !x.isDir
      ensures !ProperPrefix(Key(x.path), Key(y.path))
    {
      if x == e {
        assert y in es ==> Key(e.path) !in before;
      } else if y == e {
        if |Key(x.path)| < |Key(e.path)| {
          assert !FileAt(kinds, Key(e.path)[..|Key(x.path)|]);
        }
      }
    }
  }

  method CanonicalInventory(raw: seq<RawMember>, parse: PathParser) returns (r: Result<seq<Entry>, InventoryError>)
    ensures r.Ok? ==> Acceptable(raw, r.value, parse)
    ensures r.Err? ==> !exists es :: Acceptable(raw, es, parse)
  {
    CountsAre(raw);
    hide NoCollision, Mirrors, CountsOk;
    if !CountsOk(raw) {
      return Err(TooMany);
    }
    var inventory := new Inventory();
    var parsed: seq<Entry> := [];
    var i := 0;
    while i < |raw|
      invariant i <= |raw| && |parsed| == i && fresh(inventory)
      invariant inventory.Holds(parsed) && NoCollision(parsed)
      invariant forall k :: 0 <= k < i ==> parsed[k].isDir == raw[k].isDir && parse(raw[k].name, raw[k].isDir) == Some(parsed[k].path)
    {
      var path := parse(raw[i].name, raw[i].isDir);
      if path.None? {
        return Err(BadName);
      }
      var e := Entry(path.value, raw[i].isDir);
      var registered := inventory.Register(e, parsed);
      if registered.Err? {
        forall es | Parses(raw, es, parse)
          ensures !NoCollision(es)
        {
          ParsedPrefix(raw, es, parse, parsed + [e]);
        }
        return Err(registered.error);
      }
      parsed := parsed + [e];
      i := i + 1;
    }
    r := Ok(parsed);
  }

  /** A collision among the first members is a collision of the whole list. */
  lemma ParsedPrefix(raw: seq<RawMember>, es: seq<Entry>, parse: PathParser, some: seq<Entry>)
    requires Parses(raw, es, parse) && |some| <= |raw| && !NoCollision(some)
    requires forall k :: 0 <= k < |some| ==>
               some[k].isDir == raw[k].isDir && parse(raw[k].name, raw[k].isDir) == Some(some[k].path)
    ensures !NoCollision(es)
  {
    hide Key, ProperPrefix;
    assert forall k :: 0 <= k < |some| ==> some[k] == es[k];
    if forall i, j :: 0 <= i < j < |some| ==> Key(some[i].path) != Key(some[j].path) {
      var x, y :| x in some && y in some && !x.isDir && ProperPrefix(Key(x.path), Key(y.path));
      assert x in es && y in es;
    } else {
      var i, j :| 0 <= i < j < |some| && Key(some[i].path) == Key(some[j].path);
      assert Key(es[i].path) == Key(es[j].path);
    }
  }

  // ----- order independence

  lemma CollisionTransfers(a: seq<Entry>, b: seq<Entry>)
    requires multiset(a) == multiset(b) && !NoCollision(b)
    ensures !NoCollision(a)
  {
    hide Key, ProperPrefix;
    if forall i, j :: 0 <= i < j < |b| ==> Key(b[i].path) != Key(b[j].path) {
      var x, y :| x in b && y in b && !x.isDir && ProperPrefix(Key(x.path), Key(y.path));
      assert x in multiset(b) && y in multiset(b);
      assert x in a && y in a;
    } else {
      var i, j :| 0 <= i < j < |b| && Key(b[i].path) == Key(b[j].path);
      var k, l := PairTransfers(a, b, i, j);
      assert k < l || l < k;
      assert Key(a[k].path) == Key(a[l].path);
    }
  }

  /** Although the check is incremental, acceptance does not depend on the member order. */
  lemma OrderIrrelevant(a: seq<Entry>, b: seq<Entry>)
    requires multiset(a) == multiset(b)
    ensures NoCollision(a) <==> NoCollision(b)
    ensures DirectoriesNeeded(a) <==> DirectoriesNeeded(b)
  {
    hide NoCollision, Key, ProperPrefix;
    if !NoCollision(a) {
      CollisionTransfers(b, a);
    }
    if !NoCollision(b) {
      CollisionTransfers(a, b);
    }
    assert forall x :: x in a <==> x in multiset(a);
    assert forall x :: x in b <==> x in multiset(b);
  }

  lemma FileCountWithout(raw: seq<RawMember>, i: nat)
    requires i < |raw|
    ensures FileCount(raw) == FileCount(Without(raw, i)) + if raw[i].isDir then 0 else 1
  {
    hide Without;
    var rest, tail := Without(raw, i), raw[1..];
    if i == 0 {
      assert rest == tail by { WithoutFirst(raw); }
    } else {
      FileCountWithout(tail, i - 1);
      WithoutLater(raw, i);
    }
  }

  lemma {:induction false} FileCountPermuted(a: seq<RawMember>, b: seq<RawMember>)
    requires multiset(a) == multiset(b)
    ensures |a| == |b| && FileCount(a) == FileCount(b)
  {
    hide Without;
    assert |a| == |multiset(a)| == |multiset(b)| == |b|;
    if a != [] {
      var i := FirstElsewhere(a, b);
      FileCountWithout(b, i);
      FileCountPermuted(a[1..], Without(b, i));
    }
  }

  lemma ParsesWithout(a: seq<RawMember>, es: seq<Entry>, parse: PathParser, i: nat)
    requires Parses(a, es, parse) && i < |a|
    ensures Parses(Without(a, i), Without(es, i), parse)
  {
  }

  /** The entries of a permuted list are those of the list, permuted alike. */
  lemma {:induction false} ParsesPermuted(a: seq<RawMember>, b: seq<RawMember>, es: seq<Entry>, parse: PathParser)
      returns (fs: seq<Entry>)
    requires multiset(a) == multiset(b) && Parses(a, es, parse)
    ensures Parses(b, fs, parse) && multiset(fs) == multiset(es)
    decreases |b|
  {
    hide Without;
    assert |a| == |multiset(a)| == |multiset(b)| == |b|;
    fs := es;
    if b != [] {
      var i := FirstElsewhere(b, a);
      ParsesWithout(a, es, parse, i);
      WithoutCounts(es, i);
      var rest := ParsesPermuted(Without(a, i), b[1..], Without(es, i), parse);
      fs := [es[i]] + rest;
    }
  }

  /** Whether an archive is accepted, and which entries it has, depends on its members and not on their order. */
  lemma AcceptancePermuted(a: seq<RawMember>, b: seq<RawMember>, es: seq<Entry>, parse: PathParser)
      returns (fs: seq<Entry>)
    requires multiset(a) == multiset(b) && Acceptable(a, es, parse)
    ensures Acceptable(b, fs, parse) && multiset(fs) == multiset(es)
    ensures DirectoriesNeeded(fs) <==> DirectoriesNeeded(es)
  {
    hide NoCollision, DirectoriesNeeded, Parses;
    FileCountPermuted(a, b);
    fs := ParsesPermuted(a, b, es, parse);
    OrderIrrelevant(es, fs);
  }

  // ----- explicit directories

  ghost predicate NeededBy(es: seq<Entry>, i: nat, k: Path)
    requires i <= |es|
  {
    exists j :: 0 <= j < i && !es[j].isDir && ProperPrefix(k, Key(es[j].path))
  }

  ghost predicate DeclaredBy(es: seq<Entry>, i: nat, k: Path)
    requires i <= |es|
  {
    exists j :: 0 <= j < i && es[j].isDir && Key(es[j].path) == k
  }

  lemma NothingYet(es: seq<Entry>)
    ensures forall k: Path :: !NeededBy(es, 0, k) && !DeclaredBy(es, 0, k)
  {
  }

  lemma OneMoreEntry(es: seq<Entry>, i: nat)
    requires i < |es|
    ensures forall k: Path :: NeededBy(es, i + 1, k) <==> NeededBy(es, i, k) || (!es[i].isDir && ProperPrefix(k, Key(es[i].path)))
    ensures forall k: Path :: DeclaredBy(es, i + 1, k) <==> DeclaredBy(es, i, k) || (es[i].isDir && Key(es[i].path) == k)
  {
    hide Key, ProperPrefix;
    forall k: Path
      ensures NeededBy(es, i + 1, k) <==> NeededBy(es, i, k) || (!es[i].isDir && ProperPrefix(k, Key(es[i].path)))
      ensures DeclaredBy(es, i + 1, k) <==> DeclaredBy(es, i, k) || (es[i].isDir && Key(es[i].path) == k)
    {
      if !es[i].isDir && ProperPrefix(k, Key(es[i].path)) {
        assert NeededBy(es, i + 1, k);
      }
      if NeededBy(es, i, k) {
        var j :| 0 <= j < i && !es[j].isDir && ProperPrefix(k, Key(es[j].path));
        assert NeededBy(es, i + 1, k);
      }
      if NeededBy(es, i + 1, k) {
        var j :| 0 <= j < i + 1 && !es[j].isDir && ProperPrefix(k, Key(es[j].path));
        assert j < i ==> NeededBy(es, i, k);
      }
    }
  }

  method RejectUnnecessaryDirectories(es: seq<Entry>) returns (r: Result<(), InventoryError>)
    ensures r.Ok? <==> DirectoriesNeeded(es)
  {
    hide Key, NeededBy, DeclaredBy;
    NothingYet(es);
    var required: set<Path> := {};
    var declared: set<Path> := {};
    var i := 0;
    while i < |es|
      invariant i <= |es|
      invariant forall k: Path :: k in declared <==> DeclaredBy(es, i, k)
      invariant forall k: Path :: k in required <==> NeededBy(es, i, k)
    {
      OneMoreEntry(es, i);
      if es[i].isDir {
        declared := declared + {Key(es[i].path)};
      } else {
        var key := Key(es[i].path);
        ghost var before := required;
        var n := |key| - 1;
        while n > 0
          invariant 0 <= n < |key|
          invariant forall k: Path :: k in required <==> k in before || (ProperPrefix(k, key) && |k| > n)
        {
          var parent: Path := key[..n];
          required := required + {parent};
          assert forall k: Path :: ProperPrefix(k, key) && |k| == n ==> k == parent;
          n := n - 1;
        }
        assert forall k: Path :: ProperPrefix(k, key) ==> |k| > 0;
      }
      i := i + 1;
    }
    DeclaredRequired(es, declared, required);
    if !(declared <= required) {
      return Err(UnnecessaryDirectory);
    }
    r := Ok(());
  }

  lemma DeclaredRequired(es: seq<Entry>, declared: set<Path>, required: set<Path>)
    requires forall k: Path :: k in declared <==> DeclaredBy(es, |es|, k)
    requires forall k: Path :: k in required <==> NeededBy(es, |es|, k)
    ensures declared <= required <==> DirectoriesNeeded(es)
  {
    hide Key, ProperPrefix;
    if declared <= required {
      forall x | x in es && x.isDir
        ensures exists y :: y in es && !y.isDir && ProperPrefix(Key(x.path), Key(y.path))
      {
        var i :| 0 <= i < |es| && es[i] == x;
        assert Key(x.path) in declared;
        var j :| 0 <= j < |es| && !es[j].isDir && ProperPrefix(Key(x.path), Key(es[j].path));
        assert es[j] in es;
      }
    }
    if DirectoriesNeeded(es) {
      forall k: Path | k in declared
        ensures k in required
      {
        var i :| 0 <= i < |es| && es[i].isDir && Key(es[i].path) == k;
        assert es[i] in es;
        var y :| y in es && !y.isDir && ProperPrefix(k, Key(y.path));
        var j :| 0 <= j < |es| && es[j] == y;
      }
    }
  }
}
