/** Option and Result carriers shared by every model. */
module Common {

  datatype Option<+T> = None | Some(value: T)

  datatype Result<+T, +E> = Ok(value: T) | Err(error: E)

  function Min(a: int, b: int): int {
    if a <= b then a else b
  }

  function Max(a: int, b: int): int {
    if a >= b then a else b
  }

  /** Pairwise distinct elements. */
  ghost predicate Distinct<T>(s: seq<T>) {
    forall i, j :: 0 <= i < j < |s| ==> s[i] != s[j]
  }
}

/** Order on Python strings (by code point) and the decimal renderings used for keys and sizes. */
module Text {

  predicate StrLe(a: string, b: string) {
    if a == [] then true
    else if b == [] then false
    else if a[0] != b[0] then a[0] < b[0]
    else StrLe(a[1..], b[1..])
  }

  lemma {:induction false} StrLeTotal(a: string, b: string)
    ensures StrLe(a, b) || StrLe(b, a)
    ensures StrLe(a, b) && StrLe(b, a) ==> a == b
  {
    if a != [] && b != [] && a[0] == b[0] {
      StrLeTotal(a[1..], b[1..]);
      assert a == [a[0]] + a[1..] && b == [b[0]] + b[1..];
    }
  }

  lemma {:induction false} StrLeTransitive(a: string, b: string, c: string)
    requires StrLe(a, b) && StrLe(b, c)
    ensures StrLe(a, c)
  {
    if a != [] && b != [] && c != [] && a[0] == b[0] && b[0] == c[0] {
      StrLeTransitive(a[1..], b[1..], c[1..]);
    }
  }

  /** The strings agree before i and differ there, a having the smaller character. */
  ghost predicate LowerAt(a: string, b: string, i: nat) {
    i < |a| && i < |b| && a[..i] == b[..i] && a[i] < b[i]
  }

  lemma LowerShifted(a: string, b: string, i: nat)
    requires a != [] && b != [] && a[0] == b[0]
    ensures LowerAt(a[1..], b[1..], i) <==> LowerAt(a, b, i + 1)
  {
    if i < |a| - 1 && i < |b| - 1 {
      assert a[..i + 1] == [a[0]] + a[1..][..i] && b[..i + 1] == [b[0]] + b[1..][..i];
      assert a[1..][..i] == a[..i + 1][1..] && b[1..][..i] == b[..i + 1][1..];
    }
  }

  lemma PrefixShifted(a: string, b: string)
    requires a != [] && b != [] && a[0] == b[0]
    ensures a <= b <==> a[1..] <= b[1..]
  {
    assert a == [a[0]] + a[1..] && b == [b[0]] + b[1..];
  }

  lemma HeadsDiffer(a: string, b: string)
    requires a != [] && b != [] && a[0] != b[0]
    ensures !(a <= b) && (LowerAt(a, b, 0) <==> a[0] < b[0])
    ensures forall i: nat :: i > 0 ==> !LowerAt(a, b, i)
  {
    forall i: nat | 0 < i < |a| && i < |b|
      ensures a[..i] != b[..i]
    {
      assert a[..i][0] == a[0] && b[..i][0] == b[0];
    }
  }

  /** String order: a prefix comes first, otherwise the first character that differs decides by its code. */
  lemma {:induction false} StrLeIff(a: string, b: string)
    ensures StrLe(a, b) <==> a <= b || exists i: nat :: LowerAt(a, b, i)
  {
    hide LowerAt;
    if a == [] || b == [] {
      NothingLower(a, b);
    } else if a[0] == b[0] {
      StrLeIff(a[1..], b[1..]);
      PrefixShifted(a, b);
      NotLowerFirst(a, b);
      if i: nat :| LowerAt(a[1..], b[1..], i) {
        LowerShifted(a, b, i);
      }
      if i: nat :| LowerAt(a, b, i) {
        LowerShifted(a, b, i - 1);
      }
    } else {
      HeadsDiffer(a, b);
    }
  }

  lemma NotLowerFirst(a: string, b: string)
    requires a != [] && b != [] && a[0] == b[0]
    ensures !LowerAt(a, b, 0)
  {
  }

  lemma NothingLower(a: string, b: string)
    requires a == [] || b == []
    ensures forall i: nat :: !LowerAt(a, b, i)
    ensures a <= b <==> a == []
  {
  }

  function Digit(n: nat): (c: char)
    requires n < 10
  {
    ['0', '1', '2', '3', '4', '5', '6', '7', '8', '9'][n]
  }

  predicate IsDigit(c: char) {
    '0' <= c <= '9'
  }

  /** Canonical decimal rendering of a natural number: str(n). */
  function Decimal(n: nat): (s: string)
    ensures s != [] && forall c :: c in s ==> IsDigit(c)
    ensures s[0] == '0' <==> n == 0
    ensures n == 0 ==> s == "0"
  {
    if n < 10 then [Digit(n)] else Decimal(n / 10) + [Digit(n % 10)]
  }

  function DigitValue(c: char): (n: nat)
    requires IsDigit(c)
    ensures n < 10 && Digit(n) == c
  {
    (c as int) - ('0' as int)
  }

  /** int(text) for a nonempty digit string. */
  function ParseDecimal(s: string): nat
    requires forall c :: c in s ==> IsDigit(c)
  {
    if s == [] then 0 else 10 * ParseDecimal(s[..|s| - 1]) + DigitValue(s[|s| - 1])
  }

  lemma {:induction false} ParseInvertsDecimal(n: nat)
    ensures ParseDecimal(Decimal(n)) == n
  {
    var s := Decimal(n);
    if n < 10 {
      assert s[..|s| - 1] == [];
    } else {
      ParseInvertsDecimal(n / 10);
      assert s[..|s| - 1] == Decimal(n / 10);
    }
  }

  /** The regular expression 0|[1-9][0-9]* matches exactly the canonical renderings. */
  predicate CanonicalDecimal(s: string) {
    s != [] && (forall c :: c in s ==> IsDigit(c)) && (s[0] == '0' ==> |s| == 1)
  }

  lemma {:induction false} DecimalInvertsParse(s: string)
    requires CanonicalDecimal(s)
    ensures Decimal(ParseDecimal(s)) == s
  {
    var init := s[..|s| - 1];
    if init == [] {
      assert s == [s[0]];
    } else {
      assert forall c :: c in init ==> c in s;
      assert init[0] == s[0];
      DecimalInvertsParse(init);
      var n := ParseDecimal(init);
      assert Decimal(n)[0] != '0' ;
      assert ParseDecimal(s) / 10 == n && ParseDecimal(s) % 10 == DigitValue(s[|s| - 1]);
      assert s == init + [s[|s| - 1]];
    }
  }

  lemma DecimalInjective(a: nat, b: nat)
    requires Decimal(a) == Decimal(b)
    ensures a == b
  {
    ParseInvertsDecimal(a);
    ParseInvertsDecimal(b);
  }
}

/** Stable sorting by a key order, with uniqueness of the result up to equal elements. */
module Sorting {

  ghost predicate TotalOn<T(!new)>(le: (T, T) -> bool) {
    && (forall x, y :: le(x, y) || le(y, x))
    && (forall x, y, z :: le(x, y) && le(y, z) ==> le(x, z))
  }

  ghost predicate SortedBy<T(!new)>(le: (T, T) -> bool, s: seq<T>) {
    forall i, j :: 0 <= i < j < |s| ==> le(s[i], s[j])
  }

  function Insert<T>(le: (T, T) -> bool, x: T, s: seq<T>): (r: seq<T>)
    ensures |r| == |s| + 1
    ensures multiset(r) == multiset(s) + multiset{x}
  {
    if s == [] then [x]
    else if le(x, s[0]) then
      assert [x] + s == [x] + s;
      [x] + s
    else
      assert s == [s[0]] + s[1..];
      [s[0]] + Insert(le, x, s[1..])
  }

  function SortBy<T>(le: (T, T) -> bool, s: seq<T>): (r: seq<T>)
    ensures |r| == |s|
    ensures multiset(r) == multiset(s)
  {
    if s == [] then []
    else
      assert s == [s[0]] + s[1..];
      Insert(le, s[0], SortBy(le, s[1..]))
  }

  lemma {:induction false} InsertSorted<T(!new)>(le: (T, T) -> bool, x: T, s: seq<T>)
    requires TotalOn(le) && SortedBy(le, s)
    ensures SortedBy(le, Insert(le, x, s))
  {
    if s != [] && !le(x, s[0]) {
      InsertSorted(le, x, s[1..]);
      var t := Insert(le, x, s[1..]);
      forall j | 0 <= j < |t|
        ensures le(s[0], t[j])
      {
        assert t[j] in multiset(t);
        assert t[j] == x || t[j] in multiset(s[1..]);
        if t[j] != x {
          assert t[j] in s[1..];
          var k :| 0 <= k < |s[1..]| && s[1..][k] == t[j];
          assert s[k + 1] == t[j];
        }
      }
    }
  }

  lemma {:induction false} SortBySorted<T(!new)>(le: (T, T) -> bool, s: seq<T>)
    requires TotalOn(le)
    ensures SortedBy(le, SortBy(le, s))
  {
    if s != [] {
      SortBySorted(le, s[1..]);
      InsertSorted(le, s[0], SortBy(le, s[1..]));
    }
  }

  /** Key order that separates the elements of s: equal keys only for equal elements. */
  ghost predicate Separates<T(!new)>(le: (T, T) -> bool, s: multiset<T>) {
    forall x, y :: x in s && y in s && le(x, y) && le(y, x) ==> x == y
  }

  lemma SameFirst<T(!new)>(le: (T, T) -> bool, a: seq<T>, b: seq<T>, i: nat, j: nat)
    requires SortedBy(le, a) && SortedBy(le, b)
    requires multiset(a) == multiset(b)
    requires Separates(le, multiset(a))
    requires i < |b| && j < |a| && b[i] == a[0] && a[j] == b[0]
    ensures a[0] == b[0]
  {
    if i != 0 && j != 0 {
      assert le(a[0], a[j]) && le(b[0], b[i]);
      assert a[0] in multiset(a) && a[j] in multiset(a);
    }
  }

  lemma {:induction false} SortedUnique<T(!new)>(le: (T, T) -> bool, a: seq<T>, b: seq<T>)
    requires SortedBy(le, a) && SortedBy(le, b)
    requires multiset(a) == multiset(b)
    requires Separates(le, multiset(a))
    ensures a == b
    decreases |a|, 1
  {
    assert |a| == |multiset(a)| == |multiset(b)| == |b|;
    if a != [] {
      assert a[0] in multiset(b) by { assert a[0] in multiset(a); }
      assert b[0] in multiset(a) by { assert b[0] in multiset(b); }
      var i :| 0 <= i < |b| && b[i] == a[0];
      var j :| 0 <= j < |a| && a[j] == b[0];
      SameFirst(le, a, b, i, j);
      SortedUniqueTail(le, a, b);
    }
  }

  lemma {:induction false} SortedUniqueTail<T(!new)>(le: (T, T) -> bool, a: seq<T>, b: seq<T>)
    requires SortedBy(le, a) && SortedBy(le, b)
    requires multiset(a) == multiset(b)
    requires Separates(le, multiset(a))
    requires |a| == |b| > 0 && a[0] == b[0]
    ensures a == b
    decreases |a|, 0
  {
    var a', b' := a[1..], b[1..];
    TailOf(a);
    TailOf(b);
    assert SortedBy(le, a') && SortedBy(le, b');
    assert Separates(le, multiset(a')) by {
      SubSeparates(le, multiset(a'), multiset(a));
    }
    SortedUnique(le, a', b');
  }

  lemma TailOf<T>(s: seq<T>)
    requires s != []
    ensures s == [s[0]] + s[1..]
    ensures multiset(s[1..]) == multiset(s) - multiset{s[0]}
    ensures multiset(s[1..]) <= multiset(s)
  {
    assert s == [s[0]] + s[1..];
  }

  lemma SubSeparates<T(!new)>(le: (T, T) -> bool, s: multiset<T>, t: multiset<T>)
    requires s <= t && Separates(le, t)
    ensures Separates(le, s)
  {
  }

  /** Sorting is determined by the multiset of elements when the key separates them. */
  lemma SortByPermutation<T(!new)>(le: (T, T) -> bool, a: seq<T>, b: seq<T>)
    requires TotalOn(le)
    requires multiset(a) == multiset(b)
    requires Separates(le, multiset(a))
    ensures SortBy(le, a) == SortBy(le, b)
  {
    SortBySorted(le, a);
    SortBySorted(le, b);
    SortedUnique(le, SortBy(le, a), SortBy(le, b));
  }

  /** A sorted sequence is left as it is, duplicates of a key included. */
  lemma {:induction false} SortBySortedId<T(!new)>(le: (T, T) -> bool, s: seq<T>)
    requires SortedBy(le, s)
    ensures SortBy(le, s) == s
  {
    if s != [] {
      SortBySortedId(le, s[1..]);
      if |s| > 1 {
        assert le(s[0], s[1]);
        assert s[1..][0] == s[1];
      }
      assert s == [s[0]] + s[1..];
    }
  }

  // ----- unique keys

  /** frame.duplicated(key).any() is false. */
  predicate UniqueBy<T, K(==)>(key: T -> K, s: seq<T>) {
    forall i, j :: 0 <= i < j < |s| ==> key(s[i]) != key(s[j])
  }

  /** No element twice, and one element per key: UniqueBy without an order. */
  ghost predicate Keyed<T(!new), K>(key: T -> K, m: multiset<T>) {
    (forall x :: m[x] <= 1) && (forall x, y :: x in m && y in m && key(x) == key(y) ==> x == y)
  }

  lemma {:induction false} Occurrences<T(!new)>(s: seq<T>, x: T) returns (i: nat, j: nat)
    requires multiset(s)[x] >= 2
    ensures i < j < |s| && s[i] == x == s[j]
  {
    assert s == [s[0]] + s[1..];
    if s[0] == x {
      assert x in multiset(s[1..]);
      var k :| 0 <= k < |s[1..]| && s[1..][k] == x;
      i, j := 0, k + 1;
    } else {
      i, j := Occurrences(s[1..], x);
      i, j := i + 1, j + 1;
    }
  }

  lemma TwiceAt<T(!new)>(s: seq<T>, i: nat, j: nat)
    requires i < j < |s|
    ensures s[i] == s[j] ==> multiset(s)[s[i]] >= 2
  {
    assert s == s[..j] + [s[j]] + s[j + 1..];
    assert s[i] == s[..j][i] && s[i] in multiset(s[..j]);
  }

  /** Two places of a sequence have counterparts, two places again, in every permutation of it. */
  lemma PairTransfers<T(!new)>(a: seq<T>, b: seq<T>, i: nat, j: nat) returns (k: nat, l: nat)
    requires multiset(a) == multiset(b) && i < j < |b|
    ensures k < |a| && l < |a| && k != l && a[k] == b[i] && a[l] == b[j]
  {
    if b[i] == b[j] {
      TwiceAt(b, i, j);
      k, l := Occurrences(a, b[i]);
    } else {
      assert b[i] in multiset(b) && b[j] in multiset(b);
      k :| 0 <= k < |a| && a[k] == b[i];
      l :| 0 <= l < |a| && a[l] == b[j];
    }
  }

  /** The duplicate check depends only on which elements there are, not on their order. */
  lemma UniqueByIff<T(!new), K>(key: T -> K, s: seq<T>)
    ensures UniqueBy(key, s) <==> Keyed(key, multiset(s))
  {
    if UniqueBy(key, s) {
      forall x
        ensures multiset(s)[x] <= 1
      {
        if multiset(s)[x] >= 2 {
          var i, j := Occurrences(s, x);
        }
      }
      forall x, y | x in multiset(s) && y in multiset(s) && key(x) == key(y)
        ensures x == y
      {
        var i :| 0 <= i < |s| && s[i] == x;
        var j :| 0 <= j < |s| && s[j] == y;
      }
    }
    if Keyed(key, multiset(s)) {
      forall i, j | 0 <= i < j < |s| && key(s[i]) == key(s[j])
        ensures false
      {
        assert s[i] in multiset(s) && s[j] in multiset(s);
        TwiceAt(s, i, j);
      }
    }
  }

  lemma SameMembers<T(!new)>(a: seq<T>, b: seq<T>)
    requires multiset(a) == multiset(b)
    ensures forall r :: r in a <==> r in b
  {
    forall r
      ensures r in a <==> r in b
    {
      assert r in a <==> r in multiset(a);
      assert r in b <==> r in multiset(b);
    }
  }

  // ----- taking one element out

  function Without<T>(s: seq<T>, i: nat): seq<T>
    requires i < |s|
  {
    s[..i] + s[i + 1..]
  }

  lemma WithoutCounts<T>(s: seq<T>, i: nat)
    requires i < |s|
    ensures |Without(s, i)| == |s| - 1 && multiset(Without(s, i)) == multiset(s) - multiset{s[i]}
    ensures s[i] in multiset(s)
  {
    assert s == s[..i] + [s[i]] + s[i + 1..];
  }

  /** The first member of one list stands somewhere in the other, and what remains is permuted too. */
  lemma FirstElsewhere<T(!new)>(a: seq<T>, b: seq<T>) returns (i: nat)
    requires a != [] && multiset(a) == multiset(b)
    ensures i < |b| && b[i] == a[0] && |Without(b, i)| == |b| - 1 == |a| - 1
    ensures multiset(a[1..]) == multiset(Without(b, i))
  {
    hide Without;
    assert |a| == |multiset(a)| == |multiset(b)| == |b|;
    TailOf(a);
    SameMembers(a, b);
    assert a[0] in b;
    i :| 0 <= i < |b| && b[i] == a[0];
    WithoutCounts(b, i);
  }

  lemma WithoutFirst<T>(s: seq<T>)
    requires s != []
    ensures Without(s, 0) == s[1..]
  {
  }

  lemma WithoutLater<T>(s: seq<T>, i: nat)
    requires 0 < i < |s|
    ensures Without(s, i) != [] && Without(s, i)[0] == s[0] && Without(s, i)[1..] == Without(s[1..], i - 1)
  {
  }

  // ----- sorted sets

  function InsertUnique<T(==)>(le: (T, T) -> bool, x: T, s: seq<T>): seq<T> {
    if s == [] then [x]
    else if x == s[0] then s
    else if le(x, s[0]) then [x] + s
    else [s[0]] + InsertUnique(le, x, s[1..])
  }

  /** sorted(set(s)) */
  function SortedSet<T(==)>(le: (T, T) -> bool, s: seq<T>): seq<T> {
    if s == [] then [] else InsertUnique(le, s[0], SortedSet(le, s[1..]))
  }

  lemma {:induction false} InsertUniqueMembers<T(!new)>(le: (T, T) -> bool, x: T, s: seq<T>)
    ensures forall y :: y in InsertUnique(le, x, s) <==> y == x || y in s
  {
    if s != [] {
      InsertUniqueMembers(le, x, s[1..]);
      assert s == [s[0]] + s[1..];
    }
  }

  lemma {:induction false} SortedSetMembers<T(!new)>(le: (T, T) -> bool, s: seq<T>)
    ensures forall y :: y in SortedSet(le, s) <==> y in s
  {
    if s != [] {
      SortedSetMembers(le, s[1..]);
      InsertUniqueMembers(le, s[0], SortedSet(le, s[1..]));
      assert s == [s[0]] + s[1..];
    }
  }
}
