/** Versioned universe and corporate-action records: canonical order, and the as-of view. */
module BitemporalRecords {
  import opened Common
  import opened Sorting
  import opened Text

  datatype Body =
    | Membership(ticker: string, isMember: bool, reason: string, source: string, sourceTable: string)
    | Action(ticker: string, kind: string, cash: Option<real>, ratio: Option<real>, currency: string,
             oldTicker: string, newTicker: string, adjustment: string, source: string, sourceTable: string)

  /** group is (universe_id, instrument_id) for memberships and (instrument_id) for actions. */
  datatype Record = Record(id: string, group: seq<string>, effective: int, available: int, observed: int,
                           provider: Option<int>, body: Body)

  datatype Family = UniverseFamily | ActionFamily

  datatype RecordError = Columns | TemporalOrder | EmptyText | ActionRule | DuplicateRevision

  const ACTION_TYPES := {"cash_dividend", "delisting", "merger", "spinoff", "split", "symbol_change"}

  /** str.isspace */
  predicate Space(c: char) {
    var n := c as int;
    9 <= n <= 13 || 28 <= n <= 32 || n in {133, 160, 5760, 8232, 8233, 8239, 8287, 12288} || 8192 <= n <= 8202
  }

  predicate Blank(s: string) {
    forall c :: c in s ==> Space(c)
  }

  /** The record has the columns of its family. */
  predicate InFamily(family: Family, r: Record) {
    if family.UniverseFamily? then r.body.Membership? && |r.group| == 2 else r.body.Action? && |r.group| == 1
  }

  predicate TemporalOrderOk(r: Record) {
    r.available <= r.observed && (r.provider.Some? ==> r.provider.value <= r.observed)
  }

  predicate TextOk(r: Record) {
    && !Blank(r.id) && (forall g :: g in r.group ==> !Blank(g)) && !Blank(r.body.ticker)
    && !Blank(r.body.source) && !Blank(r.body.sourceTable)
    && (if r.body.Membership? then !Blank(r.body.reason)
        else !Blank(r.body.kind) && !Blank(r.body.currency) && !Blank(r.body.adjustment))
  }

  predicate ActionOk(r: Record) {
    r.body.Action? ==>
      && r.body.kind in ACTION_TYPES
      && (r.body.cash.Some? ==> r.body.cash.value > 0.0) && (r.body.ratio.Some? ==> r.body.ratio.value > 0.0)
      && (r.body.kind == "split" ==> r.body.ratio.Some?)
      && (r.body.kind == "cash_dividend" ==> r.body.cash.Some?)
      && (r.body.kind == "symbol_change" ==> !Blank(r.body.newTicker))
  }

  function RevisionKey(r: Record): (string, int) {
    (r.id, r.available)
  }

  predicate GroupLe(a: seq<string>, b: seq<string>) {
    if a == [] then true
    else if b == [] then false
    else if a[0] != b[0] then StrLe(a[0], b[0])
    else GroupLe(a[1..], b[1..])
  }

  /** The canonical order: group, effective time, availability time. */
  predicate CanonicalLe(a: Record, b: Record) {
    if a.group != b.group then GroupLe(a.group, b.group)
    else if a.effective != b.effective then a.effective < b.effective
    else a.available <= b.available
  }

  /** coerce_universe_records and coerce_corporate_action_records: the checks, then a stable canonical sort. */
  function Coerce(family: Family, records: seq<Record>): Result<seq<Record>, RecordError> {
    if exists r :: r in records && !InFamily(family, r) then Err(Columns)
    else if exists r :: r in records && !TemporalOrderOk(r) then Err(TemporalOrder)
    else if exists r :: r in records && !TextOk(r) then Err(EmptyText)
    else if exists r :: r in records && !ActionOk(r) then Err(ActionRule)
    else if !UniqueBy(RevisionKey, records) then Err(DuplicateRevision)
    else Ok(SortBy(CanonicalLe, records))
  }

  // ----- orders

  lemma {:induction false} GroupLeTotal(a: seq<string>, b: seq<string>)
    ensures GroupLe(a, b) || GroupLe(b, a)
    ensures GroupLe(a, b) && GroupLe(b, a) ==> a == b
  {
    if a != [] && b != [] {
      StrLeTotal(a[0], b[0]);
      GroupLeTotal(a[1..], b[1..]);
      assert a == [a[0]] + a[1..] && b == [b[0]] + b[1..];
    }
  }

  lemma {:induction false} GroupLeTransitive(a: seq<string>, b: seq<string>, c: seq<string>)
    requires GroupLe(a, b) && GroupLe(b, c)
    ensures GroupLe(a, c)
  {
    if a != [] && b != [] && c != [] {
      if a[0] == b[0] && b[0] == c[0] {
        GroupLeTransitive(a[1..], b[1..], c[1..]);
      } else if a[0] != b[0] && b[0] != c[0] {
        StrLeTransitive(a[0], b[0], c[0]);
        StrLeTotal(a[0], b[0]);
      }
    }
  }

  lemma CanonicalTotal()
    ensures TotalOn(CanonicalLe)
  {
    hide GroupLe;
    forall x: Record, y: Record
      ensures CanonicalLe(x, y) || CanonicalLe(y, x)
    {
      GroupLeTotal(x.group, y.group);
    }
    forall x: Record, y: Record, z: Record | CanonicalLe(x, y) && CanonicalLe(y, z)
      ensures CanonicalLe(x, z)
    {
      GroupLeTotal(x.group, y.group);
      GroupLeTotal(y.group, z.group);
      if x.group != y.group && y.group != z.group {
        GroupLeTransitive(x.group, y.group, z.group);
      }
    }
  }

  // ----- coercion

  /** The characters that Unicode counts as white space. */
  ghost const WHITE: set<int> := {
    9, 10, 11, 12, 13, 28, 29, 30, 31, 32, 133, 160, 5760, 8192, 8193, 8194, 8195, 8196, 8197, 8198, 8199, 8200, 8201,
    8202, 8232, 8233, 8239, 8287, 12288}

  lemma SpaceIff(c: char)
    ensures Space(c) <==> c as int in WHITE
  {
  }

  /** Some character is no white space. */
  ghost predicate Says(s: string) {
    exists i :: 0 <= i < |s| && s[i] as int !in WHITE
  }

  /** What a record must satisfy, rule by rule. */
  ghost predicate RecordRules(family: Family, r: Record) {
    && r.available <= r.observed && (r.provider.Some? ==> r.provider.value <= r.observed)
    && Says(r.id) && (forall i :: 0 <= i < |r.group| ==> Says(r.group[i]))
    && Says(r.body.ticker) && Says(r.body.source) && Says(r.body.sourceTable)
    && match r.body
       case Membership(_, _, reason, _, _) => family.UniverseFamily? && |r.group| == 2 && Says(reason)
       case Action(_, kind, cash, ratio, currency, _, newTicker, adjustment, _, _) =>
         && family.ActionFamily? && |r.group| == 1 && Says(currency) && Says(adjustment)
         && kind in {"cash_dividend", "delisting", "merger", "spinoff", "split", "symbol_change"}
         && (cash.Some? ==> cash.value > 0.0) && (ratio.Some? ==> ratio.value > 0.0)
         && (kind == "split" ==> ratio.Some?) && (kind == "cash_dividend" ==> cash.Some?)
         && (kind == "symbol_change" ==> Says(newTicker))
  }

  lemma SaysIff(s: string)
    ensures Says(s) <==> !Blank(s)
  {
    forall c: char
      ensures Space(c) <==> c as int in WHITE
    {
      SpaceIff(c);
    }
    hide Space;
    if !Blank(s) {
      var c :| c in s && !Space(c);
      var i :| 0 <= i < |s| && s[i] == c;
      assert s[i] as int !in WHITE;
    }
    if i :| 0 <= i < |s| && s[i] as int !in WHITE {
      assert s[i] in s && !Space(s[i]);
    }
  }

  lemma KindsSay()
    ensures forall k :: k in ACTION_TYPES ==> Says(k)
  {
    forall k | k in ACTION_TYPES
      ensures Says(k)
    {
      assert |k| > 0 && k[0] as int !in WHITE;
    }
  }

  lemma RulesIff(family: Family, r: Record)
    ensures InFamily(family, r) && TemporalOrderOk(r) && TextOk(r) && ActionOk(r) <==> RecordRules(family, r)
  {
    KindsSay();
    hide Blank, Says;
    forall s: string
      ensures Says(s) <==> !Blank(s)
    {
      SaysIff(s);
    }
  }

  /** One record per (identity, availability time). */
  ghost predicate OneEach(m: multiset<Record>) {
    Keyed(RevisionKey, m)
  }

  ghost predicate Acceptable(family: Family, records: seq<Record>) {
    && (forall r :: r in records ==> RecordRules(family, r))
    && (forall i, j :: 0 <= i < j < |records| ==> records[i].id != records[j].id || records[i].available != records[j].available)
  }

  /** Coercion accepts exactly the acceptable record sets, loses and invents nothing, and orders them canonically. */
  lemma CoerceIff(family: Family, records: seq<Record>)
    ensures Coerce(family, records).Ok? <==> Acceptable(family, records)
    ensures Coerce(family, records).Ok? ==>
              multiset(Coerce(family, records).value) == multiset(records) && SortedBy(CanonicalLe, Coerce(family, records).value)
  {
    hide InFamily, TemporalOrderOk, TextOk, ActionOk, CanonicalLe, RecordRules;
    forall r | r in records
      ensures InFamily(family, r) && TemporalOrderOk(r) && TextOk(r) && ActionOk(r) <==> RecordRules(family, r)
    {
      RulesIff(family, r);
    }
    assert UniqueBy(RevisionKey, records) <==>
           forall i, j :: 0 <= i < j < |records| ==> RevisionKey(records[i]) != RevisionKey(records[j]);
    CanonicalTotal();
    SortBySorted(CanonicalLe, records);
  }

  lemma AcceptableKeyed(family: Family, records: seq<Record>)
    requires Acceptable(family, records)
    ensures OneEach(multiset(records))
  {
    hide RecordRules;
    UniqueByIff(RevisionKey, records);
    assert UniqueBy(RevisionKey, records);
  }

  lemma AcceptablePermuted(family: Family, a: seq<Record>, b: seq<Record>)
    requires multiset(a) == multiset(b) && Acceptable(family, a)
    ensures Acceptable(family, b)
  {
    hide RecordRules;
    AcceptableKeyed(family, a);
    SameMembers(a, b);
    UniqueByIff(RevisionKey, b);
    assert UniqueBy(RevisionKey, b);
  }

  /** The order of coerced records: by the identities they are grouped under, then effective, then availability time. */
  lemma CoerceOrder(family: Family, records: seq<Record>, i: nat, j: nat)
    requires Coerce(family, records).Ok? && i < j < |Coerce(family, records).value|
    ensures var a, b := Coerce(family, records).value[i], Coerce(family, records).value[j];
            && |a.group| == |b.group| == (if family.UniverseFamily? then 2 else 1)
            && (|| (StrLe(a.group[0], b.group[0]) && a.group[0] != b.group[0])
                || (family.UniverseFamily? && a.group[0] == b.group[0] && StrLe(a.group[1], b.group[1]) && a.group[1] != b.group[1])
                || (a.group == b.group && (a.effective < b.effective || (a.effective == b.effective && a.available <= b.available))))
  {
    hide StrLe, Coerce, Says, OneEach;
    CoerceIff(family, records);
    var out := Coerce(family, records).value;
    SameMembers(records, out);
    var a, b := out[i], out[j];
    assert RecordRules(family, a) && RecordRules(family, b);
    assert CanonicalLe(a, b);
    GroupsDiffer(a.group, b.group);
  }

  lemma GroupsDiffer(a: seq<string>, b: seq<string>)
    requires |a| == |b| && 1 <= |a| <= 2
    ensures GroupLe(a, b) && a != b ==>
              || (StrLe(a[0], b[0]) && a[0] != b[0])
              || (|a| == 2 && a[0] == b[0] && StrLe(a[1], b[1]) && a[1] != b[1])
  {
    hide StrLe;
    if a[0] == b[0] && |a| == 2 {
      assert a == [a[0], a[1]] && b == [b[0], b[1]];
      assert GroupLe(a, b) == GroupLe(a[1..], b[1..]);
      assert a[1..] == [a[1]] && b[1..] == [b[1]];
    } else if a[0] == b[0] {
      assert a == [a[0]] && b == [b[0]];
    }
  }

  /** Coercing a permutation is accepted alike; a second coercion changes nothing. */
  lemma CoerceStable(family: Family, records: seq<Record>, permuted: seq<Record>)
    requires multiset(records) == multiset(permuted)
    ensures Coerce(family, records).Ok? <==> Coerce(family, permuted).Ok?
    ensures Coerce(family, records).Ok? ==> Coerce(family, Coerce(family, records).value) == Coerce(family, records)
  {
    hide Acceptable, CanonicalLe, Coerce, SortBy;
    CoerceIff(family, records);
    CoerceIff(family, permuted);
    if Acceptable(family, records) {
      AcceptablePermuted(family, records, permuted);
    }
    if Acceptable(family, permuted) {
      AcceptablePermuted(family, permuted, records);
    }
    if Coerce(family, records).Ok? {
      var out := Coerce(family, records).value;
      AcceptablePermuted(family, records, out);
      CoerceIff(family, out);
      CoerceSorted(family, out);
    }
  }

  lemma CoerceSorted(family: Family, records: seq<Record>)
    requires SortedBy(CanonicalLe, records) && Coerce(family, records).Ok?
    ensures Coerce(family, records) == Ok(records)
  {
    hide InFamily, TemporalOrderOk, TextOk, ActionOk, UniqueBy, CanonicalLe;
    SortBySortedId(CanonicalLe, records);
  }

  // ----- whether the input order shows

  /** No two different records agree on group, effective time and availability time. */
  ghost predicate Untied(records: seq<Record>) {
    Separates(CanonicalLe, multiset(records))
  }

  /** In a sorted sequence, two records that tie enclose only records that tie with both. */
  lemma BetweenTied(s: seq<Record>, i: nat, j: nat, k: nat)
    requires SortedBy(CanonicalLe, s) && i <= k <= j < |s| && CanonicalLe(s[j], s[i])
    ensures CanonicalLe(s[k], s[i]) && CanonicalLe(s[j], s[k]) && CanonicalLe(s[i], s[k]) && CanonicalLe(s[k], s[j])
  {
    hide CanonicalLe;
    CanonicalTotal();
  }

  /** Exchanging two records that tie leaves a sorted sequence sorted, and conserves its records. */
  lemma SwapTied(s: seq<Record>, i: nat, j: nat) returns (t: seq<Record>)
    requires SortedBy(CanonicalLe, s) && i < j < |s| && CanonicalLe(s[j], s[i])
    ensures t == s[i := s[j]][j := s[i]] && SortedBy(CanonicalLe, t) && multiset(t) == multiset(s)
  {
    hide CanonicalLe;
    CanonicalTotal();
    t := s[i := s[j]][j := s[i]];
    forall a, b | 0 <= a < b < |t|
      ensures CanonicalLe(t[a], t[b])
    {
      if i <= a <= j {
        BetweenTied(s, i, j, a);
      }
      if i <= b <= j {
        BetweenTied(s, i, j, b);
      }
    }
  }

  /** Every order of the input gives the same frame. */
  ghost predicate OrderFree(family: Family, records: seq<Record>) {
    forall permuted :: multiset(permuted) == multiset(records) ==> Coerce(family, permuted) == Coerce(family, records)
  }

  /** A tie shows: some order of the same records is coerced to another frame. */
  lemma TieShows(family: Family, records: seq<Record>) returns (permuted: seq<Record>)
    requires Coerce(family, records).Ok? && !Untied(records)
    ensures multiset(permuted) == multiset(records)
    ensures Coerce(family, permuted).Ok? && Coerce(family, permuted) != Coerce(family, records)
  {
    hide CanonicalLe, Coerce;
    CoerceIff(family, records);
    var out := Coerce(family, records).value;
    var x, y :| x in multiset(records) && y in multiset(records) && CanonicalLe(x, y) && CanonicalLe(y, x) && x != y;
    assert x in multiset(out) && y in multiset(out);
    var i :| 0 <= i < |out| && out[i] == x;
    var j :| 0 <= j < |out| && out[j] == y;
    permuted := SwapTied(out, if i < j then i else j, if i < j then j else i);
    assert permuted[i] == y;
    CoerceStable(family, records, permuted);
    CoerceSorted(family, permuted);
  }

  /** The canonical frame is independent of the input order exactly when no two records tie in the canonical order. */
  lemma OrderFreeIff(family: Family, records: seq<Record>)
    requires Coerce(family, records).Ok?
    ensures OrderFree(family, records) <==> Untied(records)
  {
    hide CanonicalLe, Coerce;
    if Untied(records) {
      forall permuted | multiset(permuted) == multiset(records)
        ensures Coerce(family, permuted) == Coerce(family, records)
      {
        CoerceStable(family, records, permuted);
        CoerceIff(family, records);
        CoerceIff(family, permuted);
        SortedUnique(CanonicalLe, Coerce(family, permuted).value, Coerce(family, records).value);
      }
    } else {
      var permuted := TieShows(family, records);
    }
  }

  /** Two memberships of one instrument, from the same day and published at the same time. */
  function Twin(id: string): Record {
    Record(id, ["U", "I"], 0, 0, 0, None, Membership("T", true, "T", "T", "T"))
  }

  /** Both orders of the pair are accepted, and each is left as it came. */
  lemma TwinsKeepOrder()
    ensures Coerce(UniverseFamily, [Twin("a"), Twin("b")]) == Ok([Twin("a"), Twin("b")])
    ensures Coerce(UniverseFamily, [Twin("b"), Twin("a")]) == Ok([Twin("b"), Twin("a")])
    ensures multiset([Twin("a"), Twin("b")]) == multiset([Twin("b"), Twin("a")])
  {
    TwinsAccepted("a", "b");
    TwinsAccepted("b", "a");
  }

  lemma TwinsAccepted(a: string, b: string)
    requires a in {"a", "b"} && b in {"a", "b"} && a != b
    ensures Coerce(UniverseFamily, [Twin(a), Twin(b)]) == Ok([Twin(a), Twin(b)])
  {
    var pair := [Twin(a), Twin(b)];
    TwinOk(a);
    TwinOk(b);
    assert RevisionKey(Twin(a)) != RevisionKey(Twin(b));
    hide InFamily, TemporalOrderOk, TextOk, ActionOk, StrLe;
    SortBySortedId(CanonicalLe, pair);
  }

  lemma NotBlank(s: string)
    requires s != [] && !Space(s[0])
    ensures !Blank(s)
  {
  }

  lemma TwinOk(id: string)
    requires id in {"a", "b"}
    ensures InFamily(UniverseFamily, Twin(id)) && TemporalOrderOk(Twin(id)) && TextOk(Twin(id)) && ActionOk(Twin(id))
  {
    NotBlank(id);
    NotBlank("T");
    NotBlank("U");
    NotBlank("I");
    hide Blank;
    assert Twin(id).group == ["U", "I"];
  }

  // ----- visible_revisions

  predicate VisibleAt(r: Record, t: int) {
    r.effective <= t && r.available <= t
  }

  function Filter(s: seq<Record>, t: int): seq<Record> {
    if s == [] then [] else (if VisibleAt(s[0], t) then [s[0]] else []) + Filter(s[1..], t)
  }

  /** identity, availability time, observation time */
  predicate RevisionLe(a: Record, b: Record) {
    if a.id != b.id then StrLe(a.id, b.id)
    else if a.available != b.available then a.available < b.available
    else a.observed <= b.observed
  }

  /** drop_duplicates(identity, keep="last") */
  function KeepLast(s: seq<Record>): seq<Record> {
    if s == [] then []
    else if exists r :: r in s[1..] && r.id == s[0].id then KeepLast(s[1..])
    else [s[0]] + KeepLast(s[1..])
  }

  function VisibleRevisions(frame: seq<Record>, t: int): seq<Record> {
    KeepLast(SortBy(RevisionLe, Filter(frame, t)))
  }

  lemma RevisionTotal()
    ensures TotalOn(RevisionLe)
  {
    hide StrLe;
    forall x: Record, y: Record
      ensures RevisionLe(x, y) || RevisionLe(y, x)
    {
      StrLeTotal(x.id, y.id);
    }
    forall x: Record, y: Record, z: Record | RevisionLe(x, y) && RevisionLe(y, z)
      ensures RevisionLe(x, z)
    {
      StrLeTotal(x.id, y.id);
      if x.id != y.id && y.id != z.id {
        StrLeTransitive(x.id, y.id, z.id);
      }
    }
  }

  lemma {:induction false} FilterMembers(s: seq<Record>, t: int)
    ensures forall r :: r in Filter(s, t) <==> r in s && VisibleAt(r, t)
    ensures multiset(Filter(s, t)) <= multiset(s)
  {
    if s != [] {
      FilterMembers(s[1..], t);
      assert s == [s[0]] + s[1..];
    }
  }

  lemma OneEachSubset(a: multiset<Record>, b: multiset<Record>)
    requires a <= b && OneEach(b)
    ensures OneEach(a)
  {
    assert forall x :: x in a ==> x in b;
  }

  lemma SameRevision(m: multiset<Record>, a: Record, b: Record)
    requires OneEach(m) && a in m && b in m && a.id == b.id && a.available == b.available
    ensures a == b && m[a] == 1
  {
    assert RevisionKey(a) == RevisionKey(b);
  }

  lemma HeadOf(s: seq<Record>)
    requires s != [] && SortedBy(RevisionLe, s) && OneEach(multiset(s))
    ensures s[0] !in s[1..] && SortedBy(RevisionLe, s[1..]) && OneEach(multiset(s[1..]))
    ensures forall r :: r in s <==> r == s[0] || r in s[1..]
    ensures forall r :: r in s[1..] ==> RevisionLe(s[0], r) && (r.id == s[0].id ==> s[0].available < r.available)
  {
    hide RevisionLe, OneEach;
    assert s == [s[0]] + s[1..];
    OneEachSubset(multiset(s[1..]), multiset(s));
    forall r | r in s[1..]
      ensures RevisionLe(s[0], r) && r != s[0] && (r.id == s[0].id ==> s[0].available < r.available)
    {
      var k :| 0 <= k < |s[1..]| && s[1..][k] == r;
      assert s[k + 1] == r;
      TwiceAt(s, 0, k + 1);
      assert r in multiset(s) && s[0] in multiset(s);
      SameRevision(multiset(s), s[0], s[0]);
      if r.id == s[0].id {
        RevisionMeans(s[0], r);
        if r.available == s[0].available {
          SameRevision(multiset(s), s[0], r);
        }
      }
    }
  }

  lemma RevisionMeans(a: Record, b: Record)
    requires RevisionLe(a, b) && a.id == b.id
    ensures a.available <= b.available
  {
  }

  /** The last revision of each identity in a sequence: no other of the same identity is available later. */
  ghost predicate LastIn(s: seq<Record>, r: Record) {
    r in s && forall q :: q in s && q.id == r.id ==> q.available <= r.available
  }

  lemma {:induction false} KeepLastMembers(s: seq<Record>)
    requires SortedBy(RevisionLe, s) && OneEach(multiset(s))
    ensures forall r :: r in KeepLast(s) <==> LastIn(s, r)
  {
    hide OneEach, RevisionLe, SortedBy;
    if s != [] {
      HeadOf(s);
      KeepLastMembers(s[1..]);
      forall r
        ensures r in KeepLast(s) <==> LastIn(s, r)
      {
        assert r in s[1..] && r.id == s[0].id ==> s[0].available < r.available;
        if r in s[1..] {
          assert LastIn(s, r) <==> LastIn(s[1..], r);
        }
      }
    }
  }

  /** Strictly increasing identities. */
  ghost predicate ById(s: seq<Record>) {
    forall i, j :: 0 <= i < j < |s| ==> StrLe(s[i].id, s[j].id) && s[i].id != s[j].id
  }

  lemma {:induction false} KeepLastById(s: seq<Record>)
    requires SortedBy(RevisionLe, s) && OneEach(multiset(s))
    ensures ById(KeepLast(s)) && forall r :: r in KeepLast(s) ==> r in s
  {
    hide OneEach, SortedBy, StrLe;
    if s != [] {
      HeadOf(s);
      KeepLastById(s[1..]);
      var rest := KeepLast(s[1..]);
      if !exists r :: r in s[1..] && r.id == s[0].id {
        forall j | 0 <= j < |rest|
          ensures StrLe(s[0].id, rest[j].id) && s[0].id != rest[j].id
        {
          assert rest[j] in rest;
        }
      }
    }
  }

  lemma {:induction false} ByIdUnique(a: seq<Record>, b: seq<Record>)
    requires ById(a) && ById(b) && forall r :: r in a <==> r in b
    ensures a == b
  {
    hide StrLe;
    assert (a != [] ==> a[0] in a) && (b != [] ==> b[0] in b);
    if a != [] {
      var i :| 0 <= i < |b| && b[i] == a[0];
      var j :| 0 <= j < |a| && a[j] == b[0];
      StrLeTotal(a[0].id, b[0].id);
      assert a[0] == b[0];
      forall r
        ensures r in a[1..] <==> r in b[1..]
      {
        NotHead(a, r);
        NotHead(b, r);
      }
      ByIdUnique(a[1..], b[1..]);
      assert a == [a[0]] + a[1..] && b == [b[0]] + b[1..];
    }
  }

  lemma NotHead(s: seq<Record>, r: Record)
    requires ById(s) && s != []
    ensures r in s[1..] <==> r in s && r != s[0]
  {
    assert s == [s[0]] + s[1..];
    if r in s[1..] {
      var k :| 0 <= k < |s[1..]| && s[1..][k] == r;
      assert s[k + 1] == r;
    }
  }

  /** The view an as-of query promises: visible, and of its identity's visible revisions the latest available. */
  ghost predicate Latest(frame: seq<Record>, t: int, r: Record) {
    && r in frame && r.effective <= t && r.available <= t
    && forall q :: q in frame && q.effective <= t && q.available <= t && q.id == r.id ==> q.available <= r.available
  }

  /** visible_revisions returns exactly the latest visible revision of each identity, in identity order. */
  lemma VisibleIsLatest(frame: seq<Record>, t: int)
    requires OneEach(multiset(frame))
    ensures forall r :: r in VisibleRevisions(frame, t) <==> Latest(frame, t, r)
    ensures ById(VisibleRevisions(frame, t))
  {
    hide OneEach, RevisionLe, ById, KeepLast, SortBy, Filter;
    var shown := Filter(frame, t);
    FilterMembers(frame, t);
    OneEachSubset(multiset(shown), multiset(frame));
    RevisionTotal();
    SortBySorted(RevisionLe, shown);
    var sorted := SortBy(RevisionLe, shown);
    SameMembers(shown, sorted);
    KeepLastMembers(sorted);
    KeepLastById(sorted);
    forall r
      ensures LastIn(sorted, r) <==> Latest(frame, t, r)
    {
    }
  }

  lemma {:induction false} GreatestIn(frame: seq<Record>, t: int, id: string) returns (best: Option<Record>)
    ensures best.None? ==> forall r :: r in frame && VisibleAt(r, t) ==> r.id != id
    ensures best.Some? ==> Latest(frame, t, best.value) && best.value.id == id
  {
    if frame == [] {
      best := None;
    } else {
      best := GreatestIn(frame[1..], t, id);
      assert frame == [frame[0]] + frame[1..];
      if VisibleAt(frame[0], t) && frame[0].id == id && (best.None? || best.value.available < frame[0].available) {
        best := Some(frame[0]);
      }
    }
  }

  /** Exactly one row per visible identity: there is one, and no two share an identity. */
  lemma OneRowPerIdentity(frame: seq<Record>, t: int, r: Record)
    requires OneEach(multiset(frame)) && r in frame && VisibleAt(r, t)
    ensures exists i :: 0 <= i < |VisibleRevisions(frame, t)| && VisibleRevisions(frame, t)[i].id == r.id
                        && forall j :: 0 <= j < |VisibleRevisions(frame, t)| && j != i ==>
                                         VisibleRevisions(frame, t)[j].id != r.id
  {
    hide OneEach, VisibleRevisions;
    VisibleIsLatest(frame, t);
    var best := GreatestIn(frame, t, r.id);
    var view := VisibleRevisions(frame, t);
    assert best.value in view;
    var i :| 0 <= i < |view| && view[i] == best.value;
  }

  /** Records not visible at t, and the order of the frame, do not matter: only what is visible does. */
  lemma ViewDependsOnVisible(a: seq<Record>, b: seq<Record>, t: int)
    requires OneEach(multiset(a)) && OneEach(multiset(b))
    requires forall r :: VisibleAt(r, t) ==> (r in a <==> r in b)
    ensures VisibleRevisions(a, t) == VisibleRevisions(b, t)
  {
    hide OneEach, VisibleRevisions, ById;
    VisibleIsLatest(a, t);
    VisibleIsLatest(b, t);
    forall r
      ensures r in VisibleRevisions(a, t) <==> r in VisibleRevisions(b, t)
    {
      assert Latest(a, t, r) <==> Latest(b, t, r);
    }
    ByIdUnique(VisibleRevisions(a, t), VisibleRevisions(b, t));
  }

  lemma ViewOfPermutation(a: seq<Record>, b: seq<Record>, t: int)
    requires multiset(a) == multiset(b) && OneEach(multiset(a))
    ensures VisibleRevisions(a, t) == VisibleRevisions(b, t)
  {
    hide OneEach, VisibleRevisions;
    SameMembers(a, b);
    ViewDependsOnVisible(a, b, t);
  }

  /** As time passes identities never vanish, and the chosen revision never becomes an older one. */
  lemma ViewAdvances(frame: seq<Record>, t: int, u: int, r: Record) returns (later: Record)
    requires OneEach(multiset(frame)) && t <= u && r in VisibleRevisions(frame, t)
    ensures later in VisibleRevisions(frame, u) && later.id == r.id && later.available >= r.available
  {
    hide OneEach, VisibleRevisions;
    VisibleIsLatest(frame, t);
    VisibleIsLatest(frame, u);
    assert Latest(frame, t, r);
    assert VisibleAt(r, u);
    var best := GreatestIn(frame, u, r.id);
    later := best.value;
  }
}
