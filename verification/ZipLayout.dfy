/** Little-endian fixed-width fields, as struct.pack and struct.unpack lay them out. */
module Bytes {

  type Byte = x: int | 0 <= x < 256

  type Data = seq<Byte>

  predicate Fits(n: nat, width: nat) {
    if width == 0 then n == 0 else Fits(n / 256, width - 1)
  }

  function Le(n: nat, width: nat): (b: Data)
    ensures |b| == width
  {
    if width == 0 then [] else [n % 256] + Le(n / 256, width - 1)
  }

  function ReadLe(b: Data): nat {
    if b == [] then 0 else b[0] + 256 * ReadLe(b[1..])
  }

  lemma {:induction false} ReadOfLe(n: nat, width: nat)
    requires Fits(n, width)
    ensures ReadLe(Le(n, width)) == n
  {
    if width > 0 {
      ReadOfLe(n / 256, width - 1);
      assert Le(n, width)[1..] == Le(n / 256, width - 1);
    }
  }

  lemma ByteSplit(low: nat, high: nat)
    requires low < 256
    ensures (low + 256 * high) % 256 == low && (low + 256 * high) / 256 == high
  {
  }

  lemma {:induction false} LeOfRead(b: Data)
    ensures Fits(ReadLe(b), |b|) && Le(ReadLe(b), |b|) == b
  {
    if b != [] {
      LeOfRead(b[1..]);
      ByteSplit(b[0], ReadLe(b[1..]));
      assert b == [b[0]] + b[1..];
    }
  }

  function Total(widths: seq<nat>): nat {
    if widths == [] then 0 else widths[0] + Total(widths[1..])
  }

  predicate FitAll(widths: seq<nat>, values: seq<nat>) {
    |widths| == |values| && (widths == [] || (Fits(values[0], widths[0]) && FitAll(widths[1..], values[1..])))
  }

  function Pack(widths: seq<nat>, values: seq<nat>): (b: Data)
    requires |widths| == |values|
    ensures |b| == Total(widths)
  {
    if widths == [] then [] else Le(values[0], widths[0]) + Pack(widths[1..], values[1..])
  }

  function Unpack(widths: seq<nat>, b: Data): (values: seq<nat>)
    requires |b| == Total(widths)
    ensures |values| == |widths|
  {
    if widths == [] then [] else [ReadLe(b[..widths[0]])] + Unpack(widths[1..], b[widths[0]..])
  }

  lemma {:induction false} UnpackOfPack(widths: seq<nat>, values: seq<nat>)
    requires FitAll(widths, values)
    ensures Unpack(widths, Pack(widths, values)) == values
  {
    if widths != [] {
      var b := Pack(widths, values);
      assert b[..widths[0]] == Le(values[0], widths[0]);
      assert b[widths[0]..] == Pack(widths[1..], values[1..]);
      ReadOfLe(values[0], widths[0]);
      UnpackOfPack(widths[1..], values[1..]);
      assert values == [values[0]] + values[1..];
    }
  }

  lemma {:induction false} PackOfUnpack(widths: seq<nat>, b: Data)
    requires |b| == Total(widths)
    ensures FitAll(widths, Unpack(widths, b)) && Pack(widths, Unpack(widths, b)) == b
  {
    hide ReadLe, Le, Fits;
    if widths != [] {
      var head, tail := b[..widths[0]], b[widths[0]..];
      LeOfRead(head);
      PackOfUnpack(widths[1..], tail);
      var values := Unpack(widths, b);
      assert values[0] == ReadLe(head) && values[1..] == Unpack(widths[1..], tail);
      assert b == head + tail;
    }
  }
}

/** The classic-ZIP layout checks of the wheel verifier (PKWARE APPNOTE, sections 4.3.7, 4.3.12 and 4.3.16). */
module ZipLayout {
  import opened Common
  import opened Sorting
  import opened Bytes

  const MAX_CONTAINER_BYTES := 16 * 1024 * 1024
  const MAX_MEMBERS := 4096
  const LOCAL_BYTES := 30
  const CENTRAL_BYTES := 46
  const END_BYTES := 22
  const MAX_COMMENT := 65535
  const ZIP64 := 0xFFFFFFFF

  const LOCAL_SIGNATURE := 0x04034b50
  const CENTRAL_SIGNATURE := 0x02014b50
  const END_SIGNATURE := 0x06054b50

  const LOCAL_WIDTHS: seq<nat> := [4, 2, 2, 2, 2, 2, 4, 4, 4, 2, 2]
  const CENTRAL_WIDTHS: seq<nat> := [4, 2, 2, 2, 2, 2, 2, 4, 4, 4, 2, 2, 2, 2, 2, 4, 4]
  const END_WIDTHS: seq<nat> := [4, 2, 2, 2, 2, 4, 4, 2]

  const MARKER: Data := [0x50, 0x4b, 0x05, 0x06]

  datatype Central = Central(
    name: Data, versionMade: nat, versionNeeded: nat, flags: nat, compression: nat, dosTime: nat, dosDate: nat,
    crc: nat, compressedSize: nat, uncompressedSize: nat, internalAttributes: nat, externalAttributes: nat,
    localOffset: nat)

  datatype EndRecord = EndRecord(memberCount: nat, centralOffset: nat, centralSize: nat)

  datatype ZipError =
    | BadContainerSize | NoEndRecord | BadEndRecord | Unsupported | TooManyMembers | BadBounds
    | TruncatedCentral | UndeclaredRecord | UndeclaredMetadata | BadName | TrailingRecords
    | DuplicateOffsets | GapOrOverlap | TruncatedLocal | BadLocalHeader | DataDescriptor | Disagrees

  /** Whether a raw member name decodes and re-encodes under its flags. */
  type NameCheck = (Data, nat) -> bool

  // ----- serialised forms

  function CentralFields(c: Central): seq<nat> {
    [CENTRAL_SIGNATURE, c.versionMade, c.versionNeeded, c.flags, c.compression, c.dosTime, c.dosDate, c.crc,
     c.compressedSize, c.uncompressedSize, |c.name|, 0, 0, 0, c.internalAttributes, c.externalAttributes, c.localOffset]
  }

  function LocalFields(c: Central): seq<nat> {
    [LOCAL_SIGNATURE, c.versionNeeded, c.flags, c.compression, c.dosTime, c.dosDate, c.crc,
     c.compressedSize, c.uncompressedSize, |c.name|, 0]
  }

  lemma {:induction false} TotalConcat(a: seq<nat>, b: seq<nat>)
    ensures Total(a + b) == Total(a) + Total(b)
  {
    if a == [] {
      assert a + b == b;
    } else {
      assert (a + b)[1..] == a[1..] + b;
      TotalConcat(a[1..], b);
    }
  }

  lemma TotalFour(a: nat, b: nat, c: nat, d: nat)
    ensures Total([a, b, c, d]) == a + b + c + d
  {
    assert [a, b, c, d][1..] == [b, c, d] && [b, c, d][1..] == [c, d] && [c, d][1..] == [d] && [d][1..] == [];
    assert Total([d]) == d + Total([]);
    assert Total([c, d]) == c + Total([d]);
    assert Total([b, c, d]) == b + Total([c, d]);
  }

  lemma LocalTotal()
    ensures Total(LOCAL_WIDTHS) == LOCAL_BYTES
  {
    hide Total;
    TotalFour(4, 2, 2, 2);
    TotalFour(2, 2, 4, 4);
    TotalFour(4, 2, 2, 0);
    TotalConcat([4, 2, 2, 2], [2, 2, 4, 4]);
    TotalConcat([4, 2, 2], [0]);
    TotalOne(0);
    TotalConcat([4, 2, 2, 2] + [2, 2, 4, 4], [4, 2, 2]);
    assert [4, 2, 2] + [0] == [4, 2, 2, 0];
    assert LOCAL_WIDTHS == ([4, 2, 2, 2] + [2, 2, 4, 4]) + [4, 2, 2];
  }

  lemma TotalOne(a: nat)
    ensures Total([a]) == a
  {
    assert [a][1..] == [];
  }

  lemma CentralTotal()
    ensures Total(CENTRAL_WIDTHS) == CENTRAL_BYTES
  {
    hide Total;
    TotalFour(4, 2, 2, 2);
    TotalFour(2, 2, 2, 4);
    TotalFour(4, 4, 2, 2);
    TotalFour(2, 2, 2, 4);
    TotalOne(4);
    TotalConcat([4, 2, 2, 2], [2, 2, 2, 4]);
    TotalConcat([4, 4, 2, 2], [2, 2, 2, 4]);
    TotalConcat([4, 2, 2, 2] + [2, 2, 2, 4], [4, 4, 2, 2] + [2, 2, 2, 4]);
    TotalConcat(([4, 2, 2, 2] + [2, 2, 2, 4]) + ([4, 4, 2, 2] + [2, 2, 2, 4]), [4]);
    assert CENTRAL_WIDTHS == (([4, 2, 2, 2] + [2, 2, 2, 4]) + ([4, 4, 2, 2] + [2, 2, 2, 4])) + [4];
  }

  lemma EndTotal()
    ensures Total(END_WIDTHS) == END_BYTES
  {
    hide Total;
    TotalFour(4, 2, 2, 2);
    TotalFour(2, 4, 4, 2);
    TotalConcat([4, 2, 2, 2], [2, 4, 4, 2]);
    assert END_WIDTHS == [4, 2, 2, 2] + [2, 4, 4, 2];
  }

  function CentralBytes(c: Central): (b: Data)
    ensures |b| == CENTRAL_BYTES + |c.name|
  {
    CentralTotal();
    Pack(CENTRAL_WIDTHS, CentralFields(c)) + c.name
  }

  function LocalHeader(c: Central): (b: Data)
    ensures |b| == LOCAL_BYTES + |c.name|
  {
    LocalTotal();
    Pack(LOCAL_WIDTHS, LocalFields(c)) + c.name
  }

  function EndFields(e: EndRecord): seq<nat> {
    [END_SIGNATURE, 0, 0, e.memberCount, e.memberCount, e.centralSize, e.centralOffset, 0]
  }

  function EndBytes(e: EndRecord): (b: Data)
    ensures |b| == END_BYTES
  {
    EndTotal();
    Pack(END_WIDTHS, EndFields(e))
  }

  /** Field ranges and refusals of one central record, wherever it sits. */
  predicate CentralOk(c: Central, nameOk: NameCheck) {
    && FitAll(CENTRAL_WIDTHS, CentralFields(c))
    && c.compressedSize != 0xFFFFFFFF && c.uncompressedSize != 0xFFFFFFFF && c.localOffset != 0xFFFFFFFF
    && nameOk(c.name, c.flags)
  }

  // ----- the central directory

  function CentralHeader(fixed: Data): (v: seq<nat>)
    requires |fixed| == CENTRAL_BYTES
    ensures |v| == 17
  {
    hide Unpack, Total;
    CentralTotal();
    Unpack(CENTRAL_WIDTHS, fixed)
  }

  function ParseCentral(b: Data, cursor: nat, nameOk: NameCheck): Result<(Central, nat), ZipError>
    requires cursor <= |b|
  {
    hide CentralHeader;
    var fixedEnd := cursor + CENTRAL_BYTES;
    if fixedEnd > |b| then Err(TruncatedCentral)
    else
      var v := CentralHeader(b[cursor..fixedEnd]);
      if v[0] != CENTRAL_SIGNATURE then Err(UndeclaredRecord)
      else if v[11] != 0 || v[12] != 0 then Err(UndeclaredMetadata)
      else if v[13] != 0 || v[8] == ZIP64 || v[9] == ZIP64 || v[16] == ZIP64 then Err(Unsupported)
      else
        var recordEnd := fixedEnd + v[10] + v[11] + v[12];
        if recordEnd > |b| then Err(BadBounds)
        else
          var name := b[fixedEnd..fixedEnd + v[10]];
          if !nameOk(name, v[3]) then Err(BadName)
          else
            Ok((Central(name, v[1], v[2], v[3], v[4], v[5], v[6], v[7], v[8], v[9], v[14], v[15], v[16]), recordEnd))
  }

  lemma ParseCentralSound(b: Data, cursor: nat, nameOk: NameCheck)
    requires cursor <= |b| && ParseCentral(b, cursor, nameOk).Ok?
    ensures var (c, next) := ParseCentral(b, cursor, nameOk).value;
            && CentralOk(c, nameOk) && next == cursor + |CentralBytes(c)| <= |b| && b[cursor..next] == CentralBytes(c)
  {
    hide Unpack, Pack, FitAll, Total;
    CentralTotal();
    var fixed := b[cursor..cursor + CENTRAL_BYTES];
    var v := CentralHeader(fixed);
    PackOfUnpack(CENTRAL_WIDTHS, fixed);
    var (c, next) := ParseCentral(b, cursor, nameOk).value;
    assert CentralFields(c) == v;
    assert b[cursor..next] == fixed + b[cursor + CENTRAL_BYTES..next];
  }

  lemma ParseCentralComplete(b: Data, cursor: nat, c: Central, nameOk: NameCheck)
    requires CentralOk(c, nameOk) && cursor + |CentralBytes(c)| <= |b|
    requires b[cursor..cursor + |CentralBytes(c)|] == CentralBytes(c)
    ensures ParseCentral(b, cursor, nameOk) == Ok((c, cursor + |CentralBytes(c)|))
  {
    hide Unpack, Pack, FitAll, Total;
    CentralTotal();
    var fixed := b[cursor..cursor + CENTRAL_BYTES];
    var record := b[cursor..cursor + |CentralBytes(c)|];
    assert fixed == record[..CENTRAL_BYTES] == Pack(CENTRAL_WIDTHS, CentralFields(c));
    UnpackOfPack(CENTRAL_WIDTHS, CentralFields(c));
    assert b[cursor + CENTRAL_BYTES..cursor + CENTRAL_BYTES + |c.name|] == record[CENTRAL_BYTES..] == c.name;
  }

  function Centrals(cs: seq<Central>): Data {
    if cs == [] then [] else Centrals(cs[..|cs| - 1]) + CentralBytes(cs[|cs| - 1])
  }

  ghost predicate IsDirectory(central: Data, count: nat, cs: seq<Central>, nameOk: NameCheck) {
    && |cs| == count && Centrals(cs) == central
    && forall i :: 0 <= i < |cs| ==> CentralOk(cs[i], nameOk)
  }

  lemma {:induction false} CentralsPrefix(cs: seq<Central>, n: nat)
    requires n <= |cs|
    ensures |Centrals(cs[..n])| <= |Centrals(cs)|
    ensures Centrals(cs)[..|Centrals(cs[..n])|] == Centrals(cs[..n])
    decreases |cs| - n
  {
    hide CentralBytes;
    if n == |cs| {
      assert cs[..n] == cs;
    } else {
      CentralsPrefix(cs, n + 1);
      assert cs[..n + 1][..n] == cs[..n];
      assert Centrals(cs[..n + 1]) == Centrals(cs[..n]) + CentralBytes(cs[n]);
    }
  }

  /** The next record of any directory with these bytes is the one the parser reads. */
  lemma NextRecord(cs: seq<Central>, n: nat, nameOk: NameCheck)
    requires n < |cs| && CentralOk(cs[n], nameOk)
    ensures |Centrals(cs[..n])| <= |Centrals(cs)|
    ensures ParseCentral(Centrals(cs), |Centrals(cs[..n])|, nameOk) == Ok((cs[n], |Centrals(cs[..n + 1])|))
  {
    hide CentralBytes, CentralOk, ParseCentral;
    CentralsPrefix(cs, n);
    CentralsPrefix(cs, n + 1);
    assert cs[..n + 1][..n] == cs[..n];
    var b, from, to := Centrals(cs), |Centrals(cs[..n])|, |Centrals(cs[..n + 1])|;
    assert b[from..to] == b[..to][from..] == CentralBytes(cs[n]);
    ParseCentralComplete(b, from, cs[n], nameOk);
  }

  /** The record loop accepts exactly the bytes of one directory of that many records, and returns it. */
  method ReadZipCentralRecords(central: Data, count: nat, nameOk: NameCheck) returns (r: Result<seq<Central>, ZipError>)
    ensures r.Ok? ==> IsDirectory(central, count, r.value, nameOk)
    ensures forall cs :: IsDirectory(central, count, cs, nameOk) ==> r == Ok(cs)
  {
    hide CentralBytes, CentralOk, ParseCentral;
    var records: seq<Central> := [];
    var cursor := 0;
    var i := 0;
    while i < count
      invariant i <= count && |records| == i && cursor <= |central|
      invariant Centrals(records) == central[..cursor]
      invariant forall k :: 0 <= k < i ==> CentralOk(records[k], nameOk)
      invariant forall cs :: IsDirectory(central, count, cs, nameOk) ==> cs[..i] == records
    {
      var parsed := ParseCentral(central, cursor, nameOk);
      forall cs | IsDirectory(central, count, cs, nameOk)
        ensures parsed.Ok? && cs[i] == parsed.value.0
      {
        NextRecord(cs, i, nameOk);
        assert Centrals(cs[..i]) == central[..cursor];
      }
      if parsed.Err? {
        return Err(parsed.error);
      }
      ParseCentralSound(central, cursor, nameOk);
      var (c, next) := parsed.value;
      assert (records + [c])[..i] == records;
      assert central[..next] == central[..cursor] + central[cursor..next];
      forall cs | IsDirectory(central, count, cs, nameOk)
        ensures cs[..i + 1] == records + [c]
      {
        assert cs[..i + 1] == cs[..i] + [cs[i]];
      }
      records := records + [c];
      cursor := next;
      i := i + 1;
    }
    forall cs | IsDirectory(central, count, cs, nameOk)
      ensures cs == records
    {
      assert cs[..count] == cs;
    }
    if cursor != |central| {
      return Err(TrailingRecords);
    }
    assert central[..cursor] == central;
    r := Ok(records);
  }

  // ----- local members

  predicate OffsetLe(a: Central, b: Central) {
    a.localOffset <= b.localOffset
  }

  function LocalHeaderValues(fixed: Data): (v: seq<nat>)
    requires |fixed| == LOCAL_BYTES
    ensures |v| == 11
  {
    hide Unpack, Total;
    LocalTotal();
    Unpack(LOCAL_WIDTHS, fixed)
  }

  /** The checks on one local header and name against its central record. */
  function CheckLocal(file: Data, c: Central): Result<(), ZipError> {
    hide LocalHeaderValues;
    var at := c.localOffset;
    if at + LOCAL_BYTES > |file| then Err(TruncatedLocal)
    else
      var v := LocalHeaderValues(file[at..at + LOCAL_BYTES]);
      if v[0] != LOCAL_SIGNATURE then Err(BadLocalHeader)
      else if (v[2] / 8) % 2 == 1 then Err(DataDescriptor)
      else if v[10] != 0 then Err(UndeclaredMetadata)
      else if at + LOCAL_BYTES + v[9] > |file| then Err(TruncatedLocal)
      else
        var name := file[at + LOCAL_BYTES..at + LOCAL_BYTES + v[9]];
        if v[1..9] == [c.versionNeeded, c.flags, c.compression, c.dosTime, c.dosDate, c.crc, c.compressedSize, c.uncompressedSize]
           && name == c.name
        then Ok(())
        else Err(Disagrees)
  }

  /** The member's header and name stand at its offset, under refusals of its own. */
  predicate LocalGood(file: Data, c: Central) {
    && c.localOffset + |LocalHeader(c)| <= |file|
    && file[c.localOffset..c.localOffset + |LocalHeader(c)|] == LocalHeader(c)
    && FitAll(LOCAL_WIDTHS, LocalFields(c))
    && (c.flags / 8) % 2 == 0
  }

  lemma LocalFieldsByIndex(v: seq<nat>, c: Central)
    requires |v| == 11 && v[0] == LOCAL_SIGNATURE && v[10] == 0 && v[9] == |c.name|
    requires v[1..9] == [c.versionNeeded, c.flags, c.compression, c.dosTime, c.dosDate, c.crc, c.compressedSize, c.uncompressedSize]
    ensures v == LocalFields(c)
  {
    assert v == [v[0]] + v[1..9] + [v[9], v[10]];
  }

  lemma CheckLocalSound(file: Data, c: Central)
    requires CheckLocal(file, c).Ok?
    ensures LocalGood(file, c)
  {
    hide Unpack, Pack, FitAll, Total;
    LocalTotal();
    var at := c.localOffset;
    var fixed := file[at..at + LOCAL_BYTES];
    PackOfUnpack(LOCAL_WIDTHS, fixed);
    LocalFieldsByIndex(LocalHeaderValues(fixed), c);
    assert file[at..at + LOCAL_BYTES + |c.name|] == fixed + file[at + LOCAL_BYTES..at + LOCAL_BYTES + |c.name|];
  }

  lemma CheckLocalComplete(file: Data, c: Central)
    requires LocalGood(file, c)
    ensures CheckLocal(file, c).Ok?
  {
    hide Unpack, Pack, FitAll, Total;
    LocalTotal();
    var at := c.localOffset;
    var header := file[at..at + |LocalHeader(c)|];
    assert file[at..at + LOCAL_BYTES] == header[..LOCAL_BYTES] == Pack(LOCAL_WIDTHS, LocalFields(c));
    UnpackOfPack(LOCAL_WIDTHS, LocalFields(c));
    assert file[at + LOCAL_BYTES..at + LOCAL_BYTES + |c.name|] == header[LOCAL_BYTES..] == c.name;
  }

  /** The local check passes exactly when header and name are, byte for byte, those of the central record. */
  lemma CheckLocalIff(file: Data, c: Central)
    ensures CheckLocal(file, c).Ok? <==> LocalGood(file, c)
  {
    hide CheckLocal, LocalGood;
    if CheckLocal(file, c).Ok? {
      CheckLocalSound(file, c);
    }
    if LocalGood(file, c) {
      CheckLocalComplete(file, c);
    }
  }

  /** Bytes taken by the local members: header, name and payload each. */
  function Extent(cs: seq<Central>): nat {
    if cs == [] then 0
    else Extent(cs[..|cs| - 1]) + LOCAL_BYTES + |cs[|cs| - 1].name| + cs[|cs| - 1].compressedSize
  }

  /** Members follow each other from byte zero to the end without gap or overlap. */
  ghost predicate Tiled(file: Data, cs: seq<Central>, end: nat) {
    && Extent(cs) == end <= |file|
    && forall k :: 0 <= k < |cs| ==> cs[k].localOffset == Extent(cs[..k]) && LocalGood(file, cs[k])
  }

  lemma {:induction false} ExtentGrows(cs: seq<Central>, i: nat, j: nat)
    requires i < j <= |cs|
    ensures Extent(cs[..i]) + LOCAL_BYTES + |cs[i].name| + cs[i].compressedSize <= Extent(cs[..j])
    decreases j
  {
    assert cs[..j][..j - 1] == cs[..j - 1];
    if i < j - 1 {
      ExtentGrows(cs, i, j - 1);
    }
  }

  lemma ExtentStep(cs: seq<Central>, i: nat)
    requires i < |cs|
    ensures Extent(cs[..i + 1]) == Extent(cs[..i]) + LOCAL_BYTES + |cs[i].name| + cs[i].compressedSize
    ensures Extent(cs[..i + 1]) <= Extent(cs)
  {
    assert cs[..i + 1][..i] == cs[..i];
    assert cs[..|cs|] == cs;
    if i + 1 < |cs| {
      ExtentGrows(cs, i + 1, |cs|);
    }
  }

  function Offsets(cs: seq<Central>): set<nat> {
    set c | c in cs :: c.localOffset
  }

  method VerifyZipLocalLayout(file: Data, centralOffset: nat, central: seq<Central>) returns (r: Result<(), ZipError>)
    requires centralOffset <= |file|
    ensures r.Ok? <==> Tiled(file, SortBy(OffsetLe, central), centralOffset)
  {
    hide CheckLocal, LocalGood, SortBy, Extent;
    var ordered := SortBy(OffsetLe, central);
    if |Offsets(ordered)| != |ordered| {
      if Tiled(file, ordered, centralOffset) {
        TiledOffsetsDistinct(file, ordered, centralOffset);
      }
      return Err(DuplicateOffsets);
    }
    var expected := 0;
    var i := 0;
    assert Extent(ordered[..0]) == 0 by { EmptyExtent(ordered); }
    while i < |ordered|
      invariant i <= |ordered| && expected == Extent(ordered[..i]) <= centralOffset
      invariant forall k :: 0 <= k < i ==> ordered[k].localOffset == Extent(ordered[..k]) && LocalGood(file, ordered[k])
    {
      var c := ordered[i];
      if c.localOffset != expected {
        return Err(GapOrOverlap);
      }
      CheckLocalIff(file, c);
      var checked := CheckLocal(file, c);
      if checked.Err? {
        return checked;
      }
      ExtentStep(ordered, i);
      expected := c.localOffset + LOCAL_BYTES + |c.name| + c.compressedSize;
      if expected > centralOffset {
        return Err(BadBounds);
      }
      i := i + 1;
    }
    assert ordered[..i] == ordered;
    if expected != centralOffset {
      return Err(BadBounds);
    }
    r := Ok(());
  }

  lemma EmptyExtent(cs: seq<Central>)
    ensures Extent(cs[..0]) == 0
  {
  }

  lemma {:induction false} TiledOffsetsDistinct(file: Data, cs: seq<Central>, end: nat)
    requires Tiled(file, cs, end)
    ensures |Offsets(cs)| == |cs|
  {
    hide LocalGood, Offsets;
    OffsetsCount(cs, |cs|);
    assert cs[..|cs|] == cs;
  }

  lemma EarlierOffsets(cs: seq<Central>, n: nat)
    requires 0 < n <= |cs| && forall k :: 0 <= k < |cs| ==> cs[k].localOffset == Extent(cs[..k])
    ensures cs[n - 1].localOffset !in Offsets(cs[..n - 1])
  {
    hide Extent;
    forall c | c in cs[..n - 1]
      ensures c.localOffset < cs[n - 1].localOffset
    {
      var k :| 0 <= k < n - 1 && cs[k] == c;
      ExtentGrows(cs, k, n - 1);
    }
  }

  lemma {:induction false} OffsetsCount(cs: seq<Central>, n: nat)
    requires n <= |cs| && forall k :: 0 <= k < |cs| ==> cs[k].localOffset == Extent(cs[..k])
    ensures |Offsets(cs[..n])| == n
  {
    hide Extent;
    if n > 0 {
      OffsetsCount(cs, n - 1);
      EarlierOffsets(cs, n);
      var before := Offsets(cs[..n - 1]);
      assert cs[..n] == cs[..n - 1] + [cs[n - 1]];
      assert Offsets(cs[..n]) == before + {cs[n - 1].localOffset};
      assert |before + {cs[n - 1].localOffset}| == |before| + 1;
    } else {
      assert Offsets(cs[..n]) == {};
    }
  }

  // ----- the end record

  predicate MarkerAt(b: Data, k: int) {
    0 <= k && k + 4 <= |b| && b[k..k + 4] == MARKER
  }

  function RFind(tail: Data, from: int): (r: int)
    requires from + 4 <= |tail|
    ensures -1 <= r <= Max(from, -1)
    ensures r >= 0 ==> MarkerAt(tail, r)
    ensures forall k :: 0 <= k <= from && MarkerAt(tail, k) ==> k <= r
    decreases from + 1
  {
    if from < 0 then -1 else if MarkerAt(tail, from) then from else RFind(tail, from - 1)
  }

  function EndValues(fixed: Data): (v: seq<nat>)
    requires |fixed| == END_BYTES
    ensures |v| == 8
  {
    hide Unpack, Total;
    EndTotal();
    Unpack(END_WIDTHS, fixed)
  }

  function Preflight(file: Data): Result<EndRecord, ZipError> {
    hide EndValues, RFind;
    var tailSize := Min(|file|, END_BYTES + MAX_COMMENT);
    var tail := file[|file| - tailSize..];
    var offset := RFind(tail, |tail| - 4);
    if offset < 0 || |tail| - offset < END_BYTES then Err(NoEndRecord)
    else
      var v := EndValues(tail[offset..offset + END_BYTES]);
      if v[0] != END_SIGNATURE || v[7] != 0 || v[7] != |tail| - offset - END_BYTES then Err(BadEndRecord)
      else if v[1] != 0 || v[2] != 0 || v[3] != v[4] || v[4] == 0 || v[4] == 0xFFFF || v[5] == ZIP64 || v[6] == ZIP64 then
        Err(Unsupported)
      else if v[4] > MAX_MEMBERS then Err(TooManyMembers)
      else if v[6] + v[5] != |file| - tailSize + offset then Err(BadBounds)
      else Ok(EndRecord(v[4], v[6], v[5]))
  }

  ghost predicate NoLateMarker(b: Data) {
    forall k :: 1 <= k ==> !MarkerAt(b, k)
  }

  predicate EndOk(e: EndRecord) {
    && FitAll(END_WIDTHS, EndFields(e)) && 1 <= e.memberCount <= 4096
    && e.centralSize != 0xFFFFFFFF && e.centralOffset != 0xFFFFFFFF
  }

  ghost predicate EndsWith(file: Data, e: EndRecord) {
    && EndOk(e) && e.centralOffset + e.centralSize + END_BYTES == |file|
    && file[|file| - END_BYTES..] == EndBytes(e)
  }

  lemma PreflightSound(file: Data)
    requires Preflight(file).Ok?
    ensures EndsWith(file, Preflight(file).value)
  {
    hide Unpack, Pack, FitAll, Total, RFind;
    EndTotal();
    var tailSize := Min(|file|, END_BYTES + MAX_COMMENT);
    var tail := file[|file| - tailSize..];
    var offset := RFind(tail, |tail| - 4);
    var fixed := tail[offset..offset + END_BYTES];
    PackOfUnpack(END_WIDTHS, fixed);
    var v := EndValues(fixed);
    assert EndFields(Preflight(file).value) == v;
    assert file[|file| - END_BYTES..] == fixed;
  }

  lemma EndStartsWithMarker(e: EndRecord)
    ensures EndBytes(e)[..4] == MARKER
  {
    hide EndBytes, Le;
    EndLayout(e);
  }

  lemma SignatureBytes()
    ensures Le(END_SIGNATURE, 4) == MARKER
  {
    assert ReadLe(MARKER) == END_SIGNATURE by {
      assert MARKER[1..] == [0x4b, 0x05, 0x06] && MARKER[1..][1..] == [0x05, 0x06] && MARKER[1..][1..][1..] == [0x06];
      assert MARKER[1..][1..][1..][1..] == [];
      assert ReadLe([0x06]) == 6;
      assert ReadLe([0x05, 0x06]) == 5 + 256 * ReadLe([0x06]);
      assert ReadLe([0x4b, 0x05, 0x06]) == 0x4b + 256 * ReadLe([0x05, 0x06]);
    }
    LeOfRead(MARKER);
  }

  /** The last 22 bytes of a file are the last 22 bytes of its tail. */
  lemma EndOfTail(file: Data, tail: Data, b: Data)
    requires END_BYTES == |b| <= |tail| <= |file| && tail == file[|file| - |tail|..] && file[|file| - END_BYTES..] == b
    ensures tail[|tail| - END_BYTES..] == b && tail[|tail| - END_BYTES..|tail| - END_BYTES + END_BYTES] == b
  {
  }

  /** The search meets the marker of the end record before any other. */
  lemma LastMarker(tail: Data, b: Data)
    requires END_BYTES == |b| <= |tail| && tail[|tail| - END_BYTES..] == b
    requires b[..4] == MARKER && NoLateMarker(b)
    ensures RFind(tail, |tail| - 4) == |tail| - END_BYTES
  {
    hide RFind;
    var last := |tail| - END_BYTES;
    assert tail[last..last + 4] == b[..4];
    assert MarkerAt(tail, last);
    forall k | last < k <= |tail| - 4
      ensures !MarkerAt(tail, k)
    {
      assert !MarkerAt(b, k - last);
      assert b[k - last..k - last + 4] == tail[k..k + 4];
    }
  }

  lemma PreflightComplete(file: Data, e: EndRecord)
    requires EndsWith(file, e) && NoLateMarker(EndBytes(e))
    ensures Preflight(file) == Ok(e)
  {
    hide Unpack, Pack, FitAll, Total, RFind, EndBytes, EndValues, MarkerAt, NoLateMarker;
    var tailSize := Min(|file|, END_BYTES + MAX_COMMENT);
    var tail := file[|file| - tailSize..];
    EndOfTail(file, tail, EndBytes(e));
    EndStartsWithMarker(e);
    LastMarker(tail, EndBytes(e));
    EndReads(e);
  }

  lemma EndReads(e: EndRecord)
    requires EndOk(e)
    ensures EndValues(EndBytes(e)) == EndFields(e)
  {
    hide Unpack, Pack, FitAll, Total;
    UnpackOfPack(END_WIDTHS, EndFields(e));
  }

  /** Below the container ceiling the end record cannot contain a second marker, so the backward search is exact. */
  lemma NoMarkerInEnd(e: EndRecord)
    requires EndOk(e) && e.centralSize < 0x1000000 && e.centralOffset < 0x1000000
    ensures NoLateMarker(EndBytes(e))
  {
    hide Pack, FitAll, Total, Le;
    var n, z, o := Le(e.memberCount, 2), Le(e.centralSize, 4), Le(e.centralOffset, 4);
    EndLayout(e);
    CountBytes(e.memberCount);
    SmallWord(e.centralSize);
    SmallWord(e.centralOffset);
    ZeroHalf();
    var b := EndBytes(e);
    assert b[4] == 0 && b[5] == 0 && b[6] == 0 && b[7] == 0;
    assert b[9] == n[1] && b[11] == n[1];
    assert b[15] == z[3] == 0 && b[19] == o[3] == 0 && b[20] == 0 && b[21] == 0;
    assert b[1] == 0x4b && b[2] == 0x05 && b[3] == 0x06;
    hide EndBytes, MarkerAt;
    forall k | 1 <= k
      ensures !MarkerAt(b, k)
    {
      MarkerBytes(b, k);
    }
  }

  lemma MarkerBytes(b: Data, k: nat)
    ensures MarkerAt(b, k) ==> b[k] == 0x50 && b[k + 1] == 0x4b && b[k + 2] == 0x05 && b[k + 3] == 0x06
  {
    if MarkerAt(b, k) {
      var m := b[k..k + 4];
      assert m[0] == b[k] && m[1] == b[k + 1] && m[2] == b[k + 2] && m[3] == b[k + 3];
    }
  }

  lemma ZeroHalf()
    ensures Le(0, 2) == [0, 0]
  {
    assert Le(0, 1) == [0] + Le(0, 0);
    assert Le(0, 2) == [0] + Le(0, 1);
  }

  lemma CountBytes(n: nat)
    requires n <= MAX_MEMBERS
    ensures Le(n, 2)[1] <= 16
  {
    assert Le(n, 2)[1] == Le(n / 256, 1)[0] == (n / 256) % 256;
  }

  lemma SmallWord(n: nat)
    requires n < 0x1000000
    ensures Le(n, 4)[3] == 0
  {
    assert Le(n, 4)[3] == Le(n / 256, 3)[2] == Le(n / 256 / 256, 2)[1] == Le(n / 256 / 256 / 256, 1)[0];
    assert n / 256 < 0x10000 && n / 256 / 256 < 0x100 && n / 256 / 256 / 256 == 0;
  }

  lemma {:induction false} PackConcat(w1: seq<nat>, w2: seq<nat>, f1: seq<nat>, f2: seq<nat>)
    requires |w1| == |f1| && |w2| == |f2|
    ensures Pack(w1 + w2, f1 + f2) == Pack(w1, f1) + Pack(w2, f2)
  {
    hide Le;
    if w1 == [] {
      assert w1 + w2 == w2 && f1 + f2 == f2;
    } else {
      assert (w1 + w2)[1..] == w1[1..] + w2 && (f1 + f2)[1..] == f1[1..] + f2;
      PackConcat(w1[1..], w2, f1[1..], f2);
    }
  }

  lemma PackTwo(w: nat, x: nat, f: nat, g: nat)
    ensures Pack([w, x], [f, g]) == Le(f, w) + Le(g, x)
  {
    hide Le;
    assert [w, x][1..] == [x] && [f, g][1..] == [g] && [x][1..] == [] && [g][1..] == [];
    assert Pack([x], [g]) == Le(g, x) + Pack([], []);
  }

  lemma PackFour(w: seq<nat>, f: seq<nat>)
    requires |w| == |f| == 4
    ensures Pack(w, f) == Le(f[0], w[0]) + Le(f[1], w[1]) + (Le(f[2], w[2]) + Le(f[3], w[3]))
  {
    hide Le, Pack;
    assert w == [w[0], w[1]] + [w[2], w[3]] && f == [f[0], f[1]] + [f[2], f[3]];
    PackConcat([w[0], w[1]], [w[2], w[3]], [f[0], f[1]], [f[2], f[3]]);
    PackTwo(w[0], w[1], f[0], f[1]);
    PackTwo(w[2], w[3], f[2], f[3]);
  }

  lemma EndLayout(e: EndRecord)
    ensures EndBytes(e) == ([0x50, 0x4b, 0x05, 0x06] + Le(0, 2) + (Le(0, 2) + Le(e.memberCount, 2)))
                           + (Le(e.memberCount, 2) + Le(e.centralSize, 4) + (Le(e.centralOffset, 4) + Le(0, 2)))
  {
    hide Le, FitAll, Total, Pack;
    SignatureBytes();
    var w1: seq<nat>, w2: seq<nat> := [4, 2, 2, 2], [2, 4, 4, 2];
    var f1 := [END_SIGNATURE, 0, 0, e.memberCount];
    var f2 := [e.memberCount, e.centralSize, e.centralOffset, 0];
    PackConcat(w1, w2, f1, f2);
    PackFour(w1, f1);
    PackFour(w2, f2);
    assert w1 + w2 == END_WIDTHS && f1 + f2 == EndFields(e);
  }

  lemma PackOne(w: nat, f: nat)
    ensures Pack([w], [f]) == Le(f, w)
  {
    hide Le;
    assert [w][1..] == [] && [f][1..] == [];
    assert Pack([w], [f]) == Le(f, w) + Pack([], []);
  }

  lemma PackThree(w: seq<nat>, f: seq<nat>)
    requires |w| == |f| == 3
    ensures Pack(w, f) == Le(f[0], w[0]) + Le(f[1], w[1]) + Le(f[2], w[2])
  {
    hide Le, Pack;
    assert w == [w[0], w[1]] + [w[2]] && f == [f[0], f[1]] + [f[2]];
    PackConcat([w[0], w[1]], [w[2]], [f[0], f[1]], [f[2]]);
    PackTwo(w[0], w[1], f[0], f[1]);
    PackOne(w[2], f[2]);
  }

  lemma Signatures()
    ensures Le(CENTRAL_SIGNATURE, 4) == [0x50, 0x4b, 0x01, 0x02] && Le(LOCAL_SIGNATURE, 4) == [0x50, 0x4b, 0x03, 0x04]
  {
    SignatureOf(0x01, 0x02);
    SignatureOf(0x03, 0x04);
  }

  lemma SignatureOf(a: Byte, b: Byte)
    ensures Le(0x50 + 256 * (0x4b + 256 * (a + 256 * b)), 4) == [0x50, 0x4b, a, b]
  {
    var s: Data := [0x50, 0x4b, a, b];
    assert s[1..] == [0x4b, a, b] && s[1..][1..] == [a, b] && s[1..][1..][1..] == [b] && s[1..][1..][1..][1..] == [];
    assert ReadLe([b]) == b;
    assert ReadLe([a, b]) == a + 256 * ReadLe([b]);
    assert ReadLe([0x4b, a, b]) == 0x4b + 256 * ReadLe([a, b]);
    assert ReadLe(s) == 0x50 + 256 * ReadLe([0x4b, a, b]);
    LeOfRead(s);
  }

  /** A two-byte and a four-byte field, lowest byte first. */
  lemma LeExact(n: nat)
    ensures Le(n, 2) == [n % 256, n / 256 % 256]
    ensures Le(n, 4) == [n % 256, n / 256 % 256, n / 256 / 256 % 256, n / 256 / 256 / 256 % 256]
  {
    assert Le(n / 256 / 256 / 256, 1) == [n / 256 / 256 / 256 % 256] + Le(n / 256 / 256 / 256 / 256, 0);
    assert Le(n / 256 / 256, 2) == [n / 256 / 256 % 256] + Le(n / 256 / 256 / 256, 1);
    assert Le(n / 256, 3) == [n / 256 % 256] + Le(n / 256 / 256, 2);
    assert Le(n / 256, 1) == [n / 256 % 256] + Le(n / 256 / 256, 0);
  }

  /** A central record, field by field: PK 1 2, versions, flags, method, time, date, checksum, sizes, name length, no
      extra field, no comment, disk 0, attributes, offset, name. */
  lemma CentralLayout(c: Central)
    ensures CentralBytes(c)
         == ([0x50, 0x4b, 0x01, 0x02] + Le(c.versionMade, 2) + (Le(c.versionNeeded, 2) + Le(c.flags, 2)))
            + (Le(c.compression, 2) + Le(c.dosTime, 2) + (Le(c.dosDate, 2) + Le(c.crc, 4)))
            + (Le(c.compressedSize, 4) + Le(c.uncompressedSize, 4) + (Le(|c.name|, 2) + Le(0, 2)))
            + (Le(0, 2) + Le(0, 2) + (Le(c.internalAttributes, 2) + Le(c.externalAttributes, 4)))
            + Le(c.localOffset, 4) + c.name
  {
    hide Le, FitAll, Total, Pack;
    Signatures();
    var w1: seq<nat>, w2: seq<nat>, w3: seq<nat>, w4: seq<nat> := [4, 2, 2, 2], [2, 2, 2, 4], [4, 4, 2, 2], [2, 2, 2, 4];
    var f1 := [CENTRAL_SIGNATURE, c.versionMade, c.versionNeeded, c.flags];
    var f2 := [c.compression, c.dosTime, c.dosDate, c.crc];
    var f3 := [c.compressedSize, c.uncompressedSize, |c.name|, 0];
    var f4 := [0, 0, c.internalAttributes, c.externalAttributes];
    PackFour(w1, f1);
    PackFour(w2, f2);
    PackFour(w3, f3);
    PackFour(w4, f4);
    PackOne(4, c.localOffset);
    PackConcat(w1, w2, f1, f2);
    PackConcat(w1 + w2, w3, f1 + f2, f3);
    PackConcat(w1 + w2 + w3, w4, f1 + f2 + f3, f4);
    PackConcat(w1 + w2 + w3 + w4, [4], f1 + f2 + f3 + f4, [c.localOffset]);
    assert w1 + w2 + w3 + w4 + [4] == CENTRAL_WIDTHS && f1 + f2 + f3 + f4 + [c.localOffset] == CentralFields(c);
  }

  /** A local header, field by field: PK 3 4, version, flags, method, time, date, checksum, sizes, name length, no extra
      field, name. */
  lemma LocalLayout(c: Central)
    ensures LocalHeader(c)
         == ([0x50, 0x4b, 0x03, 0x04] + Le(c.versionNeeded, 2) + (Le(c.flags, 2) + Le(c.compression, 2)))
            + (Le(c.dosTime, 2) + Le(c.dosDate, 2) + (Le(c.crc, 4) + Le(c.compressedSize, 4)))
            + (Le(c.uncompressedSize, 4) + Le(|c.name|, 2) + Le(0, 2)) + c.name
  {
    hide Le, FitAll, Total, Pack;
    Signatures();
    var w1: seq<nat>, w2: seq<nat>, w3: seq<nat> := [4, 2, 2, 2], [2, 2, 4, 4], [4, 2, 2];
    var f1 := [LOCAL_SIGNATURE, c.versionNeeded, c.flags, c.compression];
    var f2 := [c.dosTime, c.dosDate, c.crc, c.compressedSize];
    var f3 := [c.uncompressedSize, |c.name|, 0];
    PackFour(w1, f1);
    PackFour(w2, f2);
    PackThree(w3, f3);
    PackConcat(w1, w2, f1, f2);
    PackConcat(w1 + w2, w3, f1 + f2, f3);
    assert w1 + w2 + w3 == LOCAL_WIDTHS && f1 + f2 + f3 == LocalFields(c);
  }

  // ----- the whole archive

  /** Directory order, offset order and payloads of an archive. */
  datatype Archive = Archive(central: seq<Central>, ordered: seq<Central>, payloads: seq<Data>)

  type Layout = a: Archive | |a.ordered| == |a.payloads| witness Archive([], [], [])

  function Locals(ordered: seq<Central>, payloads: seq<Data>): Data
    requires |ordered| == |payloads|
  {
    if ordered == [] then []
    else
      var n := |ordered| - 1;
      Locals(ordered[..n], payloads[..n]) + LocalHeader(ordered[n]) + payloads[n]
  }

  ghost predicate Canonical(l: Layout, nameOk: NameCheck) {
    && 1 <= |l.central| <= 4096
    && multiset(l.central) == multiset(l.ordered)
    && (forall k :: 0 <= k < |l.central| ==> CentralOk(l.central[k], nameOk))
    && (forall k :: 0 <= k < |l.ordered| ==>
          && FitAll(LOCAL_WIDTHS, LocalFields(l.ordered[k])) && (l.ordered[k].flags / 8) % 2 == 0
          && |l.payloads[k]| == l.ordered[k].compressedSize
          && l.ordered[k].localOffset == |Locals(l.ordered[..k], l.payloads[..k])|)
  }

  function EndOf(l: Layout): EndRecord
  {
    EndRecord(|l.central|, |Locals(l.ordered, l.payloads)|, |Centrals(l.central)|)
  }

  /** The local members in offset order, the central directory, the end record, and nothing else. */
  function LayoutBytes(l: Layout): Data
  {
    Locals(l.ordered, l.payloads) + Centrals(l.central) + EndBytes(EndOf(l))
  }

  lemma {:induction false} LocalsLength(ordered: seq<Central>, payloads: seq<Data>)
    requires |ordered| == |payloads| && forall k :: 0 <= k < |ordered| ==> |payloads[k]| == ordered[k].compressedSize
    ensures |Locals(ordered, payloads)| == Extent(ordered)
  {
    hide LocalHeader;
    if ordered != [] {
      var n := |ordered| - 1;
      LocalsLength(ordered[..n], payloads[..n]);
    }
  }

  lemma {:induction false} LocalsPrefix(ordered: seq<Central>, payloads: seq<Data>, n: nat)
    requires |ordered| == |payloads| && n <= |ordered|
    ensures |Locals(ordered[..n], payloads[..n])| <= |Locals(ordered, payloads)|
    ensures Locals(ordered, payloads)[..|Locals(ordered[..n], payloads[..n])|] == Locals(ordered[..n], payloads[..n])
    decreases |ordered| - n
  {
    hide LocalHeader;
    if n == |ordered| {
      assert ordered[..n] == ordered && payloads[..n] == payloads;
    } else {
      LocalsPrefix(ordered, payloads, n + 1);
      assert ordered[..n + 1][..n] == ordered[..n] && payloads[..n + 1][..n] == payloads[..n];
    }
  }

  /** The payload bytes a tiled file holds for each member. */
  function PayloadsOf(file: Data, cs: seq<Central>): (p: seq<Data>)
    ensures |p| == |cs|
  {
    seq(|cs|, k requires 0 <= k < |cs| => PayloadOf(file, cs[k]))
  }

  function PayloadOf(file: Data, c: Central): Data {
    var from := c.localOffset + LOCAL_BYTES + |c.name|;
    if from + c.compressedSize <= |file| then file[from..from + c.compressedSize] else []
  }

  lemma MemberBytes(file: Data, c: Central)
    requires LocalGood(file, c) && c.localOffset + LOCAL_BYTES + |c.name| + c.compressedSize <= |file|
    ensures var end := c.localOffset + LOCAL_BYTES + |c.name| + c.compressedSize;
            file[..end] == file[..c.localOffset] + LocalHeader(c) + PayloadOf(file, c)
    ensures |PayloadOf(file, c)| == c.compressedSize
  {
    hide LocalHeader, FitAll;
    var end := c.localOffset + LOCAL_BYTES + |c.name| + c.compressedSize;
    var mid := c.localOffset + LOCAL_BYTES + |c.name|;
    assert file[..end] == file[..c.localOffset] + file[c.localOffset..mid] + file[mid..end];
  }

  lemma {:induction false} TiledIsLocals(file: Data, cs: seq<Central>, n: nat)
    requires Tiled(file, cs, Extent(cs)) && n <= |cs|
    ensures Extent(cs[..n]) <= |file|
    ensures Locals(cs[..n], PayloadsOf(file, cs)[..n]) == file[..Extent(cs[..n])]
    ensures forall k :: 0 <= k < n ==> |PayloadsOf(file, cs)[k]| == cs[k].compressedSize
  {
    hide LocalHeader, LocalGood, Extent, PayloadOf;
    if n == 0 {
      EmptyExtent(cs);
    } else {
      var p := PayloadsOf(file, cs);
      TiledIsLocals(file, cs, n - 1);
      ExtentStep(cs, n - 1);
      MemberBytes(file, cs[n - 1]);
      assert cs[..n][..n - 1] == cs[..n - 1] && p[..n][..n - 1] == p[..n - 1];
    }
  }

  lemma CanonicalOffset(l: Layout, nameOk: NameCheck, k: nat)
    requires Canonical(l, nameOk) && k < |l.ordered|
    ensures l.ordered[k].localOffset == Extent(l.ordered[..k])
  {
    hide FitAll, Extent, CentralOk, Locals;
    LocalsLength(l.ordered[..k], l.payloads[..k]);
  }

  lemma HeaderInLocals(l: Layout, nameOk: NameCheck, k: nat)
    requires Canonical(l, nameOk) && k < |l.ordered|
    ensures var at := l.ordered[k].localOffset;
            var end := at + |LocalHeader(l.ordered[k])|;
            end <= |Locals(l.ordered, l.payloads)| && Locals(l.ordered, l.payloads)[at..end] == LocalHeader(l.ordered[k])
  {
    hide FitAll, CentralOk, LocalHeader, Locals;
    LocalsPrefix(l.ordered, l.payloads, k + 1);
    LocalsStep(l, k);
    var c := l.ordered[k];
    var before := Locals(l.ordered[..k], l.payloads[..k]);
    var upTo := Locals(l.ordered[..k + 1], l.payloads[..k + 1]);
    assert |before| == c.localOffset;
    var end := |before| + |LocalHeader(c)|;
    assert upTo[|before|..end] == LocalHeader(c);
    assert Locals(l.ordered, l.payloads)[..|upTo|][|before|..end] == upTo[|before|..end];
  }

  lemma GoodInPrefix(a: Data, b: Data, c: Central)
    requires LocalGood(a, c)
    ensures LocalGood(a + b, c)
  {
    hide LocalHeader, FitAll, LocalFields;
    PrefixSlice(a, b, c.localOffset, c.localOffset + |LocalHeader(c)|);
  }

  lemma GoodInLocals(l: Layout, nameOk: NameCheck, k: nat)
    requires Canonical(l, nameOk) && k < |l.ordered|
    ensures LocalGood(Locals(l.ordered, l.payloads), l.ordered[k])
  {
    hide FitAll, LocalHeader, LocalFields, Locals, Canonical;
    HeaderInLocals(l, nameOk, k);
    CanonicalFields(l, nameOk, k);
  }

  lemma CanonicalIsTiled(l: Layout, nameOk: NameCheck, k: nat)
    requires Canonical(l, nameOk) && k < |l.ordered|
    ensures l.ordered[k].localOffset == Extent(l.ordered[..k])
    ensures LocalGood(LayoutBytes(l), l.ordered[k])
  {
    hide Canonical, LocalGood, Locals, Centrals, EndBytes, EndOf, Extent;
    CanonicalOffset(l, nameOk, k);
    GoodInLocals(l, nameOk, k);
    GoodInPrefix(Locals(l.ordered, l.payloads), Centrals(l.central) + EndBytes(EndOf(l)), l.ordered[k]);
    assert LayoutBytes(l) == Locals(l.ordered, l.payloads) + (Centrals(l.central) + EndBytes(EndOf(l)));
  }

  lemma CanonicalFields(l: Layout, nameOk: NameCheck, k: nat)
    requires Canonical(l, nameOk) && k < |l.ordered|
    ensures FitAll(LOCAL_WIDTHS, LocalFields(l.ordered[k])) && (l.ordered[k].flags / 8) % 2 == 0
  {
    hide FitAll, CentralOk, Locals, LocalFields;
  }

  lemma PrefixSlice(a: Data, b: Data, i: nat, j: nat)
    requires i <= j <= |a|
    ensures (a + b)[i..j] == a[i..j]
  {
  }

  lemma LocalsStep(l: Layout, k: nat)
    requires k < |l.ordered|
    ensures Locals(l.ordered[..k + 1], l.payloads[..k + 1])
         == Locals(l.ordered[..k], l.payloads[..k]) + LocalHeader(l.ordered[k]) + l.payloads[k]
  {
    hide LocalHeader;
    assert l.ordered[..k + 1][..k] == l.ordered[..k] && l.payloads[..k + 1][..k] == l.payloads[..k];
  }

  lemma OffsetOrderTotal()
    ensures TotalOn(OffsetLe)
  {
  }

  /** A canonical layout's offset order is the one the verifier sorts into, whatever the directory order. */
  lemma OrderedIsSorted(l: Layout, nameOk: NameCheck)
    requires Canonical(l, nameOk)
    ensures SortBy(OffsetLe, l.central) == l.ordered
  {
    hide FitAll, CentralOk, Extent, Locals;
    OffsetOrderTotal();
    forall i, j | 0 <= i < j < |l.ordered|
      ensures l.ordered[i].localOffset < l.ordered[j].localOffset
    {
      CanonicalIsTiled(l, nameOk, i);
      CanonicalIsTiled(l, nameOk, j);
      ExtentGrows(l.ordered, i, j);
    }
    SortBySorted(OffsetLe, l.central);
    assert Separates(OffsetLe, multiset(l.ordered)) by {
      forall x, y | x in multiset(l.ordered) && y in multiset(l.ordered) && OffsetLe(x, y) && OffsetLe(y, x)
        ensures x == y
      {
        var i :| 0 <= i < |l.ordered| && l.ordered[i] == x;
        var j :| 0 <= j < |l.ordered| && l.ordered[j] == y;
      }
    }
    SortedUnique(OffsetLe, SortBy(OffsetLe, l.central), l.ordered);
  }

  /** The members with their payloads read back from a tiled file. */
  function LayoutOf(file: Data, central: seq<Central>): Layout
  {
    var ordered := SortBy(OffsetLe, central);
    Archive(central, ordered, PayloadsOf(file, ordered))
  }

  lemma TiledIsCanonical(file: Data, e: EndRecord, central: seq<Central>, nameOk: NameCheck)
    requires EndsWith(file, e)
    requires IsDirectory(file[e.centralOffset..e.centralOffset + e.centralSize], e.memberCount, central, nameOk)
    requires Tiled(file, SortBy(OffsetLe, central), e.centralOffset)
    ensures Canonical(LayoutOf(file, central), nameOk) && LayoutBytes(LayoutOf(file, central)) == file
  {
    hide FitAll, CentralOk, LocalHeader, EndBytes, Centrals, Locals, SortBy, LocalGood, EndOk, PayloadsOf, LocalFields;
    var l := LayoutOf(file, central);
    var n := |l.ordered|;
    TiledIsLocals(file, l.ordered, n);
    assert l.ordered[..n] == l.ordered && l.payloads[..n] == l.payloads;
    forall k | 0 <= k < n
      ensures FitAll(LOCAL_WIDTHS, LocalFields(l.ordered[k])) && (l.ordered[k].flags / 8) % 2 == 0
      ensures l.ordered[k].localOffset == |Locals(l.ordered[..k], l.payloads[..k])|
    {
      GoodFields(file, l.ordered[k]);
      TiledIsLocals(file, l.ordered, k);
    }
    DirectoryCount(e, central, file, nameOk);
    var mid, end := e.centralOffset, e.centralOffset + e.centralSize;
    assert EndOf(l) == e;
    assert file == file[..mid] + file[mid..end] + file[end..];
  }

  lemma GoodFields(file: Data, c: Central)
    requires LocalGood(file, c)
    ensures FitAll(LOCAL_WIDTHS, LocalFields(c)) && (c.flags / 8) % 2 == 0
  {
    hide FitAll, LocalHeader, LocalFields;
  }

  lemma DirectoryCount(e: EndRecord, central: seq<Central>, file: Data, nameOk: NameCheck)
    requires EndsWith(file, e)
    requires IsDirectory(file[e.centralOffset..e.centralOffset + e.centralSize], e.memberCount, central, nameOk)
    ensures 1 <= |central| <= MAX_MEMBERS
  {
    hide FitAll, CentralOk, EndBytes, Centrals;
  }

  lemma CanonicalPassesParts(l: Layout, nameOk: NameCheck)
    requires Canonical(l, nameOk) && |LayoutBytes(l)| <= MAX_CONTAINER_BYTES
    ensures EndsWith(LayoutBytes(l), EndOf(l)) && Preflight(LayoutBytes(l)) == Ok(EndOf(l))
    ensures var e := EndOf(l);
            && LayoutBytes(l)[e.centralOffset..e.centralOffset + e.centralSize] == Centrals(l.central)
            && Tiled(LayoutBytes(l), SortBy(OffsetLe, l.central), e.centralOffset)
  {
    hide FitAll, CentralOk, LocalHeader, EndBytes, Centrals, Locals, SortBy, LocalGood, Preflight;
    var file, e := LayoutBytes(l), EndOf(l);
    EndFits(e);
    NoMarkerInEnd(e);
    assert file[|file| - END_BYTES..] == EndBytes(e);
    PreflightComplete(file, e);
    OrderedIsSorted(l, nameOk);
    LocalsLength(l.ordered, l.payloads);
    forall k | 0 <= k < |l.ordered|
      ensures l.ordered[k].localOffset == Extent(l.ordered[..k]) && LocalGood(file, l.ordered[k])
    {
      CanonicalIsTiled(l, nameOk, k);
    }
  }

  lemma EndFits(e: EndRecord)
    requires e.memberCount <= MAX_MEMBERS && e.centralSize < 0x1000000 && e.centralOffset < 0x1000000
    ensures FitAll(END_WIDTHS, EndFields(e))
  {
    hide Fits;
    var f, w := EndFields(e), END_WIDTHS;
    SmallFits(e.memberCount);
    WordFits(e.centralSize);
    WordFits(e.centralOffset);
    SmallFits(0);
    WordFits(END_SIGNATURE);
    FitStep(w, f, 0);
    FitStep(w, f, 1);
    FitStep(w, f, 2);
    FitStep(w, f, 3);
    FitStep(w, f, 4);
    FitStep(w, f, 5);
    FitStep(w, f, 6);
    FitStep(w, f, 7);
    assert w[0..] == w && f[0..] == f && w[8..] == [] && f[8..] == [];
    assert FitAll(w[8..], f[8..]);
  }

  lemma FitStep(w: seq<nat>, f: seq<nat>, i: nat)
    requires |w| == |f| && i < |w|
    ensures FitAll(w[i..], f[i..]) <==> Fits(f[i], w[i]) && FitAll(w[i + 1..], f[i + 1..])
  {
    hide Fits;
    assert w[i..][1..] == w[i + 1..] && f[i..][1..] == f[i + 1..];
  }

  lemma SmallFits(n: nat)
    requires n <= MAX_MEMBERS
    ensures Fits(n, 2)
  {
    assert Fits(n / 256 / 256, 0);
    assert Fits(n / 256, 1);
  }

  lemma WordFits(n: nat)
    requires n < 0x100000000
    ensures Fits(n, 4)
  {
    assert n / 256 < 0x1000000 && n / 256 / 256 < 0x10000 && n / 256 / 256 / 256 < 0x100;
    assert Fits(n / 256 / 256 / 256 / 256, 0);
    assert Fits(n / 256 / 256 / 256, 1);
    assert Fits(n / 256 / 256, 2);
    assert Fits(n / 256, 3);
  }

  /**
   * No byte is unaccounted for: under the container ceiling the three checks accept a file exactly
   * when it is a canonical layout's local members in offset order, its central directory and one
   * 22-byte end record - and the directory may list the members in any order.
   */
  method VerifyZip(file: Data, nameOk: NameCheck) returns (r: Result<(), ZipError>)
    ensures r.Ok? <==> |file| <= 16 * 1024 * 1024 && exists l: Layout :: Describes(l, file, nameOk)
  {
    hide Describes, Tiled, Preflight, EndsWith, SortBy, IsDirectory;
    if !(1 <= |file| <= MAX_CONTAINER_BYTES) {
      NeverEmpty(file, nameOk);
      return Err(BadContainerSize);
    }
    AcceptedParts(file, nameOk);
    var end := Preflight(file);
    if end.Err? {
      return Err(end.error);
    }
    var e := end.value;
    PreflightSound(file);
    EndBounds(file, e);
    var directory := ReadZipCentralRecords(file[e.centralOffset..e.centralOffset + e.centralSize], e.memberCount, nameOk);
    if directory.Err? {
      return Err(directory.error);
    }
    r := VerifyZipLocalLayout(file, e.centralOffset, directory.value);
    if r.Ok? {
      TiledIsCanonical(file, e, directory.value, nameOk);
      assert Describes(LayoutOf(file, directory.value), file, nameOk) by { DescribesIt(LayoutOf(file, directory.value), file, nameOk); }
    }
  }

  /** The file is these members, this directory and an end record. */
  ghost predicate Describes(l: Layout, file: Data, nameOk: NameCheck) {
    Canonical(l, nameOk) && LayoutBytes(l) == file
  }

  lemma DescribesIt(l: Layout, file: Data, nameOk: NameCheck)
    requires Canonical(l, nameOk) && LayoutBytes(l) == file
    ensures Describes(l, file, nameOk)
  {
  }

  /** Every description of a file passes each part of the verifier. */
  lemma AcceptedParts(file: Data, nameOk: NameCheck)
    requires |file| <= MAX_CONTAINER_BYTES
    ensures forall l: Layout :: Describes(l, file, nameOk) ==> PartsPass(l, file, nameOk)
  {
    hide Describes, PartsPass;
    forall l: Layout | Describes(l, file, nameOk)
      ensures PartsPass(l, file, nameOk)
    {
      DescribedPasses(l, file, nameOk);
    }
  }

  lemma DescribedParts(l: Layout, file: Data, nameOk: NameCheck)
    requires |file| <= MAX_CONTAINER_BYTES && Describes(l, file, nameOk)
    ensures Preflight(file) == Ok(EndOf(l)) && EndsWith(file, EndOf(l))
    ensures var e := EndOf(l);
            && e.centralOffset + e.centralSize <= |file|
            && IsDirectory(file[e.centralOffset..e.centralOffset + e.centralSize], e.memberCount, l.central, nameOk)
            && Tiled(file, SortBy(OffsetLe, l.central), e.centralOffset)
  {
    hide Canonical, LayoutBytes, EndOf, SortBy, Tiled, IsDirectory, Preflight, EndsWith, Centrals;
    CanonicalPassesParts(l, nameOk);
    CanonicalDirectory(l, nameOk);
    EndBounds(file, EndOf(l));
  }

  lemma DescribedPasses(l: Layout, file: Data, nameOk: NameCheck)
    requires |file| <= MAX_CONTAINER_BYTES && Describes(l, file, nameOk)
    ensures PartsPass(l, file, nameOk)
  {
    hide Canonical, LayoutBytes, EndOf, SortBy, Tiled, IsDirectory, Preflight, EndsWith, Centrals;
    DescribedParts(l, file, nameOk);
    EndBounds(file, EndOf(l));
  }

  ghost predicate PartsPass(l: Layout, file: Data, nameOk: NameCheck) {
    && Preflight(file).Ok?
    && var e := Preflight(file).value;
       && e.centralOffset + e.centralSize <= |file|
       && IsDirectory(file[e.centralOffset..e.centralOffset + e.centralSize], e.memberCount, l.central, nameOk)
       && Tiled(file, SortBy(OffsetLe, l.central), e.centralOffset)
  }

  lemma NeverEmpty(file: Data, nameOk: NameCheck)
    requires !(1 <= |file| <= MAX_CONTAINER_BYTES)
    ensures forall l: Layout :: Describes(l, file, nameOk) ==> |file| > MAX_CONTAINER_BYTES
  {
    hide EndBytes, Locals, Centrals, Canonical;
  }

  lemma EndBounds(file: Data, e: EndRecord)
    requires EndsWith(file, e)
    ensures e.centralOffset + e.centralSize <= |file|
  {
    hide EndBytes, EndOk;
  }

  lemma CanonicalDirectory(l: Layout, nameOk: NameCheck)
    requires Canonical(l, nameOk)
    ensures IsDirectory(Centrals(l.central), EndOf(l).memberCount, l.central, nameOk)
  {
    hide EndBytes, Locals, Centrals, FitAll, CentralOk;
  }

  /** Acceptance does not depend on the order of the central records: any permutation is accepted as well. */
  lemma DirectoryOrderIrrelevant(l: Layout, central: seq<Central>, nameOk: NameCheck)
    requires Canonical(l, nameOk) && multiset(central) == multiset(l.central)
    ensures Canonical(Archive(central, l.ordered, l.payloads), nameOk)
    ensures |LayoutBytes(Archive(central, l.ordered, l.payloads))| == |LayoutBytes(l)|
  {
    hide EndBytes, Locals, CentralOk, FitAll, Centrals, LocalFields;
    PermutedDirectory(l.central, central, nameOk);
    assert |central| == |multiset(central)| == |l.central|;
  }

  lemma PermutedDirectory(a: seq<Central>, b: seq<Central>, nameOk: NameCheck)
    requires multiset(a) == multiset(b) && forall k :: 0 <= k < |a| ==> CentralOk(a[k], nameOk)
    ensures forall k :: 0 <= k < |b| ==> CentralOk(b[k], nameOk)
    ensures |Centrals(a)| == |Centrals(b)|
  {
    hide CentralOk, Centrals;
    forall k | 0 <= k < |b|
      ensures CentralOk(b[k], nameOk)
    {
      assert b[k] in multiset(b);
      var j :| 0 <= j < |a| && a[j] == b[k];
    }
    CentralsLength(a);
    CentralsLength(b);
    LengthsPermute(a, b);
  }

  function Lengths(cs: seq<Central>): nat {
    if cs == [] then 0 else CENTRAL_BYTES + |cs[0].name| + Lengths(cs[1..])
  }

  lemma {:induction false} CentralsLength(cs: seq<Central>)
    ensures |Centrals(cs)| == Lengths(cs)
  {
    hide CentralBytes;
    if cs != [] {
      var n := |cs| - 1;
      CentralsLength(cs[..n]);
      LengthsAppend(cs[..n], cs[n]);
      assert cs == cs[..n] + [cs[n]];
    }
  }

  lemma {:induction false} LengthsAppend(cs: seq<Central>, c: Central)
    ensures Lengths(cs + [c]) == Lengths(cs) + CENTRAL_BYTES + |c.name|
  {
    if cs == [] {
      assert [] + [c] == [c];
      assert Lengths([c]) == CENTRAL_BYTES + |c.name| + Lengths([c][1..]);
    } else {
      assert (cs + [c])[1..] == cs[1..] + [c];
      LengthsAppend(cs[1..], c);
    }
  }

  lemma {:induction false} LengthsWithout(cs: seq<Central>, i: nat)
    requires i < |cs|
    ensures Lengths(cs) == Lengths(Without(cs, i)) + CENTRAL_BYTES + |cs[i].name|
  {
    hide Without;
    if i == 0 {
      WithoutFirst(cs);
    } else {
      LengthsWithout(cs[1..], i - 1);
      WithoutLater(cs, i);
    }
  }

  lemma {:induction false} LengthsPermute(a: seq<Central>, b: seq<Central>)
    requires multiset(a) == multiset(b)
    ensures Lengths(a) == Lengths(b)
    decreases |a|
  {
    hide Without;
    if a == [] {
      assert |b| == |multiset(b)| == 0;
    } else {
      var i := FirstElsewhere(a, b);
      LengthsPermute(a[1..], Without(b, i));
      LengthsWithout(b, i);
    }
  }
}
