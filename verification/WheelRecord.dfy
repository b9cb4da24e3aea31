/** Unpadded URL-safe base64 of the digest field (RFC 4648, sections 3.5 and 5). */
module Base64Url {
  import opened Bytes

  predicate IsSymbol(c: char) {
    'A' <= c <= 'Z' || 'a' <= c <= 'z' || '0' <= c <= '9' || c == '-' || c == '_'
  }

  function Value(c: char): (n: nat)
    requires IsSymbol(c)
    ensures n < 64
  {
    if 'A' <= c <= 'Z' then (c as int) - ('A' as int)
    else if 'a' <= c <= 'z' then 26 + (c as int) - ('a' as int)
    else if '0' <= c <= '9' then 52 + (c as int) - ('0' as int)
    else if c == '-' then 62 else 63
  }

  function Symbol(n: nat): (c: char)
    requires n < 64
    ensures IsSymbol(c) && Value(c) == n
  {
    if n < 26 then (n + 'A' as int) as char
    else if n < 52 then (n - 26 + 'a' as int) as char
    else if n < 62 then (n - 52 + '0' as int) as char
    else if n == 62 then '-' else '_'
  }

  predicate AllSymbols(s: string) {
    forall i :: 0 <= i < |s| ==> IsSymbol(s[i])
  }

  /** The alphabet of RFC 4648, section 5: capitals, small letters, digits, hyphen, underscore. */
  lemma AlphabetExact()
    ensures Symbol(0) == 'A' && Symbol(25) == 'Z' && Symbol(26) == 'a' && Symbol(51) == 'z'
    ensures Symbol(52) == '0' && Symbol(61) == '9' && Symbol(62) == '-' && Symbol(63) == '_'
    ensures forall n :: 0 <= n < 61 && n != 25 && n != 51 ==> (Symbol(n + 1) as int) == (Symbol(n) as int) + 1
    ensures forall c :: IsSymbol(c) <==> exists n :: 0 <= n < 64 && Symbol(n) == c
  {
    forall c | IsSymbol(c)
      ensures exists n :: 0 <= n < 64 && Symbol(n) == c
    {
      SymbolOfValue(c);
    }
  }

  lemma SymbolOfValue(c: char)
    requires IsSymbol(c)
    ensures Symbol(Value(c)) == c
  {
  }

  /** Three bytes as four symbols. */
  function Quad(a: Byte, b: Byte, c: Byte): (s: string)
    ensures |s| == 4 && AllSymbols(s)
  {
    var n := (a * 256 + b) * 256 + c;
    [Symbol(n / 64 / 64 / 64), Symbol(n / 64 / 64 % 64), Symbol(n / 64 % 64), Symbol(n % 64)]
  }

  /** The last two bytes as three symbols, the low two bits of the third zero. */
  function Tail(a: Byte, b: Byte): (s: string)
    ensures |s| == 3 && AllSymbols(s)
  {
    var n := (a * 256 + b) * 4;
    [Symbol(n / 64 / 64), Symbol(n / 64 % 64), Symbol(n % 64)]
  }

  lemma SixBits(q: nat, r: nat)
    requires r < 64
    ensures (q * 64 + r) / 64 == q && (q * 64 + r) % 64 == r
  {
  }

  /** Each symbol stands for six bits, the highest first. */
  lemma QuadBits(a: Byte, b: Byte, c: Byte)
    ensures Quad(a, b, c) == [Symbol(a / 4), Symbol(a % 4 * 16 + b / 16), Symbol(b % 16 * 4 + c / 64), Symbol(c % 64)]
  {
    hide Symbol;
    var n := (a * 256 + b) * 256 + c;
    var x, y, z := a / 4, a % 4 * 16 + b / 16, b % 16 * 4 + c / 64;
    assert n == ((x * 64 + y) * 64 + z) * 64 + c % 64;
    SixBits((x * 64 + y) * 64 + z, c % 64);
    SixBits(x * 64 + y, z);
    SixBits(x, y);
  }

  lemma TailBits(a: Byte, b: Byte)
    ensures Tail(a, b) == [Symbol(a / 4), Symbol(a % 4 * 16 + b / 16), Symbol(b % 16 * 4)]
  {
    hide Symbol;
    var n := (a * 256 + b) * 4;
    var x, y, z := a / 4, a % 4 * 16 + b / 16, b % 16 * 4;
    assert n == (x * 64 + y) * 64 + z;
    SixBits(x * 64 + y, z);
    SixBits(x, y);
  }

  function Triple(s: string): (b: Data)
    requires |s| == 4 && AllSymbols(s)
    ensures |b| == 3
  {
    var n := ((Value(s[0]) * 64 + Value(s[1])) * 64 + Value(s[2])) * 64 + Value(s[3]);
    [n / 256 / 256, n / 256 % 256, n % 256]
  }

  /** The decoder drops the two low bits of a final group of three symbols. */
  function Pair(s: string): (b: Data)
    requires |s| == 3 && AllSymbols(s)
    ensures |b| == 2
  {
    var n := (Value(s[0]) * 64 + Value(s[1])) * 64 + Value(s[2]);
    [n / 4 / 256, n / 4 % 256]
  }

  /** Byte counts that split into groups of three with none or two left over. */
  predicate ByteGroups(n: int) {
    n == 0 || n == 2 || (n >= 3 && ByteGroups(n - 3))
  }

  /** Symbol counts that split into groups of four with none or three left over. */
  predicate SymbolGroups(n: int) {
    n == 0 || n == 3 || (n >= 4 && SymbolGroups(n - 4))
  }

  function Encode(b: Data): (s: string)
    requires ByteGroups(|b|)
    ensures AllSymbols(s) && SymbolGroups(|s|)
  {
    if b == [] then ""
    else if |b| == 2 then Tail(b[0], b[1])
    else Quad(b[0], b[1], b[2]) + Encode(b[3..])
  }

  function Decode(s: string): (b: Data)
    requires AllSymbols(s) && SymbolGroups(|s|)
    ensures ByteGroups(|b|)
  {
    if s == [] then []
    else if |s| == 3 then Pair(s)
    else Triple(s[..4]) + Decode(s[4..])
  }

  lemma DigestGroups()
    ensures ByteGroups(32) && SymbolGroups(43)
  {
    assert ByteGroups(2) && ByteGroups(5) && ByteGroups(8) && ByteGroups(11) && ByteGroups(14) && ByteGroups(17);
    assert ByteGroups(20) && ByteGroups(23) && ByteGroups(26) && ByteGroups(29);
    assert SymbolGroups(3) && SymbolGroups(7) && SymbolGroups(11) && SymbolGroups(15) && SymbolGroups(19);
    assert SymbolGroups(23) && SymbolGroups(27) && SymbolGroups(31) && SymbolGroups(35) && SymbolGroups(39);
  }

  /** Every three bytes become four symbols. */
  lemma {:induction false} EncodedLength(b: Data)
    requires ByteGroups(|b|)
    ensures 3 * |Encode(b)| == 4 * |b| || 3 * |Encode(b)| == 4 * |b| + 1
  {
    hide Quad, Tail;
    if |b| >= 3 {
      EncodedLength(b[3..]);
    }
  }

  lemma ThreeBytes(a: Byte, b: Byte, c: Byte)
    ensures var n := (a * 256 + b) * 256 + c; n / 256 / 256 == a && n / 256 % 256 == b && n % 256 == c
  {
    var n := (a * 256 + b) * 256 + c;
    assert n / 256 == a * 256 + b;
  }

  lemma Sextets(n: nat)
    ensures n == ((n / 64 / 64 / 64 * 64 + n / 64 / 64 % 64) * 64 + n / 64 % 64) * 64 + n % 64
  {
  }

  lemma TripleOfQuad(a: Byte, b: Byte, c: Byte)
    ensures Triple(Quad(a, b, c)) == [a, b, c]
  {
    hide Symbol, Value;
    Sextets((a * 256 + b) * 256 + c);
    ThreeBytes(a, b, c);
  }

  lemma PairOfTail(a: Byte, b: Byte)
    ensures Pair(Tail(a, b)) == [a, b]
  {
    hide Symbol, Value;
    var n := (a * 256 + b) * 4;
    assert n == (n / 64 / 64 * 64 + n / 64 % 64) * 64 + n % 64;
    assert n / 4 == a * 256 + b;
  }

  lemma EncodeStep(b: Data)
    requires ByteGroups(|b|) && |b| >= 3
    ensures ByteGroups(|b[3..]|) && Encode(b) == Quad(b[0], b[1], b[2]) + Encode(b[3..])
  {
    hide Quad, AllSymbols;
  }

  lemma DecodeOfTail(b: Data)
    requires |b| == 2
    ensures Decode(Encode(b)) == b
  {
    hide Pair, Tail, AllSymbols;
    PairOfTail(b[0], b[1]);
    assert b == [b[0], b[1]];
  }

  lemma {:induction false} DecodeOfEncode(b: Data)
    requires ByteGroups(|b|)
    ensures Decode(Encode(b)) == b
  {
    hide AllSymbols, Quad, Tail;
    if b == [] {
    } else if |b| == 2 {
      DecodeOfTail(b);
    } else {
      DecodeOfEncode(b[3..]);
      DecodeOfHead(b);
    }
  }

  lemma DecodeOfHead(b: Data)
    requires ByteGroups(|b|) && |b| >= 3 && Decode(Encode(b[3..])) == b[3..]
    ensures Decode(Encode(b)) == b
  {
    hide Triple, Quad, Encode, Decode, AllSymbols;
    var head, rest := Quad(b[0], b[1], b[2]), Encode(b[3..]);
    EncodeStep(b);
    DecodeStep(head, rest);
    TripleOfQuad(b[0], b[1], b[2]);
    assert b == [b[0], b[1], b[2]] + b[3..];
  }

  lemma DecodeStep(head: string, rest: string)
    requires |head| == 4 && AllSymbols(head) && AllSymbols(rest) && SymbolGroups(|rest|)
    ensures AllSymbols(head + rest) && SymbolGroups(|head + rest|) && Decode(head + rest) == Triple(head) + Decode(rest)
  {
    hide Triple;
    assert (head + rest)[..4] == head && (head + rest)[4..] == rest;
  }

  /** Distinct digests have distinct renderings. */
  lemma EncodeInjective(a: Data, b: Data)
    requires ByteGroups(|a|) && ByteGroups(|b|) && Encode(a) == Encode(b)
    ensures a == b
  {
    DecodeOfEncode(a);
    DecodeOfEncode(b);
  }
}

/** The wheel RECORD: every file once, with its true size and digest. */
module WheelRecord {
  import opened Common
  import opened Text
  import opened Bytes
  import opened Base64Url

  const MAX_FILES := 2048
  const MAX_MEMBER_BYTES := 8 * 1024 * 1024
  const DIGEST_BYTES := 32
  const PREFIX := "sha256="

  /** What the directory declares of a member and what its stream decompresses to, if it is readable. */
  datatype Member = Member(fileSize: nat, content: Option<Data>)

  type Hash = Data -> Data

  datatype RecordError =
    | NoRecord | Unreadable | BadCsv | TooManyRows | BadShape | BadPath | DuplicatePath | MissingMember
    | SelfHash | BadDigest | BadSize | SizeDisagrees | HashDisagrees | Uncovered

  /** The canonical field for a digest: the prefix and 43 symbols. */
  function DigestText(digest: Data): (s: string)
    requires |digest| == DIGEST_BYTES
    ensures |s| == |PREFIX| + 43 && s[..|PREFIX|] == PREFIX && AllSymbols(s[|PREFIX|..])
  {
    hide Encode;
    DigestGroups();
    EncodedLength(digest);
    var s := PREFIX + Encode(digest);
    assert s[|PREFIX|..] == Encode(digest);
    s
  }

  lemma DigestTextIs(digest: Data)
    requires |digest| == 32
    ensures ByteGroups(32) && DigestText(digest) == "sha256=" + Encode(digest)
  {
    DigestGroups();
    hide Encode;
  }

  /** _record_digest. */
  function RecordDigest(value: string): Option<Data> {
    if |value| != |PREFIX| + 43 || value[..|PREFIX|] != PREFIX || !AllSymbols(value[|PREFIX|..]) then None
    else
      DigestGroups();
      var encoded := value[|PREFIX|..];
      var decoded := Decode(encoded);
      if |decoded| != DIGEST_BYTES || Encode(decoded) != encoded then None else Some(decoded)
  }

  /** The field is accepted iff it is the one canonical rendering of the digest it yields. */
  lemma DigestIsBijective(value: string, digest: Data)
    ensures RecordDigest(value) == Some(digest) <==> |digest| == DIGEST_BYTES && value == DigestText(digest)
  {
    hide Encode, Decode;
    DigestGroups();
    if |digest| == DIGEST_BYTES && value == DigestText(digest) {
      assert value[|PREFIX|..] == Encode(digest);
      DecodeOfEncode(digest);
    }
    if RecordDigest(value) == Some(digest) {
      assert value == value[..|PREFIX|] + value[|PREFIX|..];
    }
  }

  /** The member decompresses to as many bytes as it declares, at most 8 MiB. */
  predicate Legible(m: Member) {
    m.content.Some? && |m.content.value| == m.fileSize && m.fileSize <= 8 * 1024 * 1024
  }

  lemma ReadMemberIff(m: Member)
    ensures ReadMember(m) == if Legible(m) then m.content else None
  {
  }

  /** _read_zip_member: the bytes, provided they fit and have the declared size. */
  function ReadMember(m: Member): Option<Data> {
    if m.content.None? || |m.content.value| > MAX_MEMBER_BYTES || |m.content.value| != m.fileSize then None
    else m.content
  }

  function ParseSize(field: string): Option<nat> {
    if |field| > |Decimal(MAX_MEMBER_BYTES)| || !CanonicalDecimal(field) then None else Some(ParseDecimal(field))
  }

  lemma {:induction false} DecimalGrows(m: nat, n: nat)
    requires m <= n
    ensures |Decimal(m)| <= |Decimal(n)|
  {
    if m >= 10 {
      DecimalGrows(m / 10, n / 10);
    }
  }

  /** A size field is read as n exactly when it is n's canonical rendering and n is not wider than the ceiling. */
  lemma SizeIsCanonical(field: string, n: nat)
    requires n <= MAX_MEMBER_BYTES
    ensures ParseSize(field) == Some(n) <==> field == Decimal(n)
  {
    hide Decimal, ParseDecimal;
    DecimalGrows(n, MAX_MEMBER_BYTES);
    ParseInvertsDecimal(n);
    CanonicalOfDecimal(n);
    if CanonicalDecimal(field) {
      DecimalInvertsParse(field);
    }
  }

  lemma CanonicalOfDecimal(n: nat)
    ensures CanonicalDecimal(Decimal(n))
  {
  }

  /** One row states its member's true size and digest; the RECORD's own row states neither. */
  ghost predicate RowOk(actual: map<string, Member>, recordName: string, row: seq<string>, validPath: string -> bool, sha: Hash) {
    && |row| == 3 && validPath(row[0]) && row[0] in actual
    && if row[0] == recordName then row[1] == "" && row[2] == ""
       else
         && Legible(actual[row[0]])
         && var content := actual[row[0]].content.value;
            && |sha(content)| == 32 && ByteGroups(32)
            && row[1] == "sha256=" + Encode(sha(content)) && row[2] == Decimal(|content|)
  }

  function CheckRow(actual: map<string, Member>, recordName: string, row: seq<string>, validPath: string -> bool, sha: Hash): Option<RecordError> {
    if |row| != 3 then Some(BadShape)
    else if !validPath(row[0]) then Some(BadPath)
    else if row[0] !in actual then Some(MissingMember)
    else if row[0] == recordName then if row[1] != "" || row[2] != "" then Some(SelfHash) else None
    else
      var digest := RecordDigest(row[1]);
      if digest.None? then Some(BadDigest)
      else
        var size := ParseSize(row[2]);
        if size.None? then Some(BadSize)
        else if size.value > MAX_MEMBER_BYTES || size.value != actual[row[0]].fileSize then Some(SizeDisagrees)
        else
          var content := ReadMember(actual[row[0]]);
          if content.None? then Some(Unreadable)
          else if |content.value| != size.value || sha(content.value) != digest.value then Some(HashDisagrees)
          else None
  }

  lemma CheckRowIff(actual: map<string, Member>, recordName: string, row: seq<string>, validPath: string -> bool, sha: Hash)
    ensures CheckRow(actual, recordName, row, validPath, sha).None? <==> RowOk(actual, recordName, row, validPath, sha)
  {
    hide RecordDigest, ParseSize, DigestText, Decimal, Encode;
    DigestGroups();
    if |row| == 3 && row[0] in actual && row[0] != recordName && ReadMember(actual[row[0]]).Some? {
      var content := ReadMember(actual[row[0]]).value;
      if |sha(content)| == DIGEST_BYTES {
        DigestTextIs(sha(content));
      }
      SizeIsCanonical(row[2], |content|);
      DigestIsBijective(row[1], sha(content));
    }
  }

  /** The rows are in one-to-one correspondence with the wheel's files, and each row is right. */
  ghost predicate RecordOk(actual: map<string, Member>, recordName: string, rows: seq<seq<string>>, validPath: string -> bool, sha: Hash) {
    && 1 <= |rows| <= 2048
    && (forall i :: 0 <= i < |rows| ==> RowOk(actual, recordName, rows[i], validPath, sha))
    && (forall i, j :: 0 <= i < j < |rows| && |rows[i]| == 3 && |rows[j]| == 3 ==> rows[i][0] != rows[j][0])
    && (forall name :: name in actual ==> exists i :: 0 <= i < |rows| && |rows[i]| == 3 && rows[i][0] == name)
  }

  method VerifyWheelRecord(actual: map<string, Member>, recordName: string, csv: Data -> Option<seq<seq<string>>>,
                           validPath: string -> bool, sha: Hash)
    returns (r: Result<(), RecordError>)
    ensures r.Ok? <==> && recordName in actual && Legible(actual[recordName])
                       && csv(actual[recordName].content.value).Some?
                       && RecordOk(actual, recordName, csv(actual[recordName].content.value).value, validPath, sha)
  {
    hide CheckRow, RowOk, ReadMember;
    if recordName !in actual {
      return Err(NoRecord);
    }
    ReadMemberIff(actual[recordName]);
    var bytes := ReadMember(actual[recordName]);
    if bytes.None? {
      return Err(Unreadable);
    }
    var parsed := csv(bytes.value);
    if parsed.None? {
      return Err(BadCsv);
    }
    var rows := parsed.value;
    if !(1 <= |rows| <= MAX_FILES) {
      return Err(TooManyRows);
    }
    var recorded: set<string> := {};
    var i := 0;
    while i < |rows|
      invariant i <= |rows|
      invariant forall k :: 0 <= k < i ==> RowOk(actual, recordName, rows[k], validPath, sha) && |rows[k]| == 3 && rows[k][0] in actual
      invariant forall j, k :: 0 <= j < k < i ==> rows[j][0] != rows[k][0]
      invariant forall name :: name in recorded <==> exists k :: 0 <= k < i && |rows[k]| == 3 && rows[k][0] == name
    {
      CheckRowIff(actual, recordName, rows[i], validPath, sha);
      RowShape(actual, recordName, rows[i], validPath, sha);
      var checked := CheckRow(actual, recordName, rows[i], validPath, sha);
      if |rows[i]| == 3 && rows[i][0] in recorded {
        return Err(DuplicatePath);
      }
      if checked.Some? {
        return Err(checked.value);
      }
      recorded := recorded + {rows[i][0]};
      i := i + 1;
    }
    if recorded != actual.Keys {
      assert exists name :: name in actual && name !in recorded;
      return Err(Uncovered);
    }
    r := Ok(());
  }

  lemma RowShape(actual: map<string, Member>, recordName: string, row: seq<string>, validPath: string -> bool, sha: Hash)
    ensures RowOk(actual, recordName, row, validPath, sha) ==> |row| == 3 && row[0] in actual
  {
  }
}
