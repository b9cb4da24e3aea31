/** A byte stream that may return short reads, and the two checks that read through it. */
module Streams {
  import opened Common
  import opened Bytes

  /** How many bytes the stream is willing to return at a position. */
  type Pace = nat -> nat

  class Reader {
    const content: Data
    const pace: Pace
    var pos: nat

    constructor (content: Data, pace: Pace)
      ensures this.content == content && this.pace == pace && pos == 0
    {
      this.content := content;
      this.pace := pace;
      pos := 0;
    }

    method Seek(offset: nat)
      modifies this
      ensures pos == offset
    {
      pos := offset;
    }

    /** A nonempty chunk of at most n bytes while any remain, else the empty chunk. */
    method Read(n: nat) returns (chunk: Data)
      modifies this
      ensures |chunk| <= n
      ensures old(pos) < |content| && n > 0 ==> |chunk| > 0
      ensures old(pos) >= |content| ==> chunk == []
      ensures pos == old(pos) + |chunk|
      ensures chunk != [] ==> pos <= |content| && chunk == content[old(pos)..pos]
    {
      if pos >= |content| || n == 0 {
        return [];
      }
      var size := Min(Min(n, |content| - pos), Max(1, pace(pos)));
      chunk := content[pos..pos + size];
      pos := pos + size;
    }
  }
}

/** _verify_tar_end_padding. */
module TarTail {
  import opened Common
  import opened Bytes
  import opened Streams

  const BLOCK := 512
  const RECORD := 10240
  const CHUNK := 65536

  datatype TarError = NoTerminator | Truncated | HiddenBytes | NotCanonical

  function RoundUp(n: nat, unit: nat): nat
    requires unit > 0
  {
    (n + unit - 1) / unit * unit
  }

  predicate Zero(b: Data) {
    forall i :: 0 <= i < |b| ==> b[i] == 0
  }

  /** The size tests single out one size: two blocks past the payload, rounded up to a whole record. */
  lemma OneCanonicalSize(logicalEnd: nat, size: nat)
    ensures (size >= logicalEnd + 2 * BLOCK && size - logicalEnd - 2 * BLOCK < RECORD && size % RECORD == 0)
            <==> size == RoundUp(logicalEnd + 1024, 10240)
  {
    var n := logicalEnd + 2 * BLOCK;
    var q := (n + RECORD - 1) / RECORD;
    assert q * RECORD <= n + RECORD - 1 < q * RECORD + RECORD;
    if size % RECORD == 0 {
      var p := size / RECORD;
      assert size == p * RECORD;
      if p > q {
        assert p * RECORD >= q * RECORD + RECORD;
      } else if p < q {
        assert p * RECORD + RECORD <= q * RECORD;
      }
    }
  }

  method VerifyTarEndPadding(source: Reader, logicalEnd: int, expandedSize: nat) returns (r: Result<(), TarError>)
    modifies source
    ensures r.Ok? <==>
            && logicalEnd >= 0 && logicalEnd % 512 == 0
            && 1024 <= expandedSize - logicalEnd < 1024 + 10240 && expandedSize % 10240 == 0
            && expandedSize <= |source.content|
            && forall i :: logicalEnd <= i < expandedSize ==> source.content[i] == 0
  {
    var padding := expandedSize - logicalEnd;
    if logicalEnd < 0 || logicalEnd % BLOCK != 0 || expandedSize % BLOCK != 0 || padding < 2 * BLOCK {
      return Err(NoTerminator);
    }
    source.Seek(logicalEnd);
    var remaining := padding;
    while remaining > 0
      invariant 0 <= remaining <= padding && source.pos == expandedSize - remaining
      invariant source.pos > logicalEnd ==> source.pos <= |source.content|
      invariant forall i :: logicalEnd <= i < source.pos && i < |source.content| ==> source.content[i] == 0
    {
      var before := source.pos;
      var chunk := source.Read(Min(CHUNK, remaining));
      if chunk == [] {
        return Err(Truncated);
      }
      if !Zero(chunk) {
        if expandedSize <= |source.content| {
          var i :| 0 <= i < |chunk| && chunk[i] != 0;
          assert source.content[before + i] == chunk[i];
        }
        return Err(HiddenBytes);
      }
      assert forall i :: before <= i < source.pos ==> source.content[i] == chunk[i - before];
      remaining := remaining - |chunk|;
    }
    if padding - 2 * BLOCK >= RECORD || expandedSize % RECORD != 0 {
      return Err(NotCanonical);
    }
    r := Ok(());
  }
}

/** _member_bytes: a chunked scan for a fixed secret. */
module MemberScan {
  import opened Common
  import opened Bytes
  import opened Streams

  const READ_BYTES := 1024 * 1024
  const CAPTURE_BYTES := 64 * 1024
  const OVERLAP := 128

  datatype ScanError = Truncated | PrivateMaterial | Exceeded

  predicate Contains(hay: Data, needle: Data) {
    exists i :: 0 <= i <= |hay| && OccursAt(hay, needle, i)
  }

  predicate OccursAt(hay: Data, needle: Data, i: nat) {
    i + |needle| <= |hay| && hay[i..i + |needle|] == needle
  }

  /** Occurrence is what it says: the needle with something before it and something after it. */
  lemma ContainsIff(hay: Data, needle: Data)
    ensures Contains(hay, needle) <==> exists a: Data, b: Data :: hay == a + needle + b
  {
    if Contains(hay, needle) {
      var i :| 0 <= i <= |hay| && OccursAt(hay, needle, i);
      assert hay == hay[..i] + needle + hay[i + |needle|..];
    }
    if a: Data, b: Data :| hay == a + needle + b {
      assert OccursAt(hay, needle, |a|);
    }
  }

  /** The last bytes of b that the scan carries into the next window. */
  function Carry(b: Data, canary: Data): (t: Data)
    ensures |t| <= |b| && t == b[|b| - |t|..]
  {
    var keep := Max(|canary|, OVERLAP);
    if |b| <= keep then b else b[|b| - keep..]
  }

  /** A new occurrence reaches into the new chunk, so the carried overlap is enough to see it. */
  lemma OverlapSuffices(seen: Data, chunk: Data, canary: Data)
    requires seen == [] || !Contains(seen, canary)
    ensures Contains(Carry(seen, canary) + chunk, canary) <==> Contains(seen + chunk, canary)
  {
    var carried := Carry(seen, canary);
    var cut := |seen| - |carried|;
    var all, window := seen + chunk, carried + chunk;
    assert window == all[cut..];
    if Contains(window, canary) {
      var i :| 0 <= i <= |window| && OccursAt(window, canary, i);
      SliceOfTail(all, cut, i, |canary|);
      assert OccursAt(all, canary, cut + i);
    }
    if Contains(all, canary) {
      var i :| 0 <= i <= |all| && OccursAt(all, canary, i);
      if seen == [] {
        assert all == window;
      } else {
        NewOccurrence(seen, chunk, canary, i);
        SliceOfTail(all, cut, i - cut, |canary|);
        assert OccursAt(window, canary, i - cut);
      }
    }
  }

  lemma SliceOfTail(b: Data, cut: nat, i: nat, n: nat)
    requires cut + i + n <= |b|
    ensures b[cut..][i..i + n] == b[cut + i..cut + i + n]
  {
  }

  lemma NewOccurrence(seen: Data, chunk: Data, canary: Data, i: nat)
    requires !Contains(seen, canary) && OccursAt(seen + chunk, canary, i)
    ensures i + |canary| > |seen|
  {
    if i + |canary| <= |seen| {
      assert seen[i..i + |canary|] == (seen + chunk)[i..i + |canary|];
      assert OccursAt(seen, canary, i) ==> Contains(seen, canary);
    }
  }

  function Head(b: Data): Data {
    b[..Min(|b|, 65536)]
  }

  lemma HeadGrows(b: Data, chunk: Data)
    ensures Head(b + chunk) ==
            if |Head(b)| < CAPTURE_BYTES then Head(b) + chunk[..Min(|chunk|, CAPTURE_BYTES - |Head(b)|)] else Head(b)
  {
  }

  lemma CarryOfWindow(seen: Data, chunk: Data, canary: Data)
    ensures Carry(Carry(seen, canary) + chunk, canary) == Carry(seen + chunk, canary)
  {
    assert Carry(seen, canary) + chunk == (seen + chunk)[|seen| - |Carry(seen, canary)|..];
  }

  /** An occurrence survives in every longer prefix. */
  lemma ContainsGrows(a: Data, b: Data, canary: Data)
    requires a <= b && Contains(a, canary)
    ensures Contains(b, canary)
  {
    var i :| 0 <= i <= |a| && OccursAt(a, canary, i);
    assert b[..|a|] == a;
    assert b[i..i + |canary|] == a[i..i + |canary|];
    assert OccursAt(b, canary, i);
  }

  lemma StartOfScan(canary: Data)
    ensures Carry([], canary) == [] && Head([]) == []
  {
  }

  /** What one search of the whole member decides. */
  function Verdict(content: Data, size: nat, canary: Data, sha: Data -> Data): Result<(Data, Data), ScanError> {
    var available := content[..Min(size, |content|)];
    if available != [] && Contains(available, canary) then Err(PrivateMaterial)
    else if |content| < size then Err(Truncated)
    else if |content| > size then Err(Exceeded)
    else Ok((sha(content), Head(content)))
  }

  lemma FoundEarly(content: Data, size: nat, canary: Data, sha: Data -> Data, n: nat)
    requires 0 < n <= Min(size, |content|) && Contains(content[..n], canary)
    ensures Verdict(content, size, canary, sha) == Err(PrivateMaterial)
  {
    hide Contains;
    var available := content[..Min(size, |content|)];
    assert available[..n] == content[..n];
    ContainsGrows(content[..n], available, canary);
  }

  lemma FoundNever(content: Data, size: nat, canary: Data, sha: Data -> Data, n: nat)
    requires n == Min(size, |content|) && (n == 0 || !Contains(content[..n], canary))
    ensures |content| < size ==> Verdict(content, size, canary, sha) == Err(Truncated)
    ensures |content| > size ==> Verdict(content, size, canary, sha) == Err(Exceeded)
    ensures |content| == size ==> Verdict(content, size, canary, sha) == Ok((sha(content[..n]), Head(content[..n])))
  {
    hide Contains, Head;
    assert |content| == size ==> content[..n] == content;
  }

  /** The loop's variables after reading a prefix. */
  ghost predicate ScanState(digested: Data, captured: Data, previous: Data, canary: Data) {
    && previous == Carry(digested, canary) && captured == Head(digested)
    && (digested == [] || !Contains(digested, canary))
  }

  /** One pass of the loop body over a chunk. */
  method Feed(ghost digested: Data, captured: Data, previous: Data, chunk: Data, canary: Data)
    returns (found: bool, captured': Data, previous': Data)
    requires ScanState(digested, captured, previous, canary)
    ensures found <==> Contains(digested + chunk, canary)
    ensures !found ==> ScanState(digested + chunk, captured', previous', canary)
  {
    hide Contains, Carry, Head;
    OverlapSuffices(digested, chunk, canary);
    CarryOfWindow(digested, chunk, canary);
    HeadGrows(digested, chunk);
    captured', previous' := captured, previous;
    var window := previous + chunk;
    found := Contains(window, canary);
    if !found {
      if |captured| < CAPTURE_BYTES {
        captured' := captured + chunk[..Min(|chunk|, CAPTURE_BYTES - |captured|)];
      }
      previous' := Carry(window, canary);
    }
  }

  /**
   * For every pace of the stream the scan decides as one search of the whole member would: private
   * iff the canary occurs in the bytes read, else the digest and head of exactly the declared bytes.
   */
  method MemberBytes(source: Reader, size: nat, canary: Data, sha: Data -> Data)
    returns (r: Result<(Data, Data), ScanError>)
    requires source.pos == 0
    modifies source
    ensures r == Verdict(source.content, size, canary, sha)
  {
    hide Contains, Carry, Head, Verdict;
    StartOfScan(canary);
    ghost var content := source.content;
    var digested: Data := [];
    var captured: Data := [];
    var previous: Data := [];
    var remaining := size;
    while remaining > 0
      invariant 0 <= remaining <= size && source.pos == size - remaining <= |content| && content == source.content
      invariant digested == content[..source.pos]
      invariant ScanState(digested, captured, previous, canary)
    {
      var chunk := source.Read(Min(READ_BYTES, remaining));
      if chunk == [] {
        FoundNever(content, size, canary, sha, |digested|);
        return Err(Truncated);
      }
      remaining := remaining - |chunk|;
      var found;
      found, captured, previous := Feed(digested, captured, previous, chunk, canary);
      assert content[..source.pos] == digested + chunk;
      digested := digested + chunk;
      if found {
        FoundEarly(content, size, canary, sha, source.pos);
        return Err(PrivateMaterial);
      }
    }
    FoundNever(content, size, canary, sha, size);
    var extra := source.Read(1);
    if extra != [] {
      return Err(Exceeded);
    }
    r := Ok((sha(digested), captured));
  }

  /** An empty secret is found in every byte read, so a member passes exactly when it and its declared size are empty. */
  lemma EmptyCanary(content: Data, size: nat, sha: Data -> Data)
    ensures Verdict(content, size, [], sha) == Err(PrivateMaterial) <==> size > 0 && content != []
    ensures size == 0 && content == [] ==> Verdict(content, size, [], sha) == Ok((sha([]), []))
    ensures size == 0 && content != [] ==> Verdict(content, size, [], sha) == Err(Exceeded)
    ensures size > 0 && content == [] ==> Verdict(content, size, [], sha) == Err(Truncated)
  {
    var available := content[..Min(size, |content|)];
    assert OccursAt(available, [], 0);
  }
}
