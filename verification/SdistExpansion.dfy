/** _preflight_gzip_header and _expand_sdist: exactly one gzip member, expanded under a ceiling. */
module SdistExpansion {
  import opened Common
  import opened Bytes
  import opened Streams

  const CEILING := 40 * 1024 * 1024
  const CHUNK := 64 * 1024
  const BLOCK := 512
  const HEADER_BYTES := 10
  const CANONICAL_FLAGS: Byte := 8
  const MAX_COMPONENT := 255

  datatype GzipError = Header | Name | Malformed | NoProgress | TooLarge | SeveralMembers | Truncated | NotAligned

  /** What the decompressor intends to do at one call: how much to consume, how much to emit, or to stop. */
  datatype Intent = Intent(used: nat, emitted: Data, stop: bool)

  /** What the file's bytes start with, if that is a whole well-formed gzip member: its length and its expansion. */
  datatype Member = Member(length: nat, output: Data)

  /**
   * zlib's streaming decompressor over a fixed file: it emits at most the limit, consumes a prefix of its input,
   * never reads past the member, makes progress on a well-formed one, and signals the end with its last byte.
   */
  class Inflater {
    const content: Data
    const member: Option<Member>
    const intent: nat -> Intent
    var fed: nat
    var made: nat

    ghost predicate Valid()
      reads this
    {
      && fed <= |content|
      && (member.Some? ==> fed < member.value.length <= |content| && made <= |member.value.output|)
    }

    constructor (content: Data, member: Option<Member>, intent: nat -> Intent)
      requires member.Some? ==> 0 < member.value.length <= |content|
      ensures Valid() && this.content == content && this.member == member && fed == 0 && made == 0
    {
      this.content, this.member, this.intent := content, member, intent;
      fed, made := 0, 0;
    }

    method Decompress(pending: Data, limit: nat) returns (r: Result<(nat, Data, bool), GzipError>)
      requires Valid() && pending != [] && limit > 0 && fed + |pending| <= |content|
      modifies this
      ensures r.Ok? ==> r.value.0 <= |pending| && |r.value.1| <= limit && fed == old(fed) + r.value.0
      ensures r.Ok? && !r.value.2 ==> Valid()
      ensures r.Ok? && r.value.2 ==> member.Some? && fed == member.value.length && made == |member.value.output|
      ensures member.Some? ==>
                && r.Ok? && (r.value.0 > 0 || r.value.1 != [])
                && old(made) <= made <= |member.value.output| && r.value.1 == member.value.output[old(made)..made]
    {
      var want := intent(fed + made);
      if member.None? {
        if want.stop {
          return Err(Malformed);
        }
        var used := Min(want.used, |pending|);
        var size := Min(|want.emitted|, limit);
        fed := fed + used;
        return Ok((used, want.emitted[..size], false));
      }
      var whole := member.value.output;
      var out := Min(Min(|want.emitted|, limit), |whole| - made);
      var used := Min(Min(want.used, |pending|), member.value.length - fed);
      if fed + used == member.value.length && made + out < |whole| {
        used := used - 1;
      }
      if used == 0 && out == 0 {
        if made < |whole| {
          out := 1;
        } else {
          used := 1;
        }
      }
      var chunk := whole[made..made + out];
      fed, made := fed + used, made + out;
      r := Ok((used, chunk, fed == member.value.length));
    }
  }

  /** A header with the canonical flags and exactly this file name, NUL-terminated. */
  predicate HeaderOk(content: Data, name: Data) {
    && |content| > 10 + |name| && |name| <= 255
    && content[0] == 0x1f && content[1] == 0x8b && content[2] == 8 && content[3] == 8
    && content[10..10 + |name|] == name && content[10 + |name|] == 0
  }

  method PreflightGzipHeader(content: Data, name: Data) returns (r: Result<(), GzipError>)
    requires 0 !in name
    ensures r.Ok? <==> HeaderOk(content, name)
  {
    if |content| < HEADER_BYTES || content[..3] != [0x1f, 0x8b, 8] || content[3] != CANONICAL_FLAGS {
      return Err(Header);
    }
    var observed: Data := [];
    while true
      invariant HEADER_BYTES + |observed| <= |content| && |observed| <= MAX_COMPONENT + 1
      invariant observed == content[HEADER_BYTES..HEADER_BYTES + |observed|] && 0 !in observed
      decreases MAX_COMPONENT + 1 - |observed|
    {
      if |observed| == MAX_COMPONENT + 1 {
        NameDiffers(content, name, observed);
        return Err(Name);
      }
      if HEADER_BYTES + |observed| == |content| {
        NameDiffers(content, name, observed);
        return Err(Header);
      }
      var character := content[HEADER_BYTES + |observed|];
      if character == 0 {
        break;
      }
      observed := observed + [character];
    }
    if observed != name {
      NameDiffers(content, name, observed);
      return Err(Name);
    }
    r := Ok(());
  }

  /** Up to its terminator the header holds one name only. */
  lemma NameDiffers(content: Data, name: Data, observed: Data)
    requires HEADER_BYTES + |observed| <= |content| && 0 !in observed && 0 !in name
    requires observed == content[HEADER_BYTES..HEADER_BYTES + |observed|]
    requires |observed| == MAX_COMPONENT + 1 || HEADER_BYTES + |observed| == |content|
             || (content[HEADER_BYTES + |observed|] == 0 && observed != name)
    ensures !HeaderOk(content, name)
  {
    assert forall i :: 0 <= i < |observed| ==> content[HEADER_BYTES + i] == observed[i] && observed[i] in observed;
    NameBytes(content, name);
  }

  lemma NameBytes(content: Data, name: Data)
    requires 0 !in name
    ensures HeaderOk(content, name) ==>
              forall i :: 0 <= i < |name| ==> content[HEADER_BYTES + i] == name[i] && name[i] != 0
  {
    if HeaderOk(content, name) {
      forall i | 0 <= i < |name|
        ensures content[HEADER_BYTES + i] == name[i] && name[i] != 0
      {
        assert content[HEADER_BYTES..HEADER_BYTES + |name|][i] == name[i] && name[i] in name;
      }
    }
  }

  /** The file is one gzip member and nothing else, with a nonempty, block-aligned expansion under the ceiling. */
  ghost predicate OneMember(content: Data, member: Option<Member>) {
    && member.Some? && member.value.length == |content|
    && 0 < |member.value.output| <= 40 * 1024 * 1024 && |member.value.output| % 512 == 0
  }

  /** However the bytes are chunked: accepted exactly when OneMember holds, with exactly its expansion written. */
  method ExpandSdist(source: Reader, zlib: Inflater, name: Data) returns (r: Result<Data, GzipError>)
    requires source.pos == 0 && zlib.Valid() && zlib.fed == 0 && zlib.made == 0 && source.content == zlib.content
    requires 0 !in name
    modifies source, zlib
    ensures r.Ok? <==> HeaderOk(zlib.content, name) && OneMember(zlib.content, zlib.member)
    ensures r.Ok? ==> r.value == zlib.member.value.output
  {
    hide HeaderOk;
    var header := PreflightGzipHeader(source.content, name);
    if header.Err? {
      return Err(header.error);
    }
    var written: Data := [];
    var finished := false;
    while !finished
      invariant zlib.fed == source.pos <= |source.content| && |written| <= CEILING
      invariant Faithful(zlib.member, zlib.made, written)
      invariant !finished ==> zlib.Valid()
      invariant finished ==> AtEnd(zlib.member, zlib.fed, zlib.made) && zlib.fed == |source.content|
      decreases !finished, |source.content| - source.pos
    {
      var pending := source.Read(CHUNK);
      if pending == [] {
        return Err(Truncated);
      }
      ghost var mark := source.pos;
      while pending != []
        invariant mark == source.pos
        invariant zlib.fed + |pending| == source.pos <= |source.content| && |written| <= CEILING
        invariant Faithful(zlib.member, zlib.made, written) && zlib.Valid()
        decreases |pending| + CEILING - |written|
      {
        var step := zlib.Decompress(pending, CHUNK);
        if step.Err? {
          return Err(Malformed);
        }
        var (used, chunk, eof) := step.value;
        var left := pending[used..];
        if chunk == [] && |left| >= |pending| {
          return Err(NoProgress);
        }
        FaithfulStep(zlib.member, written, chunk, zlib.made);
        if |written| + |chunk| > CEILING {
          return Err(TooLarge);
        }
        written := written + chunk;
        pending := left;
        if eof {
          var more := source.Read(1);
          if pending != [] || more != [] {
            return Err(SeveralMembers);
          }
          finished := true;
          break;
        }
      }
    }
    if written == [] || |written| % BLOCK != 0 {
      return Err(NotAligned);
    }
    r := Ok(written);
  }

  /** What has been written is what a well-formed member has expanded to so far. */
  ghost predicate Faithful(member: Option<Member>, made: nat, written: Data) {
    member.Some? ==> made <= |member.value.output| && written == member.value.output[..made]
  }

  ghost predicate AtEnd(member: Option<Member>, fed: nat, made: nat) {
    member.Some? && fed == member.value.length && made == |member.value.output|
  }

  lemma FaithfulStep(member: Option<Member>, written: Data, chunk: Data, made: nat)
    requires member.Some? ==>
               |written| <= made <= |member.value.output| && chunk == member.value.output[|written|..made]
    requires member.Some? ==> written == member.value.output[..|written|]
    ensures Faithful(member, made, written + chunk)
  {
  }
}
