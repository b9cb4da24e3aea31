/** _walk_strings: JSON traversal with an explicit stack and a node ceiling. */
module JsonWalk {
  import opened Common

  const MAX_JSON_NODES := 2_000_000

  /** A value handed to the walk; Alien is anything json.loads cannot produce. */
  datatype Json =
    | Scalar
    | Text(s: string)
    | List(items: seq<Json>)
    | Dict(keys: seq<string>, values: seq<Json>)
    | Alien

  datatype WalkError = TooManyNodes | Unsupported

  function AsTexts(keys: seq<string>): (s: seq<Json>)
    ensures |s| == |keys| && forall i :: 0 <= i < |s| ==> s[i] == Text(keys[i])
  {
    seq(|keys|, i requires 0 <= i < |keys| => Text(keys[i]))
  }

  function Reversed(keys: seq<string>): seq<string> {
    if keys == [] then [] else [keys[|keys| - 1]] + Reversed(keys[..|keys| - 1])
  }

  /** Nodes of a value, object keys included. */
  function Size(v: Json): (n: nat)
    ensures n > 0
  {
    match v
    case List(items) => 1 + SizeAll(items)
    case Dict(keys, values) => 1 + |keys| + SizeAll(values)
    case _ => 1
  }

  function SizeAll(vs: seq<Json>): nat {
    if vs == [] then 0 else SizeAll(vs[..|vs| - 1]) + Size(vs[|vs| - 1])
  }

  /** The recursive reading: last child first, and an object's values before its keys. */
  function Strings(v: Json): seq<string> {
    match v
    case Text(s) => [s]
    case List(items) => StringsAll(items)
    case Dict(keys, values) => StringsAll(values) + Reversed(keys)
    case _ => []
  }

  function StringsAll(vs: seq<Json>): seq<string> {
    if vs == [] then [] else Strings(vs[|vs| - 1]) + StringsAll(vs[..|vs| - 1])
  }

  predicate Supported(v: Json) {
    match v
    case Alien => false
    case List(items) => SupportedAll(items)
    case Dict(_, values) => SupportedAll(values)
    case _ => true
  }

  predicate SupportedAll(vs: seq<Json>) {
    vs == [] || (Supported(vs[|vs| - 1]) && SupportedAll(vs[..|vs| - 1]))
  }

  lemma {:induction false} PushAll(stack: seq<Json>, more: seq<Json>)
    ensures SizeAll(stack + more) == SizeAll(stack) + SizeAll(more)
    ensures StringsAll(stack + more) == StringsAll(more) + StringsAll(stack)
    ensures SupportedAll(stack + more) <==> SupportedAll(stack) && SupportedAll(more)
    decreases |more|
  {
    hide Strings, Supported, Size;
    if more == [] {
      assert stack + more == stack;
    } else {
      var n := |more| - 1;
      PushAll(stack, more[..n]);
      assert (stack + more)[..|stack| + n] == stack + more[..n];
    }
  }

  lemma {:induction false} KeyTexts(keys: seq<string>)
    ensures SizeAll(AsTexts(keys)) == |keys| && StringsAll(AsTexts(keys)) == Reversed(keys)
    ensures SupportedAll(AsTexts(keys))
  {
    if keys != [] {
      var n := |keys| - 1;
      KeyTexts(keys[..n]);
      assert AsTexts(keys)[..n] == AsTexts(keys[..n]);
    }
  }

  /** One pop: the children pushed stand for what the popped value holds besides itself. */
  function Children(v: Json): seq<Json> {
    match v
    case List(items) => items
    case Dict(keys, values) => AsTexts(keys) + values
    case _ => []
  }

  function Own(v: Json): seq<string> {
    if v.Text? then [v.s] else []
  }

  lemma ChildrenOf(v: Json)
    ensures Size(v) == 1 + SizeAll(Children(v)) && Strings(v) == Own(v) + StringsAll(Children(v))
    ensures Supported(v) <==> !v.Alien? && SupportedAll(Children(v))
  {
    hide SizeAll, StringsAll, SupportedAll;
    NoChildren();
    if v.Dict? {
      PushAll(AsTexts(v.keys), v.values);
      KeyTexts(v.keys);
    }
  }

  lemma Popped(rest: seq<Json>, v: Json)
    ensures SizeAll(rest + [v]) == 1 + SizeAll(rest + Children(v))
    ensures StringsAll(rest + [v]) == Own(v) + StringsAll(rest + Children(v))
    ensures SupportedAll(rest + [v]) <==> !v.Alien? && SupportedAll(rest + Children(v))
  {
    hide *;
    PushAll(rest, [v]);
    PushAll(rest, Children(v));
    Single(v);
    ChildrenOf(v);
  }

  lemma Single(v: Json)
    ensures SizeAll([v]) == Size(v) && StringsAll([v]) == Strings(v) && (SupportedAll([v]) <==> Supported(v))
  {
    assert [v][..0] == [];
    assert StringsAll([v]) == Strings(v) + StringsAll([v][..0]);
  }

  lemma NoChildren()
    ensures SizeAll([]) == 0 && StringsAll([]) == [] && SupportedAll([])
  {
  }

  lemma PushTwice(stack: seq<Json>, a: seq<Json>, b: seq<Json>)
    ensures stack + a + b == stack + (a + b)
  {
  }

  /** The explicit stack computes the recursive reading, within the ceiling on nodes. */
  method WalkStrings(value: Json) returns (r: Result<seq<string>, WalkError>)
    ensures r.Ok? <==> Supported(value) && Size(value) <= 2_000_000
    ensures r.Ok? ==> r.value == Strings(value)
  {
    hide SizeAll, StringsAll, SupportedAll, Size, Strings, Supported, AsTexts;
    var pending := [value];
    var strings: seq<string> := [];
    var visited := 0;
    Single(value);
    NoChildren();
    while pending != []
      invariant visited + SizeAll(pending) == Size(value) && visited <= MAX_JSON_NODES
      invariant Strings(value) == strings + StringsAll(pending)
      invariant Supported(value) <==> SupportedAll(pending)
      decreases SizeAll(pending)
    {
      var current := pending[|pending| - 1];
      var rest := pending[..|pending| - 1];
      assert pending == rest + [current];
      Popped(rest, current);
      pending := rest;
      visited := visited + 1;
      if visited > MAX_JSON_NODES {
        return Err(TooManyNodes);
      }
      assert pending + [] == pending;
      match current {
        case Text(s) =>
          strings := strings + [s];
        case List(items) =>
          pending := pending + items;
        case Dict(keys, values) =>
          PushTwice(pending, AsTexts(keys), values);
          pending := pending + AsTexts(keys);
          pending := pending + values;
        case Scalar =>
        case Alien =>
          return Err(Unsupported);
      }
    }
    r := Ok(strings);
  }
}

/** _resolved_link_target: lexical resolution of one archive link on a stack of parts. */
module LinkTarget {
  import opened Common

  /** A link target as PurePosixPath splits it; spelled is false when its raw text is refused. */
  datatype Target = Target(spelled: bool, absolute: bool, parts: seq<string>)

  datatype LinkError = Spelling | AbsoluteHardLink | Escapes | IsRoot

  predicate Silent(part: string) {
    part == "" || part == "." || part == "/"
  }

  predicate IsName(part: string) {
    !Silent(part) && part != ".."
  }

  /** How deep below the root the first n parts lead: names go down, ".." goes up. */
  function Depth(base: nat, parts: seq<string>, n: nat): int
    requires n <= |parts|
  {
    if n == 0 then base
    else Depth(base, parts, n - 1) + (if IsName(parts[n - 1]) then 1 else if Silent(parts[n - 1]) then 0 else -1)
  }

  /** No prefix of the parts leads above the root. */
  ghost predicate StaysInside(base: nat, parts: seq<string>) {
    forall n :: 0 <= n <= |parts| ==> Depth(base, parts, n) >= 0
  }

  /** Part i is the component at this level: no later part climbs back above it. */
  ghost predicate Settled(base: nat, parts: seq<string>, i: nat, n: nat, level: nat) {
    && i < n <= |parts| && IsName(parts[i]) && Depth(base, parts, i) == level
    && forall k :: i < k <= n ==> Depth(base, parts, k) > level
  }

  /** Component level of the resolved path is the given name: from the base if never left, else the part settled there. */
  ghost predicate ComponentAt(base: seq<string>, parts: seq<string>, n: nat, level: nat, name: string) {
    || (level < |base| && base[level] == name && n <= |parts|
        && forall k :: 0 <= k <= n ==> Depth(|base|, parts, k) > level)
    || (exists i :: 0 <= i < n <= |parts| && Settled(|base|, parts, i, n, level) && parts[i] == name)
  }

  /** The resolution step by step: "", "." and "/" are skipped, ".." drops the last part and fails at the root. */
  function Climb(stack: seq<string>, parts: seq<string>): Option<seq<string>>
    decreases |parts|
  {
    if parts == [] then Some(stack)
    else if parts[0] == "" || parts[0] == "." || parts[0] == "/" then Climb(stack, parts[1..])
    else if parts[0] == ".." then if stack == [] then None else Climb(stack[..|stack| - 1], parts[1..])
    else Climb(stack + [parts[0]], parts[1..])
  }

  lemma ClimbStep(stack: seq<string>, parts: seq<string>, n: nat)
    requires n < |parts|
    ensures var part := parts[n];
            Climb(stack, parts[n..])
            == if part == ".." then (if stack == [] then None else Climb(stack[..|stack| - 1], parts[n + 1..]))
               else if IsName(part) then Climb(stack + [part], parts[n + 1..])
               else Climb(stack, parts[n + 1..])
  {
    assert parts[n..][0] == parts[n] && parts[n..][1..] == parts[n + 1..];
  }

  /** Accepted exactly when no prefix escapes and the end is below the root, level by level what the path means. */
  method Resolve(parent: seq<string>, target: Target, hardLink: bool) returns (r: Result<seq<string>, LinkError>)
    ensures var base := if target.absolute || hardLink then [] else parent;
            && (r.Ok? <==> target.spelled && !(hardLink && target.absolute)
                           && StaysInside(|base|, target.parts) && Depth(|base|, target.parts, |target.parts|) > 0)
            && (r.Ok? ==> Climb(base, target.parts) == Some(r.value))
            && (r.Ok? <==> target.spelled && !(hardLink && target.absolute)
                           && Climb(base, target.parts).Some? && Climb(base, target.parts) != Some([]))
            && (r.Ok? ==> |r.value| == Depth(|base|, target.parts, |target.parts|)
                          && forall level :: 0 <= level < |r.value| ==>
                               ComponentAt(base, target.parts, |target.parts|, level, r.value[level]))
  {
    hide ComponentAt, IsName, Silent, Climb;
    if !target.spelled {
      return Err(Spelling);
    }
    if hardLink && target.absolute {
      return Err(AbsoluteHardLink);
    }
    var base := if target.absolute || hardLink then [] else parent;
    var parts := base;
    BaseComponents(base, target.parts);
    assert target.parts[0..] == target.parts;
    for n := 0 to |target.parts|
      invariant Climb(parts, target.parts[n..]) == Climb(base, target.parts)
      invariant |parts| == Depth(|base|, target.parts, n)
      invariant forall k :: 0 <= k <= n ==> Depth(|base|, target.parts, k) >= 0
      invariant forall level :: 0 <= level < |parts| ==> ComponentAt(base, target.parts, n, level, parts[level])
    {
      var part := target.parts[n];
      forall level | 0 <= level < |parts| && level < Depth(|base|, target.parts, n + 1)
        ensures ComponentAt(base, target.parts, n + 1, level, parts[level])
      {
        ComponentStays(base, target.parts, n, level, parts[level]);
      }
      Kinds(part);
      ClimbStep(parts, target.parts, n);
      if part == ".." {
        if parts == [] {
          assert Depth(|base|, target.parts, n + 1) < 0;
          return Err(Escapes);
        }
        parts := parts[..|parts| - 1];
      } else if IsName(part) {
        NewComponent(base, target.parts, n, |parts|);
        parts := parts + [part];
      }
    }
    ClimbEnd(parts, target.parts);
    if parts == [] {
      return Err(IsRoot);
    }
    r := Ok(parts);
  }

  lemma ClimbEnd(stack: seq<string>, parts: seq<string>)
    ensures Climb(stack, parts[|parts|..]) == Some(stack)
  {
  }

  lemma Kinds(part: string)
    ensures part == ".." ==> !IsName(part) && !Silent(part)
    ensures part != ".." ==> (IsName(part) <==> !Silent(part))
  {
  }

  lemma BaseComponents(base: seq<string>, parts: seq<string>)
    ensures forall level :: 0 <= level < |base| ==> ComponentAt(base, parts, 0, level, base[level])
  {
  }

  lemma ComponentStays(base: seq<string>, parts: seq<string>, n: nat, level: nat, name: string)
    requires n < |parts| && ComponentAt(base, parts, n, level, name) && level < Depth(|base|, parts, n + 1)
    ensures ComponentAt(base, parts, n + 1, level, name)
  {
    hide Depth, IsName;
    if exists i :: 0 <= i < n && Settled(|base|, parts, i, n, level) && parts[i] == name {
      var i :| 0 <= i < n && Settled(|base|, parts, i, n, level) && parts[i] == name;
      assert Settled(|base|, parts, i, n + 1, level);
    }
  }

  lemma NewComponent(base: seq<string>, parts: seq<string>, n: nat, level: nat)
    requires n < |parts| && IsName(parts[n]) && Depth(|base|, parts, n) == level
    ensures ComponentAt(base, parts, n + 1, level, parts[n])
  {
    hide IsName;
    assert IsName(parts[n]) ==> Depth(|base|, parts, n + 1) == level + 1;
    assert Settled(|base|, parts, n, n + 1, level);
  }
}

/** _read_bounded_protocol_line: one newline-terminated record from a pipe, under a size bound and a deadline. */
module ProtocolLine {
  import opened Common
  import opened Bytes
  import opened Streams

  const MAXIMUM := 8 * 1024
  const CHUNK := 4096
  const NEWLINE: Byte := 10

  datatype LineError = TooLong | Deadline | ClosedEarly | Ambiguous

  predicate IsLine(b: Data) {
    b != [] && b[|b| - 1] == 10 && 10 !in b[..|b| - 1]
  }

  /** ready says whether each wait for the pipe succeeds before the deadline. */
  method ReadLine(stream: Reader, ready: nat -> bool) returns (r: Result<Data, LineError>)
    requires stream.pos == 0
    modifies stream
    ensures r.Ok? ==> IsLine(r.value) && |r.value| <= 8192 && r.value <= stream.content && stream.pos == |r.value|
    ensures (forall k :: ready(k)) && IsLine(stream.content) && |stream.content| <= 8192 ==> r == Ok(stream.content)
    ensures (forall k :: ready(k)) && 10 !in stream.content[..Min(8192, |stream.content|)] ==> r.Err?
    ensures r == Err(Deadline) ==> exists k :: !ready(k)
  {
    var buffer: Data := [];
    ghost var content := stream.content;
    while true
      invariant |buffer| == stream.pos <= |content| && |buffer| <= MAXIMUM
      invariant buffer == content[..|buffer|] && NEWLINE !in buffer
      decreases MAXIMUM - |buffer|
    {
      var available := MAXIMUM - |buffer|;
      if available <= 0 {
        assert |content| > MAXIMUM || content == buffer || NEWLINE !in content[..MAXIMUM];
        return Err(TooLong);
      }
      if !ready(|buffer|) {
        return Err(Deadline);
      }
      var chunk := stream.Read(Min(CHUNK, available));
      if chunk == [] {
        assert content[..|content|] == content;
        return Err(ClosedEarly);
      }
      ghost var before := buffer;
      buffer := buffer + chunk;
      assert buffer == content[..|buffer|];
      if NEWLINE in buffer {
        var newline := Find(buffer, NEWLINE);
        if newline != |buffer| - 1 {
          NotALine(content, newline);
          return Err(Ambiguous);
        }
        assert IsLine(buffer);
        assert buffer[newline] == content[newline];
        WholeLine(content, buffer);
        return Ok(buffer);
      }
    }
  }

  /** bytes.find of a byte that occurs. */
  method Find(b: Data, x: Byte) returns (i: nat)
    requires x in b
    ensures i < |b| && b[i] == x && x !in b[..i]
  {
    i := 0;
    while b[i] != x
      invariant i < |b| && x !in b[..i] && x in b[i..]
      decreases |b| - i
    {
      i := i + 1;
    }
  }

  lemma NotALine(content: Data, i: nat)
    requires i < |content| - 1 && content[i] == NEWLINE
    ensures !IsLine(content)
  {
    assert content[..|content| - 1][i] == NEWLINE;
  }

  lemma WholeLine(content: Data, line: Data)
    requires IsLine(line) && line <= content
    ensures IsLine(content) ==> content == line
    ensures |line| <= MAXIMUM ==> NEWLINE in content[..Min(MAXIMUM, |content|)]
  {
    assert line[|line| - 1] == content[|line| - 1];
    if |line| < |content| {
      assert content[|line| - 1] in content[..|content| - 1];
    }
    if |line| <= MAXIMUM {
      assert content[..Min(MAXIMUM, |content|)][|line| - 1] == NEWLINE;
    }
  }
}
