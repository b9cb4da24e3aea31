/**
 * Concurrent no-replace publication: any number of publishers of one destination, each a sequence of
 * system calls, interleaved by an adversary who may also fail or kill any of them.
 */
module Publication {
  import opened Common
  import opened Bytes

  const MAX_BYTES := 2 * 1024 * 1024

  type Pid = nat

  type InodeId = nat

  /** A file: its bytes, permissions, link count and change stamp. */
  datatype Inode = Inode(data: Data, regular: bool, canonicalMode: bool, links: nat, changed: nat, owner: Option<Pid>)

  /** What fstat reports, as _file_identity compares it. */
  datatype Stat = Stat(id: InodeId, regular: bool, canonicalMode: bool, links: nat, size: nat, changed: nat)

  datatype Step =
    | Idle
    | Writing(written: nat)
    | Ready
    | Linked
    | Exists
    | Reading(before: Stat, got: Data)
    | Closing(ok: bool)
    | Done(ok: bool)
    | Crashed

  datatype Publisher = Publisher(payload: Data, step: Step)

  datatype State = State(
    inodes: map<InodeId, Inode>, destination: Option<InodeId>, temps: map<Pid, InodeId>, pubs: map<Pid, Publisher>)

  datatype Event =
    | Create(p: Pid, id: InodeId)
    | Write(p: Pid, count: nat)
    | Chmod(p: Pid)
    | Link(p: Pid)
    | SyncOk(p: Pid)
    | OpenExisting(p: Pid)
    | ReadChunk(p: Pid, count: nat)
    | Compare(p: Pid)
    | Fail(p: Pid)
    | Unlink(p: Pid)
    | Crash(p: Pid)

  function StatOf(s: State, id: InodeId): Stat
    requires id in s.inodes
  {
    var n := s.inodes[id];
    Stat(id, n.regular, n.canonicalMode, n.links, |n.data|, n.changed)
  }

  function SetStep(s: State, p: Pid, step: Step): State
    requires p in s.pubs
  {
    s.(pubs := s.pubs[p := s.pubs[p].(step := step)])
  }

  function Touch(n: Inode): Inode {
    n.(changed := n.changed + 1)
  }

  // ----- system calls

  /** mkstemp: a new private file under a name of its own. */
  function OnCreate(s: State, p: Pid, id: InodeId): State
    requires p in s.pubs
  {
    SetStep(s, p, Writing(0)).(
      inodes := s.inodes[id := Inode([], true, false, 1, 0, Some(p))],
      temps := s.temps[p := id])
  }

  function OnWrite(s: State, p: Pid, count: nat): State
    requires p in s.pubs && p in s.temps && s.temps[p] in s.inodes
    requires count <= |s.pubs[p].payload|
  {
    var id := s.temps[p];
    SetStep(s, p, Writing(count)).(
      inodes := s.inodes[id := Touch(s.inodes[id]).(data := s.pubs[p].payload[..count])])
  }

  function OnChmod(s: State, p: Pid): State
    requires p in s.pubs && p in s.temps && s.temps[p] in s.inodes
  {
    var id := s.temps[p];
    SetStep(s, p, Ready).(inodes := s.inodes[id := Touch(s.inodes[id]).(canonicalMode := true)])
  }

  /** link: the atomic commit point, refused when the destination exists. */
  function OnLink(s: State, p: Pid): State
    requires p in s.pubs && p in s.temps && s.temps[p] in s.inodes
  {
    if s.destination.Some? then SetStep(s, p, Exists)
    else
      var id := s.temps[p];
      SetStep(s, p, Linked).(
        destination := Some(id),
        inodes := s.inodes[id := Touch(s.inodes[id]).(links := s.inodes[id].links + 1)])
  }

  /** open and fstat of the existing destination, with the refusals on its kind, mode and size. */
  function OnOpen(s: State, p: Pid): State
    requires p in s.pubs
  {
    if s.destination.None? || s.destination.value !in s.inodes then SetStep(s, p, Closing(false))
    else
      var before := StatOf(s, s.destination.value);
      if !before.regular || !before.canonicalMode || before.size > MAX_BYTES then SetStep(s, p, Closing(false))
      else SetStep(s, p, Reading(before, []))
  }

  function OnRead(s: State, p: Pid, count: nat): State
    requires p in s.pubs && s.pubs[p].step.Reading?
  {
    var step := s.pubs[p].step;
    if step.before.id !in s.inodes then SetStep(s, p, Closing(false))
    else
      var data := s.inodes[step.before.id].data;
      var upTo := Min(|step.got| + count, |data|);
      if |step.got| > upTo then s
      else if upTo > MAX_BYTES then SetStep(s, p, Closing(false))
      else SetStep(s, p, Reading(step.before, step.got + data[|step.got|..upTo]))
  }

  /** At end of file: the identity must not have moved and the bytes must be the publisher's own. */
  function OnCompare(s: State, p: Pid): State
    requires p in s.pubs && s.pubs[p].step.Reading?
  {
    var step := s.pubs[p].step;
    if step.before.id !in s.inodes || s.destination.None? || s.destination.value !in s.inodes then SetStep(s, p, Closing(false))
    else
      var after, rebound := StatOf(s, step.before.id), StatOf(s, s.destination.value);
      if |step.got| < after.size then s
      else if step.before != after || after != rebound || |step.got| != after.size then SetStep(s, p, Closing(false))
      else SetStep(s, p, Closing(step.got == s.pubs[p].payload))
  }

  function OnUnlink(s: State, p: Pid): State
    requires p in s.pubs && s.pubs[p].step.Closing?
  {
    var t := SetStep(s, p, Done(s.pubs[p].step.ok));
    if p in s.temps && s.temps[p] in s.inodes then
      var n := s.inodes[s.temps[p]];
      t.(temps := s.temps - {p},
         inodes := s.inodes[s.temps[p] := Touch(n).(links := if n.links > 0 then n.links - 1 else 0)])
    else t.(temps := s.temps - {p})
  }

  predicate HasTemp(s: State, p: Pid) {
    p in s.temps && s.temps[p] in s.inodes
  }

  function Apply(s: State, e: Event): State {
    if e.p !in s.pubs then s
    else
      var step := s.pubs[e.p].step;
      match e
      case Create(p, id) => if step.Idle? && id !in s.inodes then OnCreate(s, p, id) else s
      case Write(p, count) =>
        if step.Writing? && HasTemp(s, p) && step.written <= count <= |s.pubs[p].payload| then OnWrite(s, p, count) else s
      case Chmod(p) =>
        if step.Writing? && HasTemp(s, p) && step.written == |s.pubs[p].payload| then OnChmod(s, p) else s
      case Link(p) => if step.Ready? && HasTemp(s, p) then OnLink(s, p) else s
      case SyncOk(p) => if step.Linked? then SetStep(s, p, Closing(true)) else s
      case OpenExisting(p) => if step.Exists? then OnOpen(s, p) else s
      case ReadChunk(p, count) => if step.Reading? then OnRead(s, p, count) else s
      case Compare(p) => if step.Reading? then OnCompare(s, p) else s
      case Fail(p) =>
        if step.Writing? || step.Ready? || step.Linked? || step.Exists? || step.Reading? then SetStep(s, p, Closing(false)) else s
      case Unlink(p) => if step.Closing? then OnUnlink(s, p) else s
      case Crash(p) => if step.Done? then s else SetStep(s, p, Crashed)
  }

  function Run(s: State, events: seq<Event>): State
    decreases |events|
  {
    if events == [] then s else Run(Apply(s, events[0]), events[1..])
  }

  // ----- the invariant

  type Inodes = map<InodeId, Inode>

  ghost predicate Whole(inodes: Inodes, id: InodeId, payload: Data) {
    id in inodes && inodes[id].data == payload && inodes[id].canonicalMode && inodes[id].regular
  }

  /** The destination holds these bytes. */
  ghost predicate Holds(inodes: Inodes, destination: Option<InodeId>, payload: Data) {
    destination.Some? && destination.value in inodes && inodes[destination.value].data == payload
  }

  /** The publisher is still before its link call: its file is its own and not the destination. */
  ghost predicate Private(inodes: Inodes, destination: Option<InodeId>, temps: map<Pid, InodeId>, p: Pid) {
    && p in temps && temps[p] in inodes && inodes[temps[p]].owner == Some(p)
    && destination != Some(temps[p])
  }

  ghost predicate PubSound(inodes: Inodes, destination: Option<InodeId>, temps: map<Pid, InodeId>, p: Pid, pub: Publisher) {
    match pub.step
    case Idle => p !in temps
    case Writing(n) =>
      && Private(inodes, destination, temps, p) && n <= |pub.payload|
      && inodes[temps[p]].data == pub.payload[..n] && inodes[temps[p]].regular
    case Ready => Private(inodes, destination, temps, p) && Whole(inodes, temps[p], pub.payload)
    case Linked => Holds(inodes, destination, pub.payload)
    case Exists => true
    case Reading(before, got) =>
      destination == Some(before.id) && before.id in inodes && got <= inodes[before.id].data
    case Closing(ok) => ok ==> Holds(inodes, destination, pub.payload)
    case Done(ok) => p !in temps && (ok ==> Holds(inodes, destination, pub.payload))
    case Crashed => true
  }

  /** A destination created by a publisher holds the whole of that publisher's payload, with canonical mode. */
  ghost predicate Complete(s: State) {
    s.destination.Some? ==>
      && s.destination.value in s.inodes
      && var n := s.inodes[s.destination.value];
         n.owner.Some? ==> n.owner.value in s.pubs && Whole(s.inodes, s.destination.value, s.pubs[n.owner.value].payload)
  }

  ghost predicate Names(s: State) {
    && (forall p, q :: p in s.temps && q in s.temps && p != q ==> s.temps[p] != s.temps[q])
    && (forall p :: p in s.temps ==> p in s.pubs && s.temps[p] in s.inodes)
  }

  ghost predicate Inv(s: State) {
    Complete(s) && Names(s) && forall p :: p in s.pubs ==> PubSound(s.inodes, s.destination, s.temps, p, s.pubs[p])
  }

  /** Before any publisher has started: the destination may already exist with any content. */
  ghost predicate Start(s: State) {
    && s.temps == map[] && (forall p :: p in s.pubs ==> s.pubs[p].step.Idle?)
    && (s.destination.Some? ==> s.destination.value in s.inodes && s.inodes[s.destination.value].owner.None?)
  }

  lemma StartInv(s: State)
    requires Start(s)
    ensures Inv(s)
  {
  }

  /** The destination, once there, keeps its file and bytes; payloads never change. */
  ghost predicate Stable(s: State, t: State) {
    && t.pubs.Keys == s.pubs.Keys
    && (forall p :: p in s.pubs ==> t.pubs[p].payload == s.pubs[p].payload)
    && (forall p :: p in s.pubs && s.pubs[p].step.Done? ==> t.pubs[p] == s.pubs[p])
    && (s.destination.Some? && s.destination.value in s.inodes ==>
          && t.destination == s.destination && s.destination.value in t.inodes
          && t.inodes[s.destination.value].data == s.inodes[s.destination.value].data)
  }

  ghost predicate Kept(s: State, t: State) {
    Inv(t) && Stable(s, t)
  }

  /** What one publisher relies on is not disturbed by a step of another. */
  lemma Undisturbed(s: State, t: State, q: Pid)
    requires q in s.pubs && q in t.pubs && t.pubs[q] == s.pubs[q]
    requires PubSound(s.inodes, s.destination, s.temps, q, s.pubs[q])
    requires q in t.temps <==> q in s.temps
    requires q in s.temps ==> t.temps[q] == s.temps[q]
    requires q in s.temps && s.temps[q] in s.inodes && s.destination != Some(s.temps[q]) ==>
               s.temps[q] in t.inodes && t.inodes[s.temps[q]] == s.inodes[s.temps[q]] && t.destination != Some(s.temps[q])
    requires s.destination.Some? && s.destination.value in s.inodes ==>
               && t.destination == s.destination && s.destination.value in t.inodes
               && t.inodes[s.destination.value].data == s.inodes[s.destination.value].data
    ensures PubSound(t.inodes, t.destination, t.temps, q, t.pubs[q])
  {
  }

  lemma OwnStep(s: State, p: Pid, step: Step)
    requires Inv(s) && p in s.pubs && !s.pubs[p].step.Done?
    requires PubSound(s.inodes, s.destination, s.temps, p, s.pubs[p].(step := step))
    ensures Kept(s, SetStep(s, p, step))
  {
    hide PubSound, Whole;
    var t := SetStep(s, p, step);
    forall q | q in t.pubs && q != p
      ensures PubSound(t.inodes, t.destination, t.temps, q, t.pubs[q])
    {
      assert PubSound(s.inodes, s.destination, s.temps, q, s.pubs[q]);
    }
  }

  lemma CreateStep(s: State, p: Pid, id: InodeId)
    requires Inv(s) && p in s.pubs && s.pubs[p].step.Idle? && id !in s.inodes
    ensures Kept(s, OnCreate(s, p, id))
  {
    var t := OnCreate(s, p, id);
    assert PubSound(s.inodes, s.destination, s.temps, p, s.pubs[p]);
    OthersUndisturbed(s, t, p);
  }

  /** Only p's own file, name and step change, and p's file was not the destination. */
  ghost predicate OnlyOwn(s: State, t: State, p: Pid) {
    && t.pubs.Keys == s.pubs.Keys && (forall q :: q in s.pubs && q != p ==> t.pubs[q] == s.pubs[q])
    && (forall q :: q != p ==> (q in t.temps <==> q in s.temps) && (q in s.temps ==> t.temps[q] == s.temps[q]))
    && (forall id :: id in s.inodes && (p in t.temps ==> id != t.temps[p]) ==> id in t.inodes && t.inodes[id] == s.inodes[id])
    && t.destination == s.destination
    && (p in t.temps ==> s.destination != Some(t.temps[p]) && forall q :: q in s.temps && q != p ==> s.temps[q] != t.temps[p])
  }

  lemma OthersUndisturbed(s: State, t: State, p: Pid)
    requires Inv(s) && p in s.pubs && OnlyOwn(s, t, p)
    ensures forall q :: q in t.pubs && q != p ==> PubSound(t.inodes, t.destination, t.temps, q, t.pubs[q])
  {
    hide PubSound, Whole;
    forall q | q in t.pubs && q != p
      ensures PubSound(t.inodes, t.destination, t.temps, q, t.pubs[q])
    {
      assert PubSound(s.inodes, s.destination, s.temps, q, s.pubs[q]);
      Undisturbed(s, t, q);
    }
  }

  lemma WriteStep(s: State, p: Pid, count: nat)
    requires Inv(s) && p in s.pubs && s.pubs[p].step.Writing? && HasTemp(s, p) && count <= |s.pubs[p].payload|
    ensures Kept(s, OnWrite(s, p, count))
  {
    var t := OnWrite(s, p, count);
    assert PubSound(s.inodes, s.destination, s.temps, p, s.pubs[p]);
    OthersUndisturbed(s, t, p);
    hide Whole;
    assert PubSound(t.inodes, t.destination, t.temps, p, t.pubs[p]);
  }

  lemma ChmodStep(s: State, p: Pid)
    requires Inv(s) && p in s.pubs && HasTemp(s, p)
    requires s.pubs[p].step == Writing(|s.pubs[p].payload|)
    ensures Kept(s, OnChmod(s, p))
  {
    var t := OnChmod(s, p);
    assert PubSound(s.inodes, s.destination, s.temps, p, s.pubs[p]);
    OthersUndisturbed(s, t, p);
    assert s.pubs[p].payload[..|s.pubs[p].payload|] == s.pubs[p].payload;
    assert PubSound(t.inodes, t.destination, t.temps, p, t.pubs[p]);
  }

  lemma LinkStep(s: State, p: Pid)
    requires Inv(s) && p in s.pubs && s.pubs[p].step.Ready? && HasTemp(s, p)
    ensures Kept(s, OnLink(s, p))
    ensures s.destination.None? ==> Holds(OnLink(s, p).inodes, OnLink(s, p).destination, s.pubs[p].payload)
  {
    var t := OnLink(s, p);
    assert PubSound(s.inodes, s.destination, s.temps, p, s.pubs[p]);
    if s.destination.Some? {
      OwnStep(s, p, Exists);
    } else {
      forall q | q in t.pubs && q != p
        ensures PubSound(t.inodes, t.destination, t.temps, q, t.pubs[q])
      {
        assert PubSound(s.inodes, s.destination, s.temps, q, s.pubs[q]);
        Undisturbed(s, t, q);
      }
    }
  }

  lemma UnlinkStep(s: State, p: Pid)
    requires Inv(s) && p in s.pubs && s.pubs[p].step.Closing?
    ensures Kept(s, OnUnlink(s, p)) && p !in OnUnlink(s, p).temps
  {
    var t := OnUnlink(s, p);
    assert PubSound(s.inodes, s.destination, s.temps, p, s.pubs[p]);
    forall q | q in t.pubs && q != p
      ensures PubSound(t.inodes, t.destination, t.temps, q, t.pubs[q])
    {
      assert PubSound(s.inodes, s.destination, s.temps, q, s.pubs[q]);
      Undisturbed(s, t, q);
    }
  }

  lemma ReadSteps(s: State, e: Event)
    requires Inv(s) && e.p in s.pubs
    requires (e.OpenExisting? && s.pubs[e.p].step.Exists?) || ((e.ReadChunk? || e.Compare?) && s.pubs[e.p].step.Reading?)
    ensures Kept(s, Apply(s, e))
  {
    hide Whole;
    assert PubSound(s.inodes, s.destination, s.temps, e.p, s.pubs[e.p]);
    var t := Apply(s, e);
    if t != s {
      OwnStep(s, e.p, t.pubs[e.p].step);
    } else {
      Unchanged(s);
    }
  }

  lemma Unchanged(s: State)
    requires Inv(s)
    ensures Kept(s, s)
  {
    hide PubSound, Whole;
  }

  lemma StepKeeps(s: State, e: Event)
    requires Inv(s)
    ensures Kept(s, Apply(s, e))
  {
    hide Inv, Stable, OnCreate, OnWrite, OnChmod, OnLink, OnOpen, OnRead, OnCompare, OnUnlink;
    if Apply(s, e) == s {
      Unchanged(s);
    } else {
      match e
      case Create(p, id) => CreateStep(s, p, id);
      case Write(p, count) => WriteStep(s, p, count);
      case Chmod(p) => ChmodStep(s, p);
      case Link(p) => LinkStep(s, p);
      case OpenExisting(p) => ReadSteps(s, e);
      case ReadChunk(p, count) => ReadSteps(s, e);
      case Compare(p) => ReadSteps(s, e);
      case Unlink(p) => UnlinkStep(s, p);
      case _ => SimpleSteps(s, e);
    }
  }

  lemma SimpleSteps(s: State, e: Event)
    requires Inv(s) && (e.SyncOk? || e.Fail? || e.Crash?) && Apply(s, e) != s
    ensures Kept(s, Apply(s, e))
  {
    hide Whole;
    assert PubSound(s.inodes, s.destination, s.temps, e.p, s.pubs[e.p]);
    OwnStep(s, e.p, Apply(s, e).pubs[e.p].step);
  }

  lemma StableTransitive(s: State, t: State, u: State)
    requires Stable(s, t) && Stable(t, u)
    ensures Stable(s, u)
  {
  }

  lemma {:induction false} RunKeeps(s: State, events: seq<Event>)
    requires Inv(s)
    ensures Kept(s, Run(s, events))
    decreases |events|
  {
    hide Apply, Inv, Stable;
    if events == [] {
      Unchanged(s);
    } else {
      StepKeeps(s, events[0]);
      RunKeeps(Apply(s, events[0]), events[1..]);
      StableTransitive(s, Apply(s, events[0]), Run(s, events));
    }
  }

  // ----- the protocol's promises

  /**
   * From the moment it exists the destination is complete - all of one publisher's payload, or the
   * file that was there before - and no later event changes its bytes.
   */
  lemma DestinationIsFinal(s: State, before: seq<Event>, after: seq<Event>)
    requires Start(s) && Run(s, before).destination.Some?
    ensures var t := Run(s, before);
            var u := Run(t, after);
            && t.destination.value in t.inodes && u.destination == t.destination && u.destination.value in u.inodes
            && u.inodes[u.destination.value].data == t.inodes[t.destination.value].data
            && (s.destination.Some? ==>
                  t.destination == s.destination && t.inodes[t.destination.value].data == s.inodes[s.destination.value].data)
            && (t.inodes[t.destination.value].owner.Some? ==>
                  && t.inodes[t.destination.value].owner.value in s.pubs
                  && t.inodes[t.destination.value].data == s.pubs[t.inodes[t.destination.value].owner.value].payload
                  && t.inodes[t.destination.value].canonicalMode)
  {
    hide Apply, PubSound, Names;
    StartInv(s);
    RunKeeps(s, before);
    RunKeeps(Run(s, before), after);
  }

  /** Success is never wrong: a publisher that reports success saw its own bytes at the destination, for good. */
  lemma SuccessIsOwnPayload(s: State, before: seq<Event>, after: seq<Event>, p: Pid)
    requires Start(s) && p in s.pubs && p in Run(s, before).pubs && Run(s, before).pubs[p].step == Done(true)
    ensures var u := Run(Run(s, before), after);
            && p in u.pubs && u.pubs[p].step == Done(true) && u.pubs[p].payload == s.pubs[p].payload
            && Holds(u.inodes, u.destination, s.pubs[p].payload)
  {
    hide Apply, Complete, Names;
    StartInv(s);
    RunKeeps(s, before);
    var t := Run(s, before);
    RunKeeps(t, after);
    var u := Run(t, after);
    assert PubSound(u.inodes, u.destination, u.temps, p, u.pubs[p]);
  }

  /** At most one distinct payload ever succeeds. */
  lemma OnePayloadSucceeds(s: State, events: seq<Event>, p: Pid, q: Pid)
    requires Start(s) && p in s.pubs && q in s.pubs
    requires p in Run(s, events).pubs && q in Run(s, events).pubs
    requires Run(s, events).pubs[p].step == Done(true) && Run(s, events).pubs[q].step == Done(true)
    ensures s.pubs[p].payload == s.pubs[q].payload
  {
    hide Apply, PubSound;
    SuccessIsOwnPayload(s, events, [], p);
    SuccessIsOwnPayload(s, events, [], q);
  }

  /** Every publisher that finishes, either way, leaves no temporary file. */
  lemma NoTemporaryLeft(s: State, events: seq<Event>, p: Pid)
    requires Start(s) && p in s.pubs && p in Run(s, events).pubs && Run(s, events).pubs[p].step.Done?
    ensures p !in Run(s, events).temps
  {
    hide Apply, Complete, Names;
    StartInv(s);
    RunKeeps(s, events);
    var t := Run(s, events);
    assert PubSound(t.inodes, t.destination, t.temps, p, t.pubs[p]);
  }

  // ----- when a publisher with equal bytes is refused

  /** Every temporary name is of a file its own publisher created. */
  ghost predicate Owned(s: State) {
    forall p :: p in s.temps ==> s.temps[p] in s.inodes && s.inodes[s.temps[p]].owner == Some(p)
  }

  lemma OwnedStep(s: State, e: Event)
    requires Inv(s) && Owned(s)
    ensures Owned(Apply(s, e))
  {
    hide PubSound, Complete;
  }

  lemma {:induction false} OwnedRun(s: State, events: seq<Event>)
    requires Inv(s) && Owned(s)
    ensures Owned(Run(s, events))
    decreases |events|
  {
    hide Inv, Apply, Owned;
    if events != [] {
      OwnedStep(s, events[0]);
      StepKeeps(s, events[0]);
      OwnedRun(Apply(s, events[0]), events[1..]);
    }
  }

  /** The publisher whose file is the destination drops its temporary name. */
  ghost predicate WinnerUnlinks(s: State, e: Event) {
    && e.Unlink? && e.p in s.pubs && s.pubs[e.p].step.Closing?
    && e.p in s.temps && s.destination == Some(s.temps[e.p])
  }

  function StampOf(s: State): nat
    requires s.destination.Some? && s.destination.value in s.inodes
  {
    s.inodes[s.destination.value].changed
  }

  /** Once there, the destination changes its identity, by its stamp alone going up, exactly at the winner's unlink. */
  lemma StatMovesIff(s: State, e: Event)
    requires Inv(s) && Owned(s) && s.destination.Some? && s.destination.value in s.inodes
    ensures var t := Apply(s, e);
            && t.destination == s.destination && s.destination.value in t.inodes
            && StampOf(t) >= StampOf(s)
            && (StampOf(t) == StampOf(s) <==> !WinnerUnlinks(s, e))
            && (StatOf(t, s.destination.value) == StatOf(s, s.destination.value) <==> !WinnerUnlinks(s, e))
            && (WinnerUnlinks(s, e) ==> s.inodes[s.destination.value].owner == Some(e.p))
  {
    hide Whole, Holds, Complete;
    if e.p in s.pubs {
      assert PubSound(s.inodes, s.destination, s.temps, e.p, s.pubs[e.p]);
    }
  }

  /** Somewhere in this run the winner drops its temporary name. */
  ghost predicate Dropped(s: State, events: seq<Event>)
    decreases |events|
  {
    events != [] && (WinnerUnlinks(s, events[0]) || Dropped(Apply(s, events[0]), events[1..]))
  }

  lemma {:induction false} RunMovesIff(s: State, events: seq<Event>)
    requires Inv(s) && Owned(s) && s.destination.Some? && s.destination.value in s.inodes
    ensures var t := Run(s, events);
            && t.destination == s.destination && s.destination.value in t.inodes
            && StampOf(t) >= StampOf(s)
            && (StampOf(t) == StampOf(s) <==> !Dropped(s, events))
            && (StatOf(t, s.destination.value) == StatOf(s, s.destination.value) <==> !Dropped(s, events))
    decreases |events|
  {
    hide Inv, Apply, Owned, WinnerUnlinks;
    if events != [] {
      StatMovesIff(s, events[0]);
      StepKeeps(s, events[0]);
      OwnedStep(s, events[0]);
      RunMovesIff(Apply(s, events[0]), events[1..]);
    }
  }

  predicate Over(step: Step) {
    step.Closing? || step.Done? || step.Crashed?
  }

  /** A publisher that has started reading keeps what it saw first until it is over. */
  lemma ReadingStep(s: State, e: Event, p: Pid)
    requires p in s.pubs && (s.pubs[p].step.Reading? || Over(s.pubs[p].step))
    ensures var t := Apply(s, e);
            && p in t.pubs && t.pubs[p].payload == s.pubs[p].payload
            && (t.pubs[p].step.Reading? ==> s.pubs[p].step.Reading? && t.pubs[p].step.before == s.pubs[p].step.before)
            && (t.pubs[p].step.Reading? || Over(t.pubs[p].step))
  {
  }

  lemma {:induction false} ReadingRun(s: State, events: seq<Event>, p: Pid)
    requires p in s.pubs && (s.pubs[p].step.Reading? || Over(s.pubs[p].step))
    ensures var t := Run(s, events);
            && p in t.pubs && t.pubs[p].payload == s.pubs[p].payload
            && (t.pubs[p].step.Reading? ==> s.pubs[p].step.Reading? && t.pubs[p].step.before == s.pubs[p].step.before)
    decreases |events|
  {
    hide Apply;
    if events != [] {
      ReadingStep(s, events[0], p);
      ReadingRun(Apply(s, events[0]), events[1..], p);
    }
  }

  /**
   * A publisher that opened the existing destination and has read all of it succeeds exactly when the destination
   * holds its payload and the winner did not drop its temporary name since that open. So equal bytes are refused
   * there if and only if the winner's unlink fell in between.
   */
  lemma CompareDecides(start: State, before: seq<Event>, p: Pid, between: seq<Event>)
    requires Start(start) && p in start.pubs
    requires p in Run(start, before).pubs && Run(start, before).pubs[p].step.Exists?
    requires Apply(Run(start, before), OpenExisting(p)).pubs[p].step.Reading?
    requires var t := Run(Apply(Run(start, before), OpenExisting(p)), between);
             && p in t.pubs && t.pubs[p].step.Reading? && t.destination.Some? && t.destination.value in t.inodes
             && |t.pubs[p].step.got| == |t.inodes[t.destination.value].data|
    ensures var seen := Apply(Run(start, before), OpenExisting(p));
            var t := Run(seen, between);
            p in Apply(t, Compare(p)).pubs
            && Apply(t, Compare(p)).pubs[p].step
            == Closing(Holds(t.inodes, t.destination, start.pubs[p].payload) && !Dropped(seen, between))
  {
    hide Apply, Inv, Owned, Stable;
    StartInv(start);
    StartOwned(start);
    RunKeeps(start, before);
    OwnedRun(start, before);
    var s := Run(start, before);
    SamePayload(start, before, p);
    StepKeeps(s, OpenExisting(p));
    OwnedStep(s, OpenExisting(p));
    var seen := Apply(s, OpenExisting(p));
    OpenSees(s, p);
    RunKeeps(seen, between);
    RunMovesIff(seen, between);
    ReadingRun(seen, between, p);
    CompareStep(Run(seen, between), p, seen);
  }

  lemma StartOwned(s: State)
    requires Start(s)
    ensures Owned(s)
  {
  }

  lemma SamePayload(s: State, events: seq<Event>, p: Pid)
    requires Inv(s) && p in s.pubs
    ensures p in Run(s, events).pubs && Run(s, events).pubs[p].payload == s.pubs[p].payload
  {
    hide Apply, Inv;
    RunKeeps(s, events);
  }

  lemma OpenSees(s: State, p: Pid)
    requires p in s.pubs && s.pubs[p].step.Exists? && Apply(s, OpenExisting(p)).pubs[p].step.Reading?
    ensures var t := Apply(s, OpenExisting(p));
            && p in t.pubs && t.destination.Some? && t.destination.value in t.inodes && t.pubs[p].payload == s.pubs[p].payload
            && t.pubs[p].step.before == StatOf(t, t.destination.value)
  {
  }

  lemma CompareStep(t: State, p: Pid, seen: State)
    requires Inv(t) && p in t.pubs && t.pubs[p].step.Reading?
    requires t.destination.Some? && t.destination.value in t.inodes
    requires seen.destination == t.destination && t.destination.value in seen.inodes
    requires t.pubs[p].step.before == StatOf(seen, t.destination.value)
    requires |t.pubs[p].step.got| == |t.inodes[t.destination.value].data|
    ensures p in Apply(t, Compare(p)).pubs
    ensures Apply(t, Compare(p)).pubs[p].step
         == Closing(Holds(t.inodes, t.destination, t.pubs[p].payload)
                    && StatOf(t, t.destination.value) == StatOf(seen, t.destination.value))
  {
    assert PubSound(t.inodes, t.destination, t.temps, p, t.pubs[p]);
  }

  /** Reads make progress to the end of the file. */
  lemma ReadReachesEnd(s: State, p: Pid)
    requires Inv(s) && p in s.pubs && s.pubs[p].step.Reading?
    requires |s.inodes[s.pubs[p].step.before.id].data| <= MAX_BYTES
    ensures var id := s.pubs[p].step.before.id;
            Apply(s, ReadChunk(p, |s.inodes[id].data|)).pubs[p].step == Reading(s.pubs[p].step.before, s.inodes[id].data)
  {
    assert PubSound(s.inodes, s.destination, s.temps, p, s.pubs[p]);
    var data := s.inodes[s.pubs[p].step.before.id].data;
    var got := s.pubs[p].step.got;
    assert got + data[|got|..] == data;
  }

  lemma {:induction false} RunConcat(s: State, a: seq<Event>, b: seq<Event>)
    ensures Run(s, a + b) == Run(Run(s, a), b)
    decreases |a|
  {
    hide Apply;
    if a == [] {
      assert a + b == b;
    } else {
      assert (a + b)[0] == a[0] && (a + b)[1..] == a[1..] + b;
      RunConcat(Apply(s, a[0]), a[1..], b);
    }
  }

  lemma RunTwo(s: State, a: Event, b: Event)
    ensures Run(s, [a, b]) == Apply(Apply(s, a), b)
  {
    hide Apply;
    assert [a, b][1..] == [b] && [b][1..] == [];
    assert Run(Apply(s, a), [b]) == Run(Apply(Apply(s, a), b), []);
  }

  /** A publisher writes its whole payload into a file of its own. */
  lemma Prepares(s: State, p: Pid, id: InodeId) returns (events: seq<Event>)
    requires p in s.pubs && s.pubs[p].step.Idle? && id !in s.inodes
    ensures Run(s, events) == Prepared(s, p, id)
  {
    var whole := |s.pubs[p].payload|;
    events := [Create(p, id), Write(p, whole)] + [Chmod(p), Chmod(p)];
    RunConcat(s, [Create(p, id), Write(p, whole)], [Chmod(p), Chmod(p)]);
    RunTwo(s, Create(p, id), Write(p, whole));
    var t := Run(s, [Create(p, id), Write(p, whole)]);
    RunTwo(t, Chmod(p), Chmod(p));
    assert s.pubs[p].payload[..whole] == s.pubs[p].payload;
    assert t.pubs[p].payload == s.pubs[p].payload;
  }

  function Prepared(s: State, p: Pid, id: InodeId): State
    requires p in s.pubs
  {
    SetStep(s, p, Ready).(
      inodes := s.inodes[id := Inode(s.pubs[p].payload, true, true, 1, 2, Some(p))], temps := s.temps[p := id])
  }

  // ----- such a refusal happens

  /** Two publishers of the same bytes, and no destination yet. */
  function Twins(payload: Data): State {
    State(map[], None, map[], map[0 := Publisher(payload, Idle), 1 := Publisher(payload, Idle)])
  }

  /** Publisher 0 has linked its file. */
  function Won(payload: Data): State {
    State(map[0 := Inode(payload, true, true, 2, 3, Some(0))], Some(0), map[0 := 0],
          map[0 := Publisher(payload, Closing(true)), 1 := Publisher(payload, Idle)])
  }

  /** Publisher 1 reads the destination it opened before publisher 0 dropped its temporary name. */
  function Comparing(payload: Data, dropped: bool, got: Data): State {
    State(map[0 := Inode(payload, true, true, if dropped then 1 else 2, if dropped then 4 else 3, Some(0)),
              1 := Inode(payload, true, true, 1, 2, Some(1))],
          Some(0), if dropped then map[1 := 1] else map[0 := 0, 1 := 1],
          map[0 := Publisher(payload, if dropped then Done(true) else Closing(true)),
              1 := Publisher(payload, Reading(Stat(0, true, true, 2, |payload|, 3), got))])
  }

  lemma FirstWins(payload: Data) returns (events: seq<Event>)
    ensures Run(Twins(payload), events) == Won(payload)
  {
    var s := Twins(payload);
    events := Prepares(s, 0, 0);
    var t := Prepared(s, 0, 0);
    RunConcat(s, events, [Link(0), SyncOk(0)]);
    RunTwo(t, Link(0), SyncOk(0));
    assert Apply(Apply(t, Link(0)), SyncOk(0)) == Won(payload);
    events := events + [Link(0), SyncOk(0)];
  }

  lemma SecondOpens(payload: Data) returns (events: seq<Event>)
    requires |payload| <= MAX_BYTES
    ensures Run(Won(payload), events) == Comparing(payload, false, [])
  {
    var s := Won(payload);
    events := Prepares(s, 1, 1);
    RunConcat(s, events, [Link(1), OpenExisting(1)]);
    RunTwo(Prepared(s, 1, 1), Link(1), OpenExisting(1));
    OpensWon(payload);
    events := events + [Link(1), OpenExisting(1)];
  }

  lemma OpensWon(payload: Data)
    requires |payload| <= MAX_BYTES
    ensures Apply(Apply(Prepared(Won(payload), 1, 1), Link(1)), OpenExisting(1)) == Comparing(payload, false, [])
  {
  }

  lemma FirstDrops(payload: Data)
    requires |payload| <= MAX_BYTES
    ensures Run(Comparing(payload, false, []), [Unlink(0), ReadChunk(1, |payload|)]) == Comparing(payload, true, payload)
  {
    RunTwo(Comparing(payload, false, []), Unlink(0), ReadChunk(1, |payload|));
    DropsName(payload);
    ReadsAll(payload);
  }

  lemma DropsName(payload: Data)
    ensures Apply(Comparing(payload, false, []), Unlink(0)) == Comparing(payload, true, [])
  {
    var s, t := Comparing(payload, false, []), Comparing(payload, true, []);
    assert Apply(s, Unlink(0)) == OnUnlink(s, 0);
    hide Apply;
    var u := OnUnlink(s, 0);
    assert u.temps == t.temps;
    assert u.inodes == t.inodes;
    assert u.pubs == t.pubs;
  }

  lemma ReadsAll(payload: Data)
    requires |payload| <= MAX_BYTES
    ensures Apply(Comparing(payload, true, []), ReadChunk(1, |payload|)) == Comparing(payload, true, payload)
  {
    assert [] + payload[0..|payload|] == payload;
  }

  lemma SecondRefused(payload: Data)
    ensures var t := Run(Comparing(payload, true, payload), [Compare(1), Unlink(1)]);
            && 0 in t.pubs && 1 in t.pubs && t.pubs[0].step == Done(true) && t.pubs[1].step == Done(false)
            && Holds(t.inodes, t.destination, payload)
  {
    RunTwo(Comparing(payload, true, payload), Compare(1), Unlink(1));
  }

  /** For every payload, a run of two equal publishers in which the second is refused although its bytes are there. */
  lemma EqualBytesRefused(payload: Data) returns (start: State, events: seq<Event>)
    requires 0 < |payload| <= MAX_BYTES
    ensures Start(start) && start == Twins(payload)
    ensures var t := Run(start, events);
            && 0 in t.pubs && 1 in t.pubs && t.pubs[0].step == Done(true) && t.pubs[1].step == Done(false)
            && Holds(t.inodes, t.destination, payload)
  {
    start := Twins(payload);
    var a := FirstWins(payload);
    var b := SecondOpens(payload);
    var c, d := [Unlink(0), ReadChunk(1, |payload|)], [Compare(1), Unlink(1)];
    FirstDrops(payload);
    SecondRefused(payload);
    hide Run, Apply, Comparing, Won, Holds;
    RunConcat(start, a, b);
    RunConcat(start, a + b, c);
    RunConcat(start, a + b + c, d);
    events := a + b + c + d;
  }

  // ----- what one publisher does when nobody interferes

  /** Opening the existing destination: it goes on to read exactly a regular file of canonical mode within 2 MiB. */
  lemma OpenDecides(s: State, p: Pid)
    requires p in s.pubs && s.pubs[p].step.Exists? && s.destination.Some? && s.destination.value in s.inodes
    ensures var n := s.inodes[s.destination.value];
            var t := Apply(s, OpenExisting(p));
            && p in t.pubs && t.inodes == s.inodes && t.destination == s.destination && t.temps == s.temps
            && (t.pubs[p].step.Reading? <==> n.regular && n.canonicalMode && |n.data| <= 2 * 1024 * 1024)
            && (!t.pubs[p].step.Reading? ==> t.pubs[p].step == Closing(false))
  {
  }

  /** The comparison waits for the end of the file. */
  lemma CompareWaits(s: State, p: Pid)
    requires Inv(s) && p in s.pubs && s.pubs[p].step.Reading?
    requires s.destination.Some? && s.destination.value in s.inodes
    requires |s.pubs[p].step.got| < |s.inodes[s.destination.value].data|
    ensures Apply(s, Compare(p)) == s
  {
    assert PubSound(s.inodes, s.destination, s.temps, p, s.pubs[p]);
  }

  /** Whatever fails on the way: the publisher reports failure, its name goes, and the destination is not touched. */
  lemma FailureCleansUp(s: State, p: Pid)
    requires Inv(s) && p in s.pubs
    requires s.pubs[p].step.Writing? || s.pubs[p].step.Ready? || s.pubs[p].step.Linked? || s.pubs[p].step.Exists? || s.pubs[p].step.Reading?
    ensures var t := Run(s, [Fail(p), Unlink(p)]);
            && p in t.pubs && t.pubs[p].step == Done(false) && p !in t.temps && t.destination == s.destination
            && (forall q :: q in s.temps && q != p ==> q in t.temps && t.temps[q] == s.temps[q])
            && (s.destination.Some? && s.destination.value in s.inodes ==>
                  s.destination.value in t.inodes && t.inodes[s.destination.value].data == s.inodes[s.destination.value].data)
  {
    RunTwo(s, Fail(p), Unlink(p));
  }

  /** A killed publisher leaves everything as it is. */
  lemma CrashLeaves(s: State, p: Pid)
    requires p in s.pubs && !s.pubs[p].step.Done?
    ensures Apply(s, Crash(p)) == s.(pubs := s.pubs[p := s.pubs[p].(step := Crashed)])
  {
  }

  function Alone(payload: Data): State {
    State(map[], None, map[], map[0 := Publisher(payload, Idle)])
  }

  /** With no destination yet one publisher succeeds; its bytes stand there in one file of canonical mode and one name. */
  lemma AloneSucceeds(payload: Data) returns (events: seq<Event>)
    ensures Start(Alone(payload))
    ensures var t := Run(Alone(payload), events);
            && 0 in t.pubs && t.pubs[0].step == Done(true) && t.temps == map[]
            && t.destination.Some? && t.destination.value in t.inodes
            && var n := t.inodes[t.destination.value];
               n.data == payload && n.regular && n.canonicalMode && n.links == 1
  {
    var prepare := Prepares(Alone(payload), 0, 0);
    var t := Prepared(Alone(payload), 0, 0);
    var link, drop := [Link(0), SyncOk(0)], [Unlink(0), Unlink(0)];
    AloneLinks(payload);
    AloneDrops(payload);
    hide Run, Apply, AloneLinked;
    events := prepare + (link + drop);
    RunConcat(Alone(payload), prepare, link + drop);
    RunConcat(t, link, drop);
    RunTwo(t, Link(0), SyncOk(0));
    RunTwo(AloneLinked(payload), Unlink(0), Unlink(0));
  }

  function AloneLinked(payload: Data): State {
    State(map[0 := Inode(payload, true, true, 2, 3, Some(0))], Some(0), map[0 := 0], map[0 := Publisher(payload, Closing(true))])
  }

  lemma AloneLinks(payload: Data)
    ensures Apply(Apply(Prepared(Alone(payload), 0, 0), Link(0)), SyncOk(0)) == AloneLinked(payload)
  {
  }

  lemma AloneDrops(payload: Data)
    ensures var t := Apply(Apply(AloneLinked(payload), Unlink(0)), Unlink(0));
            && 0 in t.pubs && t.pubs[0].step == Done(true) && t.temps == map[] && t.destination == Some(0) && 0 in t.inodes
            && var n := t.inodes[0]; n.data == payload && n.regular && n.canonicalMode && n.links == 1
  {
    assert AloneLinked(payload).temps - {0} == map[];
  }

  function Facing(payload: Data, n: Inode): State {
    State(map[0 := n], Some(0), map[], map[0 := Publisher(payload, Idle)])
  }

  /**
   * With a destination there already, one publisher succeeds exactly when that is a regular file of canonical mode,
   * within the bound, with its own bytes; the file is left as it is and the temporary name is gone.
   */
  lemma FacingDecides(payload: Data, n: Inode) returns (events: seq<Event>)
    requires n.owner.None?
    ensures Start(Facing(payload, n))
    ensures var t := Run(Facing(payload, n), events);
            && 0 in t.pubs && t.temps == map[] && t.destination == Some(0) && 0 in t.inodes && t.inodes[0] == n
            && t.pubs[0].step == Done(n.regular && n.canonicalMode && |n.data| <= 2 * 1024 * 1024 && n.data == payload)
  {
    var s := Facing(payload, n);
    var prepare := Prepares(s, 0, 1);
    var t := Prepared(s, 0, 1);
    var open, read, drop := [Link(0), OpenExisting(0)], [ReadChunk(0, |n.data|), Compare(0)], [Unlink(0), Unlink(0)];
    events := prepare + (open + (read + drop));
    RunConcat(s, prepare, open + (read + drop));
    RunConcat(t, open, read + drop);
    var u := Run(t, open);
    RunConcat(u, read, drop);
    RunTwo(t, Link(0), OpenExisting(0));
    FacingOpens(payload, n);
    RunTwo(u, ReadChunk(0, |n.data|), Compare(0));
    FacingReads(payload, n);
    var v := Run(u, read);
    RunTwo(v, Unlink(0), Unlink(0));
    FacingDrops(payload, n, n.regular && n.canonicalMode && |n.data| <= MAX_BYTES && n.data == payload);
  }

  function Faced(payload: Data, n: Inode, step: Step): State {
    State(map[0 := n, 1 := Inode(payload, true, true, 1, 2, Some(0))], Some(0), map[0 := 1], map[0 := Publisher(payload, step)])
  }

  function Opening(n: Inode): Step {
    if n.regular && n.canonicalMode && |n.data| <= MAX_BYTES then Reading(Stat(0, true, true, n.links, |n.data|, n.changed), [])
    else Closing(false)
  }

  lemma FacingOpens(payload: Data, n: Inode)
    ensures Apply(Apply(Prepared(Facing(payload, n), 0, 1), Link(0)), OpenExisting(0)) == Faced(payload, n, Opening(n))
  {
    var t := Prepared(Facing(payload, n), 0, 1);
    assert t == Faced(payload, n, Ready);
    assert Apply(t, Link(0)) == Faced(payload, n, Exists);
  }

  lemma FacingReads(payload: Data, n: Inode)
    ensures Apply(Apply(Faced(payload, n, Opening(n)), ReadChunk(0, |n.data|)), Compare(0))
         == Faced(payload, n, Closing(n.regular && n.canonicalMode && |n.data| <= MAX_BYTES && n.data == payload))
  {
    var s := Faced(payload, n, Opening(n));
    if Opening(n).Reading? {
      assert [] + n.data[0..|n.data|] == n.data;
      assert Apply(s, ReadChunk(0, |n.data|)) == Faced(payload, n, Reading(Opening(n).before, n.data));
    }
  }

  lemma FacingDrops(payload: Data, n: Inode, ok: bool)
    ensures var t := Apply(Apply(Faced(payload, n, Closing(ok)), Unlink(0)), Unlink(0));
            && 0 in t.pubs && t.temps == map[] && t.destination == Some(0) && 0 in t.inodes && t.inodes[0] == n
            && t.pubs[0].step == Done(ok)
  {
    var s := Faced(payload, n, Closing(ok));
    assert s.temps - {0} == map[];
  }
}
