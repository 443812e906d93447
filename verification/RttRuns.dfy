/** SEGGER_RTT_Write against a host that moves the read offset at any moment. */
module RttRuns {
  import opened RttRing

  datatype Mode = NoBlockSkip | NoBlockTrim | BlockIfFifoFull

  /** The writer between two accesses to what it shares with the host. passes counts the turns of
      the copy loop. */
  datatype Pc =
    | Idle
    | Ready(rest: seq<Byte>, passes: nat)
    | Copying(rest: seq<Byte>, passes: nat, n: int)
    | Copied(rest: seq<Byte>, passes: nat, n: int)
    | Bumped(rest: seq<Byte>, passes: nat)

  /** The host between sampling the write offset and moving the read offset: it means to read n
      bytes and has copied chunk so far. */
  datatype Host = Away | Reading(n: nat, chunk: seq<Byte>)

  /** accepted is all that was ever published, received all that the host has read; before and goal
      are what had been accepted when the latest call began and what that call set out to store. */
  datatype Rtt = Rtt(
    buffer: seq<Byte>,
    wrOff: int,
    rdOff: int,
    mode: Mode,
    pc: Pc,
    accepted: seq<Byte>,
    received: seq<Byte>,
    before: seq<Byte>,
    goal: seq<Byte>,
    host: Host)

  /** HostRead is a whole read of the host at once; the last three steps are its parts, byte by
      byte, between which the writer goes on. */
  datatype Step =
    | Write(data: seq<Byte>) | ReadOffset | Copy | MoveOffset | WrapOffset
    | HostRead(n: nat) | HostSample(n: nat) | HostCopy | HostMove

  function Size(s: Rtt): int {
    |s.buffer|
  }

  function Min(a: int, b: int): int {
    if a < b then a else b
  }

  /** What the host finds by the rule SEGGER_RTT_Read uses in the other direction. */
  function HostAvailable(s: Rtt): int {
    if s.rdOff > s.wrOff then Size(s) - s.rdOff + s.wrOff else s.wrOff - s.rdOff
  }

  /** The write offset has been moved to the end of the buffer and not yet back to 0, and the host
      has caught up. */
  predicate InWindow(s: Rtt) {
    s.wrOff == Size(s) && s.rdOff == 0
  }

  predicate Enabled(s: Rtt, step: Step) {
    match step
    case Write(_) => s.pc.Idle?
    case ReadOffset => s.pc.Ready?
    case Copy => s.pc.Copying?
    case MoveOffset => s.pc.Copied?
    case WrapOffset => s.pc.Bumped?
    case HostRead(n) => s.host.Away? && n <= HostAvailable(s)
    case HostSample(n) => s.host.Away? && n <= HostAvailable(s)
    case HostCopy => s.host.Reading? && |s.host.chunk| < s.host.n
    case HostMove => s.host.Reading? && |s.host.chunk| == s.host.n
  }

  /** What a call sets out to store, given the space it finds. */
  function Goal(mode: Mode, data: seq<Byte>, free: int): seq<Byte> {
    if mode == BlockIfFifoFull || |data| <= free then data
    else if mode == NoBlockSkip || free < 0 then []
    else data[..free]
  }

  ghost predicate Shape(s: Rtt) {
    && 2 <= Size(s) && 0 <= s.rdOff < Size(s) && 0 <= s.wrOff <= Size(s)
    && (s.wrOff == Size(s) ==> s.pc.Bumped?)
    && (s.host.Reading? ==> |s.host.chunk| <= s.host.n <= Size(s))
    && (s.pc.Copying? || s.pc.Copied? ==>
          0 <= s.pc.n <= |s.pc.rest| && s.pc.n <= Free(Size(s), s.rdOff, s.wrOff) && s.wrOff + s.pc.n <= Size(s))
  }

  function Apply(s: Rtt, step: Step): Rtt
    requires Shape(s) && Enabled(s, step)
  {
    match step
    case Write(data) =>
      var goal := Goal(s.mode, data, Free(Size(s), s.rdOff, s.wrOff));
      s.(before := s.accepted, goal := goal, pc := if goal == [] then Idle else Ready(goal, 0))
    case ReadOffset =>
      var n := Min(Min(Free(Size(s), s.rdOff, s.wrOff), Size(s) - s.wrOff), |s.pc.rest|);
      s.(pc := Copying(s.pc.rest, s.pc.passes + 1, n))
    case Copy =>
      s.(buffer := Stored(s.buffer, s.wrOff, s.pc.rest[..s.pc.n]), pc := Copied(s.pc.rest, s.pc.passes, s.pc.n))
    case MoveOffset =>
      s.(wrOff := s.wrOff + s.pc.n, accepted := s.accepted + s.pc.rest[..s.pc.n],
        pc := Bumped(s.pc.rest[s.pc.n..], s.pc.passes))
    case WrapOffset =>
      s.(wrOff := if s.wrOff == Size(s) then 0 else s.wrOff,
         pc := if s.pc.rest == [] then Idle else Ready(s.pc.rest, s.pc.passes))
    case HostRead(n) =>
      s.(received := s.received + Around(s.buffer, s.rdOff, n), rdOff := Advanced(Size(s), s.rdOff, n))
    case HostSample(n) => s.(host := Reading(n, []))
    case HostCopy =>
      s.(host := Reading(s.host.n, s.host.chunk + [s.buffer[Advanced(Size(s), s.rdOff, |s.host.chunk|)]]))
    case HostMove =>
      s.(received := s.received + s.host.chunk, rdOff := Advanced(Size(s), s.rdOff, s.host.n), host := Away)
  }

  // ----- the invariant

  function WrOff(s: Rtt): int {
    if s.wrOff == Size(s) then 0 else s.wrOff
  }

  /** The host has read a prefix of what was accepted; the rest is in the ring. */
  ghost predicate InOrder(s: Rtt) {
    Shape(s) && s.received + Pending(s.buffer, s.rdOff, WrOff(s)) == s.accepted
  }

  ghost predicate Writing(s: Rtt) {
    Shape(s) && match s.pc
    case Idle => s.accepted == s.before + s.goal
    case Ready(rest, _) => s.accepted + rest == s.before + s.goal && rest != []
    case Copying(rest, _, _) => s.accepted + rest == s.before + s.goal && rest != []
    case Copied(rest, _, n) => s.accepted + rest == s.before + s.goal && rest != [] &&
      s.buffer[s.wrOff..s.wrOff + n] == rest[..n]
    case Bumped(rest, _) => s.accepted + rest == s.before + s.goal
  }

  /** Without blocking, all that is left fits, and a second pass starts at the front of the buffer. */
  ghost predicate Progress(s: Rtt) {
    Shape(s) && (s.mode != BlockIfFifoFull ==>
      match s.pc
      case Idle => true
      case Ready(rest, k) => |rest| <= Free(Size(s), s.rdOff, s.wrOff) && k <= 1 && (k == 1 ==> s.wrOff == 0)
      case Copying(rest, k, n) =>
        |rest| <= Free(Size(s), s.rdOff, s.wrOff) && k <= 2 &&
        (n < |rest| ==> k == 1 && s.wrOff + n == Size(s))
      case Copied(rest, k, n) =>
        |rest| <= Free(Size(s), s.rdOff, s.wrOff) && k <= 2 &&
        (n < |rest| ==> k == 1 && s.wrOff + n == Size(s))
      case Bumped(rest, k) =>
        |rest| <= Free(Size(s), s.rdOff, WrOff(s)) && k <= 2 &&
        (rest != [] ==> k == 1 && s.wrOff == Size(s)))
  }

  /** What the host means to read is pending, and it has copied the front of it. */
  ghost predicate Hosting(s: Rtt) {
    Shape(s) && (s.host.Reading? ==>
      var p := Pending(s.buffer, s.rdOff, WrOff(s));
      s.host.n <= |p| && s.host.chunk == p[..|s.host.chunk|])
  }

  ghost predicate Inv(s: Rtt) {
    InOrder(s) && Writing(s) && Progress(s) && Hosting(s)
  }

  /** A host that takes an offset equal to the size for 0 finds nothing in the window. */
  predicate HostTakesTurns(s: Rtt, step: Step) {
    (step.HostRead? || step.HostSample?) && step.n > 0 ==> !InWindow(s)
  }

  /** Taking the front of what is pending, at once or after copying it byte by byte. */
  lemma FrontTaken(s: Rtt, s': Rtt, n: nat)
    requires Inv(s) && n <= |Pending(s.buffer, s.rdOff, WrOff(s))|
    requires s' == s.(received := s.received + Pending(s.buffer, s.rdOff, WrOff(s))[..n],
                      rdOff := Advanced(Size(s), s.rdOff, n), host := Away)
    ensures Inv(s')
  {
    hide Pending, Around, Advanced, Free, Writing, Progress;
    var p := Pending(s.buffer, s.rdOff, WrOff(s));
    ReadFront(s.buffer, s.rdOff, WrOff(s), n);
    FreeIsRest(s.buffer, s.rdOff, WrOff(s));
    FreeIsRest(s.buffer, s'.rdOff, WrOff(s));
    Regrouped(s.received, p, n);
    MoreFree(s, s');
  }

  lemma Regrouped(a: seq<Byte>, b: seq<Byte>, n: nat)
    requires n <= |b|
    ensures (a + b[..n]) + b[n..] == a + b
  {
  }

  lemma MoreFree(s: Rtt, s': Rtt)
    requires Writing(s) && Progress(s) && s' == s.(received := s'.received, rdOff := s'.rdOff, host := Away)
    requires 0 <= s'.rdOff < Size(s) && Free(Size(s), s.rdOff, WrOff(s)) <= Free(Size(s), s'.rdOff, WrOff(s))
    ensures Writing(s') && Progress(s')
  {
    hide Free;
  }

  lemma HostReadKeeps(s: Rtt, n: nat)
    requires Inv(s) && Enabled(s, HostRead(n)) && HostTakesTurns(s, HostRead(n))
    ensures Inv(Apply(s, HostRead(n)))
  {
    AvailableIsPending(s);
    hide Inv, Pending, Around, Advanced;
    if n > 0 {
      ReadFront(s.buffer, s.rdOff, WrOff(s), n);
      FrontTaken(s, Apply(s, HostRead(n)), n);
    } else {
      NothingRead(s);
    }
  }

  lemma AvailableIsPending(s: Rtt)
    requires Inv(s)
    ensures Offsets(s.buffer, s.rdOff, WrOff(s))
    ensures !InWindow(s) ==> HostAvailable(s) == |Pending(s.buffer, s.rdOff, WrOff(s))|
  {
  }

  lemma NothingRead(s: Rtt)
    requires Inv(s) && s.host.Away?
    ensures Inv(Apply(s, HostRead(0)))
  {
    hide Pending, Free;
    assert Around(s.buffer, s.rdOff, 0) == [] && Advanced(Size(s), s.rdOff, 0) == s.rdOff;
    assert Apply(s, HostRead(0)) == s;
  }

  lemma HostSampleKeeps(s: Rtt, n: nat)
    requires Inv(s) && Enabled(s, HostSample(n)) && HostTakesTurns(s, HostSample(n))
    ensures Inv(Apply(s, HostSample(n)))
  {
  }

  lemma NextByte(buffer: seq<Byte>, rd: int, wr: int, k: nat)
    requires Offsets(buffer, rd, wr) && k < |Pending(buffer, rd, wr)|
    ensures 0 <= Advanced(|buffer|, rd, k) < |buffer| && buffer[Advanced(|buffer|, rd, k)] == Pending(buffer, rd, wr)[k]
  {
  }

  lemma HostCopyKeeps(s: Rtt)
    requires Inv(s) && Enabled(s, HostCopy)
    ensures Inv(Apply(s, HostCopy))
  {
    hide Pending, Free, Advanced;
    NextByte(s.buffer, s.rdOff, WrOff(s), |s.host.chunk|);
    var p, k := Pending(s.buffer, s.rdOff, WrOff(s)), |s.host.chunk|;
    assert p[..k + 1] == p[..k] + [p[k]];
  }

  /** Moving the read offset after the copying completes the read. */
  lemma HostMoveKeeps(s: Rtt)
    requires Inv(s) && Enabled(s, HostMove)
    ensures Inv(Apply(s, HostMove))
  {
    hide Pending, Advanced, Free;
    FrontTaken(s, Apply(s, HostMove), s.host.n);
  }

  lemma CopyKeeps(s: Rtt)
    requires Inv(s) && s.pc.Copying?
    ensures Inv(Apply(s, Copy))
  {
    hide Stored, Pending, Free, Writing, Progress;
    StoreDisturbsNothing(s.buffer, s.rdOff, s.wrOff, s.pc.rest[..s.pc.n]);
    CopyWrites(s);
  }

  lemma CopyWrites(s: Rtt)
    requires Writing(s) && Progress(s) && s.pc.Copying?
    ensures Writing(Apply(s, Copy)) && Progress(Apply(s, Copy))
  {
    hide Stored, Free;
    StoredParts(s.buffer, s.wrOff, s.pc.rest[..s.pc.n]);
  }

  lemma FrontStays(p: seq<Byte>, more: seq<Byte>, k: nat)
    requires k <= |p|
    ensures (p + more)[..k] == p[..k]
  {
  }

  lemma MoveKeeps(s: Rtt)
    requires Inv(s) && s.pc.Copied?
    ensures Inv(Apply(s, MoveOffset))
  {
    hide Pending, Free, Goal, InOrder, Writing, Progress, Hosting, Advanced;
    MovePublishes(s);
    MoveOrder(s);
    MoveWriting(s);
  }

  /** What moving the write offset does to the ring. */
  lemma MovePublishes(s: Rtt)
    requires InOrder(s) && Writing(s) && s.pc.Copied?
    ensures var s' := Apply(s, MoveOffset);
      && WrOff(s) == s.wrOff && Offsets(s.buffer, s.rdOff, WrOff(s')) && Shape(s')
      && Pending(s.buffer, s.rdOff, WrOff(s')) == Pending(s.buffer, s.rdOff, s.wrOff) + s.pc.rest[..s.pc.n]
      && Free(Size(s), s.rdOff, WrOff(s')) == Free(Size(s), s.rdOff, s.wrOff) - s.pc.n
  {
    var s' := Apply(s, MoveOffset);
    assert WrOff(s') == Advanced(Size(s), s.wrOff, s.pc.n);
    PublishAppends(s.buffer, s.rdOff, s.wrOff, s.pc.n);
    FreeIsRest(s.buffer, s.rdOff, s.wrOff);
    FreeIsRest(s.buffer, s.rdOff, WrOff(s'));
    hide Pending, Free, Goal, Advanced;
  }

  lemma MoveOrder(s: Rtt)
    requires InOrder(s) && Hosting(s) && s.pc.Copied? && WrOff(s) == s.wrOff && Shape(Apply(s, MoveOffset))
    requires var s' := Apply(s, MoveOffset);
      && Offsets(s.buffer, s.rdOff, WrOff(s'))
      && Pending(s.buffer, s.rdOff, WrOff(s')) == Pending(s.buffer, s.rdOff, s.wrOff) + s.pc.rest[..s.pc.n]
    ensures InOrder(Apply(s, MoveOffset)) && Hosting(Apply(s, MoveOffset))
  {
    hide Pending, Free, Goal;
    var p, chunk := Pending(s.buffer, s.rdOff, s.wrOff), s.pc.rest[..s.pc.n];
    if s.host.Reading? { FrontStays(p, chunk, |s.host.chunk|); }
    assert s.received + (p + chunk) == (s.received + p) + chunk;
  }

  lemma MoveWriting(s: Rtt)
    requires Writing(s) && Progress(s) && s.pc.Copied? && Shape(Apply(s, MoveOffset)) && WrOff(s) == s.wrOff
    requires Free(Size(s), s.rdOff, WrOff(Apply(s, MoveOffset))) == Free(Size(s), s.rdOff, s.wrOff) - s.pc.n
    ensures Writing(Apply(s, MoveOffset)) && Progress(Apply(s, MoveOffset))
  {
    hide Pending, Free, Goal;
    var s', rest := Apply(s, MoveOffset), s.pc.rest;
    assert rest == rest[..s.pc.n] + rest[s.pc.n..];
    assert s'.accepted + rest[s.pc.n..] == s.accepted + rest;
  }

  lemma WriteKeeps(s: Rtt, data: seq<Byte>)
    requires Inv(s) && s.pc.Idle?
    ensures Inv(Apply(s, Write(data)))
  {
    FreeIsRest(s.buffer, s.rdOff, s.wrOff);
    hide Pending, Free;
    assert s.accepted + [] == s.accepted;
  }

  lemma StepKeeps(s: Rtt, step: Step)
    requires Inv(s) && Enabled(s, step) && HostTakesTurns(s, step)
    ensures Inv(Apply(s, step))
  {
    match step
    case Write(data) => WriteKeeps(s, data);
    case HostRead(n) => HostReadKeeps(s, n);
    case HostSample(n) => HostSampleKeeps(s, n);
    case HostCopy => HostCopyKeeps(s);
    case HostMove => HostMoveKeeps(s);
    case Copy => CopyKeeps(s);
    case MoveOffset => MoveKeeps(s);
    case ReadOffset => FreeIsRest(s.buffer, s.rdOff, s.wrOff);
    case WrapOffset => assert s.accepted + [] == s.accepted;
  }

  ghost predicate Runs(s: Rtt, steps: seq<Step>)
    decreases |steps|
  {
    steps == [] || (Shape(s) && Enabled(s, steps[0]) && HostTakesTurns(s, steps[0]) &&
      Runs(Apply(s, steps[0]), steps[1..]))
  }

  function After(s: Rtt, steps: seq<Step>): Rtt
    requires Runs(s, steps)
    decreases |steps|
  {
    if steps == [] then s else After(Apply(s, steps[0]), steps[1..])
  }

  /** SEGGER_RTT_ConfigUpBuffer leaves both offsets at 0. */
  function Start(buffer: seq<Byte>, mode: Mode): Rtt {
    Rtt(buffer, 0, 0, mode, Idle, [], [], [], [], Away)
  }

  lemma {:induction false} RunKeeps(s: Rtt, steps: seq<Step>)
    requires Inv(s) && Runs(s, steps)
    ensures Inv(After(s, steps))
    decreases |steps|
  {
    if steps != [] {
      StepKeeps(s, steps[0]);
      hide Inv, Apply;
      RunKeeps(Apply(s, steps[0]), steps[1..]);
    }
  }

  // ----- the main results

  /** Every interleaving: what the host has read is a prefix of what was accepted, and the rest is
      waiting in order. */
  lemma FifoAlways(buffer: seq<Byte>, mode: Mode, steps: seq<Step>)
    requires 2 <= |buffer| && Runs(Start(buffer, mode), steps)
    ensures var s := After(Start(buffer, mode), steps);
      && s.received <= s.accepted
      && Offsets(s.buffer, s.rdOff, WrOff(s)) && s.accepted[|s.received|..] == Pending(s.buffer, s.rdOff, WrOff(s))
  {
    RunKeeps(Start(buffer, mode), steps);
  }

  /** Every interleaving: when a call has returned, exactly what it set out to store was accepted;
      without blocking it took at most two passes, and never more were begun. */
  lemma WriteCompletes(buffer: seq<Byte>, mode: Mode, steps: seq<Step>)
    requires 2 <= |buffer| && Runs(Start(buffer, mode), steps)
    ensures var s := After(Start(buffer, mode), steps);
      && (s.pc.Idle? ==> s.accepted == s.before + s.goal)
      && (mode != BlockIfFifoFull && !s.pc.Idle? ==> s.pc.passes <= 2)
      && (mode != BlockIfFifoFull && s.pc.Bumped? && s.pc.passes == 2 ==> s.pc.rest == [])
  {
    RunKeeps(Start(buffer, mode), steps);
    ModeStays(Start(buffer, mode), steps);
  }

  lemma {:induction false} ModeStays(s: Rtt, steps: seq<Step>)
    requires Runs(s, steps)
    ensures After(s, steps).mode == s.mode
    decreases |steps|
  {
    if steps != [] { ModeStays(Apply(s, steps[0]), steps[1..]); }
  }

  /** What a call sets out to store: in skip mode all or nothing, in trim mode the longest prefix
      that fitted at the check. */
  lemma CallDecides(s: Rtt, data: seq<Byte>)
    requires Inv(s) && s.pc.Idle?
    ensures var s', free := Apply(s, Write(data)), Size(s) - 1 - |Pending(s.buffer, s.rdOff, WrOff(s))|;
      && s'.before == s.accepted && s'.goal <= data
      && (s.mode == NoBlockSkip ==> s'.goal == (if |data| <= free then data else []))
      && (s.mode == NoBlockTrim ==> |s'.goal| == Min(|data|, free))
      && (s.mode == BlockIfFifoFull ==> s'.goal == data)
  {
    FreeIsRest(s.buffer, s.rdOff, s.wrOff);
  }

  predicate HostStep(step: Step) {
    step.HostRead? || step.HostSample? || step.HostCopy? || step.HostMove?
  }

  function WriterSteps(steps: seq<Step>): nat {
    if steps == [] then 0 else (if HostStep(steps[0]) then 0 else 1) + WriterSteps(steps[1..])
  }

  /** The rest of a turn, whatever the host does in between: what it set out to copy is published. */
  lemma {:induction false} TurnGoesOn(s: Rtt, steps: seq<Step>, n: nat)
    requires Runs(s, steps) && n <= 3 && WriterSteps(steps) == n
    requires n == 3 ==> s.pc.Copying?
    requires n == 2 ==> s.pc.Copied?
    requires n == 1 ==> s.pc.Bumped?
    ensures n >= 2 ==> Shape(s) && After(s, steps).accepted == s.accepted + s.pc.rest[..s.pc.n]
    ensures n < 2 ==> After(s, steps).accepted == s.accepted
    decreases |steps|
  {
    if steps != [] {
      hide Pending, Around, Advanced, Stored, Free;
      var s1 := Apply(s, steps[0]);
      if HostStep(steps[0]) {
        TurnGoesOn(s1, steps[1..], n);
      } else {
        TurnGoesOn(s1, steps[1..], n - 1);
      }
    }
  }

  /** Every turn of the copy loop, in every mode and whatever the host does meanwhile, stores as much
      as fits: all that is left, or up to the end of the buffer, or until the ring is full. So it
      stores something whenever a byte is free. */
  lemma TurnStores(s: Rtt, steps: seq<Step>)
    requires Inv(s) && s.pc.Ready? && Runs(s, steps) && steps != [] && steps[0] == ReadOffset
    requires WriterSteps(steps) == 4
    ensures var stored, free := |After(s, steps).accepted| - |s.accepted|,
        Size(s) - 1 - |Pending(s.buffer, s.rdOff, WrOff(s))|;
      && s.accepted <= After(s, steps).accepted <= s.accepted + s.pc.rest
      && stored <= free && stored <= |s.pc.rest| && s.wrOff + stored <= Size(s)
      && (stored == free || stored == |s.pc.rest| || s.wrOff + stored == Size(s))
      && (stored > 0 <==> free > 0)
  {
    FreeIsRest(s.buffer, s.rdOff, s.wrOff);
    TurnGoesOn(Apply(s, ReadOffset), steps[1..], 3);
    hide Pending, Free;
  }

  /** A host that goes by the offsets as they are gets the next accepted bytes exactly outside the
      window between moving the write offset to the end of the buffer and wrapping it: in it, it
      would read bytes again. */
  lemma HostReadSoundIff(s: Rtt, n: nat)
    requires Inv(s) && s.host.Away? && 0 < n <= HostAvailable(s)
    ensures Apply(s, HostRead(n)).received <= s.accepted <==> !InWindow(s)
  {
    if InWindow(s) {
      assert |s.received| == |s.accepted|;
    } else {
      HostReadKeeps(s, n);
      hide Inv;
      HostPrefix(Apply(s, HostRead(n)));
      assert Apply(s, HostRead(n)).accepted == s.accepted;
    }
  }

  lemma HostPrefix(s: Rtt)
    requires Inv(s)
    ensures s.received <= s.accepted
  {
  }

  lemma RunsOn(s: Rtt, step: Step, rest: seq<Step>)
    requires Shape(s) && Enabled(s, step) && HostTakesTurns(s, step) && Runs(Apply(s, step), rest)
    ensures Runs(s, [step] + rest) && After(s, [step] + rest) == After(Apply(s, step), rest)
  {
    assert ([step] + rest)[1..] == rest;
  }

  /** One byte written up to the end of the buffer, from a ring of two bytes with both offsets at 1. */
  lemma ToTheWindow(s: Rtt)
    requires |s.buffer| == 2 && s.wrOff == s.rdOff == 1 && s.pc.Idle? && s.host.Away? && s.host.Away?
    ensures var steps := [Write([8])] + ([ReadOffset] + ([Copy] + ([MoveOffset] + ([HostRead(1)] + []))));
      Runs(s, steps) && InWindow(After(s, steps)) && HostAvailable(After(s, steps)) == 2
  {
    var s1 := Apply(s, Write([8]));
    var s2 := Apply(s1, ReadOffset);
    var s3 := Apply(s2, Copy);
    var s4 := Apply(s3, MoveOffset);
    RunsOn(s4, HostRead(1), []);
    RunsOn(s3, MoveOffset, [HostRead(1)] + []);
    RunsOn(s2, Copy, [MoveOffset] + ([HostRead(1)] + []));
    RunsOn(s1, ReadOffset, [Copy] + ([MoveOffset] + ([HostRead(1)] + [])));
    RunsOn(s, Write([8]), [ReadOffset] + ([Copy] + ([MoveOffset] + ([HostRead(1)] + []))));
  }

  lemma FirstByte(buffer: seq<Byte>, mode: Mode, more: seq<Step>)
    requires |buffer| == 2
    requires forall s: Rtt :: |s.buffer| == 2 && s.wrOff == s.rdOff == 1 && s.pc.Idle? && s.host.Away? ==> Runs(s, more)
    ensures var steps := [Write([7])] + ([ReadOffset] +
      ([Copy] + ([MoveOffset] + ([WrapOffset] + ([HostRead(1)] + more)))));
      Runs(Start(buffer, mode), steps) &&
      exists s: Rtt :: |s.buffer| == 2 && s.wrOff == s.rdOff == 1 && s.pc.Idle? && s.host.Away? && Runs(s, more) &&
        After(Start(buffer, mode), steps) == After(s, more)
  {
    var s0 := Start(buffer, mode);
    var s1 := Apply(s0, Write([7]));
    var s2 := Apply(s1, ReadOffset);
    var s3 := Apply(s2, Copy);
    var s4 := Apply(s3, MoveOffset);
    var s5 := Apply(s4, WrapOffset);
    var s6 := Apply(s5, HostRead(1));
    RunsOn(s5, HostRead(1), more);
    RunsOn(s4, WrapOffset, [HostRead(1)] + more);
    RunsOn(s3, MoveOffset, [WrapOffset] + ([HostRead(1)] + more));
    RunsOn(s2, Copy, [MoveOffset] + ([WrapOffset] + ([HostRead(1)] + more)));
    RunsOn(s1, ReadOffset, [Copy] + ([MoveOffset] + ([WrapOffset] + ([HostRead(1)] + more))));
    RunsOn(s0, Write([7]), [ReadOffset] + ([Copy] + ([MoveOffset] + ([WrapOffset] + ([HostRead(1)] + more)))));
    assert |s6.buffer| == 2 && s6.wrOff == s6.rdOff == 1 && s6.pc.Idle? && s6.host.Away?;
  }

  ghost predicate ReachesWindow(s: Rtt, steps: seq<Step>) {
    Runs(s, steps) && InWindow(After(s, steps)) && HostAvailable(After(s, steps)) == 2
  }

  /** The window can be reached, in any mode: on a ring of two bytes, the host reads the second byte
      written between the two moves of the offset, and then would find two bytes more. */
  lemma WindowReachable(mode: Mode)
    ensures exists steps :: ReachesWindow(Start([0, 0], mode), steps)
  {
    var more := [Write([8])] + ([ReadOffset] + ([Copy] + ([MoveOffset] + ([HostRead(1)] + []))));
    forall s: Rtt | |s.buffer| == 2 && s.wrOff == s.rdOff == 1 && s.pc.Idle? &&
      s.host.Away? ensures ReachesWindow(s, more) {
      ToTheWindow(s);
    }
    var s0 := Start([0, 0], mode);
    var steps := [Write([7])] + ([ReadOffset] + ([Copy] + ([MoveOffset] + ([WrapOffset] + ([HostRead(1)] + more)))));
    FirstByte([0, 0], mode, more);
    assert ReachesWindow(s0, steps);
  }
}
