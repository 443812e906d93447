/** The timer daemon as a state machine, in all interleavings with ticks and other tasks' commands. */
module TimerRuns {
  import Arithmetic
  import opened Ticks
  import opened ListSpec
  import opened TimerSpec
  import opened TimerSwitch

  // The daemon may be interrupted between any two of its uses of the clock or the command queue.

  /** Where the daemon is: about to look at its lists, emptying the command queue, in the loop of
      prvSwitchTimerLists (called at time at, perhaps with a message in hand), or blocked. */
  datatype Pc = Top | Commands | Switching(at: nat, message: seq<Command>) | Blocked

  /** now is the unbounded tick count and sampledAt its value when the clock was last sampled: the
      daemon only ever sees them modulo 2^32. */
  datatype Daemon = Daemon(s: Service, length: nat, pc: Pc, now: nat, sampledAt: nat)

  datatype Step = TickPasses | Send(c: Command) | Poll | SwitchTurn | Receive | Wake

  predicate Enabled(d: Daemon, step: Step) {
    match step
    case TickPasses => true
    case Send(_) => |d.s.queue| < d.length
    case Poll => d.pc.Top?
    case SwitchTurn => d.pc.Switching?
    case Receive => d.pc.Commands?
    case Wake => d.pc.Blocked?
  }

  /** prvSampleTimeNow when the lists need not be switched. */
  function Sampled(d: Daemon, s: Service): Daemon {
    d.(s := s.(lastTime := d.now % WRAP), sampledAt := d.now)
  }

  function Apply(d: Daemon, step: Step): Daemon
    requires Enabled(d, step)
  {
    match step
    case TickPasses => d.(now := d.now + 1)
    case Send(c) => d.(s := d.s.(queue := d.s.queue + [c]))
    case Wake => d.(pc := Commands)
    case Poll =>
      if d.now % WRAP < d.s.lastTime then d.(pc := Switching(d.now, []))
      else
        var d1 := Sampled(d, d.s);
        if HeadExpired(d1.s, d.now % WRAP) then d1.(s := ProcessExpired(d1.s, d.now % WRAP), pc := Commands)
        else d1.(pc := if d1.s.queue == [] then Blocked else Commands)
    case SwitchTurn =>
      if d.s.current != [] then d.(s := SwitchHead(d.s))
      else
        var s1 := Swap(d.s).(lastTime := d.pc.at % WRAP);
        d.(s := if d.pc.message == [] then s1 else Perform(s1, d.pc.message[0], d.pc.at % WRAP),
           pc := Commands, sampledAt := d.pc.at)
    case Receive =>
      if d.s.queue == [] then d.(pc := Top)
      else
        var c, s1 := d.s.queue[0], Received(d.s);
        if c.Execute? then d.(s := s1)
        else if d.now % WRAP < d.s.lastTime then d.(s := s1, pc := Switching(d.now, [c]))
        else
          var d1 := Sampled(d, s1);
          d1.(s := Perform(d1.s, c, d.now % WRAP))
  }

  /** The first look at the lists is prvProcessTimerOrBlockTask, once the lists need not be
      switched; the daemon is blocked when that blocks and no command has come. */
  lemma PollIsProcessOrBlock(d: Daemon)
    requires d.pc.Top? && d.now % WRAP >= d.s.lastTime
    ensures var d', r := Apply(d, Poll), ProcessOrBlock(d.s, d.now % WRAP);
      d'.s == r.0 && (d'.pc.Blocked? <==> r.1.Some? && d.s.queue == [])
  {
    hide ProcessExpired, SwitchAll;
  }

  // ----- the timer being watched

  /** A timer started at true tick start, after before callbacks of earlier lives. */
  datatype Watched = Watched(timer: TimerId, period: Period, start: nat, before: nat, autoReload: bool)

  /** The true time at which the timer is due for the n-th time after its start. */
  function Due(x: Watched, n: nat): (r: nat)
    ensures r >= x.start
  {
    x.start + n * x.period
  }

  predicate Names(c: Command, t: TimerId) {
    !c.Execute? && c.timer == t
  }

  ghost predicate NoCommand(queue: seq<Command>, t: TimerId) {
    forall i :: 0 <= i < |queue| ==> !Names(queue[i], t)
  }

  ghost predicate CommandOnce(queue: seq<Command>, c: Command) {
    !c.Execute? && exists i :: 0 <= i < |queue| && queue[i] == c && forall j :: 0 <= j < |queue| && j != i ==>
      !Names(queue[j], c.timer)
  }

  /** The steps that look at the clock: receiving a pended call, or nothing, is not one. */
  predicate Samples(d: Daemon, step: Step) {
    step.Poll? || (step.Receive? && d.s.queue != [] && !d.s.queue[0].Execute?)
  }

  /** What the run is assumed to do: nobody else commands the timer, the clock is sampled at least
      once per wrap while a timer is active, no command for the timer waits 2^32 ticks, and
      the command queue never overflows. */
  ghost predicate Healthy(d: Daemon, x: Watched, step: Step) {
    && Enabled(d, step)
    && (step.Send? ==> !Names(step.c, x.timer))
    && (Samples(d, step) && (d.s.current != [] || d.s.overflow != []) ==> d.now - d.sampledAt < WRAP)
    && (step.Receive? && d.s.queue != [] && Names(d.s.queue[0], x.timer) ==>
          d.now < Due(x, Callbacks(d, x)) + WRAP)
    && |Apply(d, step).s.queue| <= d.length
  }

  function Callbacks(d: Daemon, x: Watched): nat {
    if CallsOf(d.s, x.timer) >= x.before then CallsOf(d.s, x.timer) - x.before else 0
  }

  ghost predicate Runs(d: Daemon, x: Watched, steps: seq<Step>)
    decreases |steps|
  {
    steps == [] || (Healthy(d, x, steps[0]) && Runs(Apply(d, steps[0]), x, steps[1..]))
  }

  function After(d: Daemon, x: Watched, steps: seq<Step>): Daemon
    requires Runs(d, x, steps)
    decreases |steps|
  {
    if steps == [] then d else After(Apply(d, steps[0]), x, steps[1..])
  }

  // ----- where the timer is

  ghost predicate Absent(s: Service, t: TimerId) {
    NoCommand(s.queue, t) && NotListed(s.current, t) && NotListed(s.overflow, t)
  }

  function DueEntry(x: Watched, n: nat): Entry {
    Entry(x.timer, Due(x, n) % WRAP)
  }

  /** Its restart command, for the time it was last due, is in the queue. */
  ghost predicate Queued(s: Service, x: Watched, n: nat) {
    && CommandOnce(s.queue, Start(x.timer, Due(x, n) % WRAP))
    && NotListed(s.current, x.timer) && NotListed(s.overflow, x.timer)
  }

  /** It is on the list that its next due time belongs to. */
  ghost predicate Filed(s: Service, x: Watched, n: nat, epoch: nat) {
    && NoCommand(s.queue, x.timer)
    && if Due(x, n + 1) / WRAP == epoch then ListedOnce(s.current, DueEntry(x, n + 1)) && NotListed(s.overflow, x.timer)
       else
         && Due(x, n + 1) / WRAP == epoch + 1
         && ListedOnce(s.overflow, DueEntry(x, n + 1)) && NotListed(s.current, x.timer)
  }

  ghost predicate ListsSorted(s: Service) {
    Sorted(Expiries(s.current)) && Sorted(Expiries(s.overflow))
  }

  ghost predicate ClockOk(d: Daemon) {
    && d.s.lastTime == d.sampledAt % WRAP && d.sampledAt <= d.now
    && (d.pc.Switching? ==>
          && d.sampledAt <= d.pc.at <= d.now && |d.pc.message| <= 1
          && (d.pc.at / WRAP == d.sampledAt / WRAP + 1 || (d.s.current == [] && d.s.overflow == [])))
  }

  /** The latest time the daemon has seen. */
  function Seen(d: Daemon): nat {
    if d.pc.Switching? then d.pc.at else d.sampledAt
  }

  /** Stopping and deleting are done once the timer is off its list. */
  predicate StartsAgain(c: Command, t: TimerId) {
    Names(c, t) && !c.Stop? && !c.Delete?
  }

  predicate InHand(d: Daemon, t: TimerId) {
    d.pc.Switching? && d.pc.message != [] && StartsAgain(d.pc.message[0], t)
  }

  /** A one-shot timer has one callback to make. */
  predicate Live(x: Watched, n: nat) {
    x.autoReload || n == 0
  }

  ghost predicate Tracked(d: Daemon, x: Watched, n: nat) {
    && CallsOf(d.s, x.timer) == x.before + n && TimerOf(d.s, x.timer) == Timer(x.period, x.autoReload)
    && (|| (Live(x, n) && Queued(d.s, x, n) && !InHand(d, x.timer) && Due(x, n) <= d.now)
        || (Live(x, n) && Filed(d.s, x, n, d.sampledAt / WRAP) && !InHand(d, x.timer) && Due(x, n) <= Seen(d))
        || (Live(x, n) && Absent(d.s, x.timer) && InHand(d, x.timer)
            && d.pc.message[0] == Start(x.timer, Due(x, n) % WRAP) && Due(x, n) <= d.pc.at < Due(x, n) + WRAP)
        || (!x.autoReload && n == 1 && Absent(d.s, x.timer) && !InHand(d, x.timer) && Due(x, 1) <= Seen(d)))
  }

  ghost predicate Inv(d: Daemon, x: Watched) {
    ListsSorted(d.s) && ClockOk(d) && Tracked(d, x, Callbacks(d, x))
  }

  // ----- what a step for another timer leaves alone

  ghost predicate Untouched(s: Service, s': Service, t: TimerId) {
    && CallsOf(s', t) == CallsOf(s, t) && TimerOf(s', t) == TimerOf(s, t)
    && (forall e: Entry :: e.timer == t && ListedOnce(s.current, e) ==> ListedOnce(s'.current, e))
    && (forall e: Entry :: e.timer == t && ListedOnce(s.overflow, e) ==> ListedOnce(s'.overflow, e))
    && (NotListed(s.current, t) ==> NotListed(s'.current, t))
    && (NotListed(s.overflow, t) ==> NotListed(s'.overflow, t))
    && (NoCommand(s.queue, t) ==> NoCommand(s'.queue, t))
    && (forall c: Command :: !c.Execute? && c.timer == t && CommandOnce(s.queue, c) ==> CommandOnce(s'.queue, c))
  }

  lemma UntouchedTrans(s: Service, s1: Service, s2: Service, t: TimerId)
    requires Untouched(s, s1, t) && Untouched(s1, s2, t)
    ensures Untouched(s, s2, t)
  {
    hide ListedOnce, NotListed, NoCommand, CommandOnce;
  }

  /** An item of another timer filed on a list. */
  lemma FileUntouched(list: seq<Entry>, e: Entry, t: TimerId)
    requires e.timer != t
    ensures forall x: Entry :: x.timer == t && ListedOnce(list, x) ==> ListedOnce(File(list, e), x)
    ensures NotListed(list, t) ==> NotListed(File(list, e), t)
  {
    forall x: Entry | x.timer == t ensures ListedOnce(list, x) ==> ListedOnce(File(list, e), x) {
      FileEffect(list, e, x);
    }
    FileEffect(list, e, Entry(t, 0));
  }

  lemma TailUntouched(list: seq<Entry>, t: TimerId)
    requires list != [] && list[0].timer != t
    ensures forall x: Entry :: x.timer == t && ListedOnce(list, x) ==> ListedOnce(list[1..], x)
    ensures NotListed(list, t) ==> NotListed(list[1..], t)
  {
    forall x: Entry | x.timer == t ensures ListedOnce(list, x) ==> ListedOnce(list[1..], x) { TailEffect(list, x); }
    TailEffect(list, Entry(t, 0));
  }

  lemma {:induction false} DropEffect(list: seq<Entry>, u: TimerId, x: Entry)
    requires u != x.timer
    ensures ListedOnce(list, x) ==> ListedOnce(Drop(list, u), x)
    ensures NotListed(list, x.timer) ==> NotListed(Drop(list, u), x.timer)
    decreases |list|
  {
    if list != [] {
      TailEffect(list, x);
      if list[0].timer != u {
        DropEffect(list[1..], u, x);
        PrependEffect(list[0], Drop(list[1..], u), x);
      }
    }
  }

  lemma PrependEffect(e: Entry, list: seq<Entry>, x: Entry)
    ensures e.timer != x.timer && ListedOnce(list, x) ==> ListedOnce([e] + list, x)
    ensures e == x && NotListed(list, x.timer) ==> ListedOnce([e] + list, x)
    ensures e.timer != x.timer && NotListed(list, x.timer) ==> NotListed([e] + list, x.timer)
  {
    var r := [e] + list;
    assert r[0] == e;
    Shifted(e, list);
    if e.timer != x.timer && ListedOnce(list, x) {
      var i :| 0 <= i < |list| && list[i] == x && forall j :: 0 <= j < |list| && j != i ==> list[j].timer != x.timer;
      forall j | 0 <= j < |r| && j != i + 1 ensures r[j].timer != x.timer { if j > 0 { assert r[j] == list[j - 1]; } }
      assert r[i + 1] == x;
    }
    if e == x && NotListed(list, x.timer) {
      forall j | 0 <= j < |r| && j != 0 ensures r[j].timer != x.timer { assert r[j] == list[j - 1]; }
    }
    if e.timer != x.timer && NotListed(list, x.timer) {
      forall j | 0 <= j < |r| ensures r[j].timer != x.timer { if j > 0 { assert r[j] == list[j - 1]; } }
    }
  }

  lemma Shifted(e: Entry, list: seq<Entry>)
    ensures forall j :: 0 < j < |list| + 1 ==> ([e] + list)[j] == list[j - 1]
  {
  }

  lemma DropUntouched(list: seq<Entry>, u: TimerId, t: TimerId)
    requires u != t
    ensures forall x: Entry :: x.timer == t && ListedOnce(list, x) ==> ListedOnce(Drop(list, u), x)
    ensures NotListed(list, t) ==> NotListed(Drop(list, u), t)
  {
    forall x: Entry | x.timer == t ensures ListedOnce(list, x) ==> ListedOnce(Drop(list, u), x) {
      DropEffect(list, u, x);
    }
    DropEffect(list, u, Entry(t, 0));
  }

  lemma {:induction false} DropNothing(list: seq<Entry>, t: TimerId)
    requires NotListed(list, t)
    ensures Drop(list, t) == list
    decreases |list|
  {
    if list != [] { DropNothing(list[1..], t); }
  }

  lemma SendUntouched(queue: seq<Command>, c: Command, t: TimerId)
    requires !Names(c, t)
    ensures NoCommand(queue, t) ==> NoCommand(queue + [c], t)
    ensures forall m: Command :: !m.Execute? && m.timer == t && CommandOnce(queue, m) ==> CommandOnce(queue + [c], m)
  {
    forall m: Command | !m.Execute? && m.timer == t && CommandOnce(queue, m) ensures CommandOnce(queue + [c], m) {
      var i :| 0 <= i < |queue| && queue[i] == m && forall j :: 0 <= j < |queue| && j != i ==>
        !Names(queue[j], m.timer);
      assert (queue + [c])[i] == m;
    }
  }

  lemma SendOwn(queue: seq<Command>, c: Command, t: TimerId)
    requires !c.Execute? && c.timer == t && NoCommand(queue, t)
    ensures CommandOnce(queue + [c], c)
  {
    assert (queue + [c])[|queue|] == c;
  }

  lemma ReceiveUntouched(queue: seq<Command>, t: TimerId)
    requires queue != []
    ensures NoCommand(queue, t) ==> NoCommand(queue[1..], t)
    ensures !Names(queue[0], t) ==> forall m: Command :: !m.Execute? && m.timer == t && CommandOnce(queue, m) ==>
      CommandOnce(queue[1..], m)
    ensures Names(queue[0], t) ==> forall m: Command :: !m.Execute? && m.timer == t && CommandOnce(queue, m) ==>
      m == queue[0] && NoCommand(queue[1..], t)
  {
    forall m: Command | !m.Execute? && m.timer == t && CommandOnce(queue, m)
      ensures if Names(queue[0], t) then m == queue[0] && NoCommand(queue[1..], t) else CommandOnce(queue[1..], m)
    {
      var i :| 0 <= i < |queue| && queue[i] == m && forall j :: 0 <= j < |queue| && j != i ==>
        !Names(queue[j], m.timer);
      if i > 0 { assert queue[1..][i - 1] == m; }
      assert forall j :: 0 <= j < |queue| - 1 ==> queue[1..][j] == queue[j + 1];
    }
  }

  // ----- every operation keeps the lists sorted

  lemma FileSorted(list: seq<Entry>, e: Entry)
    requires Sorted(Expiries(list))
    ensures Sorted(Expiries(File(list, e)))
  {
    var p := SortedPosition(Expiries(list), e.expiry);
    SortedInsertion(Expiries(list), e.expiry);
    assert Expiries(File(list, e)) == Insert(Expiries(list), p, e.expiry);
  }

  lemma TailSorted(list: seq<Entry>)
    requires Sorted(Expiries(list)) && list != []
    ensures Sorted(Expiries(list[1..])) && forall i :: 0 <= i < |list| ==> list[0].expiry <= list[i].expiry
  {
    assert Expiries(list[1..]) == Expiries(list)[1..];
    assert forall i :: 0 <= i < |list| ==> Expiries(list)[i] == list[i].expiry;
  }

  lemma {:induction false} DropMembers(list: seq<Entry>, t: TimerId)
    ensures forall e :: e in Drop(list, t) ==> e in list
    decreases |list|
  {
    if list != [] { DropMembers(list[1..], t); }
  }

  lemma {:induction false} DropSorted(list: seq<Entry>, t: TimerId)
    requires Sorted(Expiries(list))
    ensures Sorted(Expiries(Drop(list, t)))
    decreases |list|
  {
    if list != [] {
      TailSorted(list);
      if list[0].timer != t {
        DropSorted(list[1..], t);
        DropMembers(list[1..], t);
        var rest := Drop(list[1..], t);
        forall i | 0 <= i < |rest| ensures list[0].expiry <= rest[i].expiry { assert rest[i] in list[1..]; }
        var r := Expiries([list[0]] + rest);
        assert forall i :: 0 < i < |r| ==> r[i] == Expiries(rest)[i - 1];
      }
    }
  }

  lemma InsertSorted(s: Service, t: TimerId, next: Tick, placement: Placement)
    requires ListsSorted(s)
    ensures ListsSorted(InsertTimer(s, t, next, placement))
  {
    FileSorted(s.current, Entry(t, next));
    FileSorted(s.overflow, Entry(t, next));
  }

  lemma SwitchHeadSorted(s: Service)
    requires ListsSorted(s) && s.current != []
    ensures ListsSorted(SwitchHead(s)) && SwitchHead(s).lastTime == s.lastTime && SwitchHead(s).overflow == s.overflow
  {
    TailSorted(s.current);
    var e := s.current[0];
    FileSorted(s.current[1..], Entry(e.timer, Wrapped(e.expiry + TimerOf(s, e.timer).period)));
    hide Sorted, Expiries, File;
  }

  lemma ProcessExpiredSorted(s: Service, now: Tick)
    requires ListsSorted(s) && s.current != []
    ensures ListsSorted(ProcessExpired(s, now)) && ProcessExpired(s, now).lastTime == s.lastTime
  {
    hide Sorted, Expiries, Insert, SortedPosition, PlacementFor, Wrapped, InsertTimer;
    TailSorted(s.current);
    var t, e := s.current[0].timer, s.current[0].expiry;
    var s1, next := s.(current := s.current[1..]), Wrapped(s.current[0].expiry + TimerOf(s, t).period);
    var placement := PlacementFor(next, now, e, TimerOf(s, t).period);
    var s2 := InsertTimer(s1, t, next, placement);
    InsertSorted(s1, t, next, placement);
    assert s2.lastTime == s.lastTime by { InsertKeepsTime(s1, t, next, placement); }
  }

  lemma InsertKeepsTime(s: Service, t: TimerId, next: Tick, placement: Placement)
    ensures InsertTimer(s, t, next, placement).lastTime == s.lastTime
  {
  }

  lemma PerformSorted(s: Service, c: Command, now: Tick)
    requires ListsSorted(s)
    ensures ListsSorted(Perform(s, c, now)) && Perform(s, c, now).lastTime == s.lastTime
  {
    hide Sorted, Expiries, File, PlacementFor;
    match c
    case Start(t, value) =>
      var p := TimerOf(s, t).period;
      InsertSorted(s, t, Wrapped(value + p), PlacementFor(Wrapped(value + p), now, value, p));
    case ChangePeriod(t, p) =>
      InsertSorted(s.(timers := s.timers[t := TimerOf(s, t).(period := p)]), t, Wrapped(now + p),
        PlacementFor(Wrapped(now + p), now, now, p));
    case _ =>
  }

  lemma ReceivedSorted(s: Service)
    requires ListsSorted(s) && s.queue != []
    ensures ListsSorted(Received(s)) && Received(s).lastTime == s.lastTime
  {
    if !s.queue[0].Execute? {
      DropSorted(s.current, s.queue[0].timer);
      DropSorted(s.overflow, s.queue[0].timer);
    }
    hide Sorted, Expiries, Drop;
  }

  // ----- operations on behalf of other timers

  lemma InsertUntouched(s: Service, u: TimerId, next: Tick, placement: Placement, t: TimerId)
    requires u != t
    ensures Untouched(s, InsertTimer(s, u, next, placement), t)
  {
    FileUntouched(s.current, Entry(u, next), t);
    FileUntouched(s.overflow, Entry(u, next), t);
    hide ListedOnce, NotListed, NoCommand, CommandOnce, File;
  }

  lemma RestartUntouched(s: Service, u: TimerId, value: Tick, t: TimerId)
    requires u != t
    ensures Untouched(s, Restart(s, u, value), t) && Untouched(s, Call(s, u), t)
  {
    SendUntouched(s.queue, Start(u, value), t);
    hide ListedOnce, NotListed, NoCommand, CommandOnce;
  }

  lemma TailedUntouched(s: Service, t: TimerId)
    requires s.current != [] && s.current[0].timer != t
    ensures Untouched(s, s.(current := s.current[1..]), t)
  {
    TailUntouched(s.current, t);
    hide ListedOnce, NotListed, NoCommand, CommandOnce;
  }

  lemma SwitchHeadUntouched(s: Service, t: TimerId)
    requires s.current != [] && s.current[0].timer != t
    ensures Untouched(s, SwitchHead(s), t)
  {
    hide Untouched, File, Call;
    var e := s.current[0];
    var s0 := s.(current := s.current[1..]);
    var s1 := Call(s0, e.timer);
    TailedUntouched(s, t);
    RestartUntouched(s0, e.timer, e.expiry, t);
    UntouchedTrans(s, s0, s1, t);
    var reload := Wrapped(e.expiry + TimerOf(s, e.timer).period);
    InsertUntouched(s1, e.timer, reload, InCurrent, t);
    RestartUntouched(s1, e.timer, e.expiry, t);
    UntouchedTrans(s, s1, InsertTimer(s1, e.timer, reload, InCurrent), t);
    UntouchedTrans(s, s1, Restart(s1, e.timer, e.expiry), t);
  }

  lemma ProcessExpiredUntouched(s: Service, now: Tick, t: TimerId)
    requires s.current != [] && s.current[0].timer != t
    ensures Untouched(s, ProcessExpired(s, now), t)
  {
    hide Untouched, PlacementFor, Call, Restart, InsertTimer;
    var u, e := s.current[0].timer, s.current[0].expiry;
    var s1 := s.(current := s.current[1..]);
    var next := Wrapped(s.current[0].expiry + TimerOf(s, u).period);
    var placement := PlacementFor(next, now, e, TimerOf(s, u).period);
    var s2 := InsertTimer(s1, u, next, placement);
    TailedUntouched(s, t);
    InsertUntouched(s1, u, next, placement, t);
    UntouchedTrans(s, s1, s2, t);
    RestartUntouched(s2, u, e, t);
    RestartUntouched(s1, u, e, t);
    RestartUntouched(Restart(s2, u, e), u, e, t);
    UntouchedTrans(s, s2, Restart(s2, u, e), t);
    UntouchedTrans(s, Restart(s2, u, e), Call(Restart(s2, u, e), u), t);
    UntouchedTrans(s, s2, Call(s2, u), t);
    UntouchedTrans(s, s1, Call(s1, u), t);
  }

  lemma UntouchedSelf(s: Service, t: TimerId)
    ensures Untouched(s, s, t)
  {
  }

  lemma PerformUntouched(s: Service, c: Command, now: Tick, t: TimerId)
    requires !StartsAgain(c, t)
    ensures Untouched(s, Perform(s, c, now), t)
  {
    hide Untouched, PlacementFor, Call, Restart, InsertTimer;
    UntouchedSelf(s, t);
    match c
    case Start(u, value) =>
      var p := TimerOf(s, u).period;
      var next := Wrapped(value + p);
      var s1 := InsertTimer(s, u, next, PlacementFor(next, now, value, p));
      InsertUntouched(s, u, next, PlacementFor(next, now, value, p), t);
      RestartUntouched(s1, u, next, t);
      UntouchedTrans(s, s1, Call(s1, u), t);
      RestartUntouched(Call(s1, u), u, next, t);
      UntouchedTrans(s, Call(s1, u), Restart(Call(s1, u), u, next), t);
    case ChangePeriod(u, p) =>
      var s1 := s.(timers := s.timers[u := TimerOf(s, u).(period := p)]);
      PeriodUntouched(s, u, p, t);
      InsertUntouched(s1, u, Wrapped(now + p), PlacementFor(Wrapped(now + p), now, now, p), t);
      UntouchedTrans(s, s1, InsertTimer(s1, u, Wrapped(now + p), PlacementFor(Wrapped(now + p), now, now, p)), t);
    case _ =>
  }

  lemma PeriodUntouched(s: Service, u: TimerId, p: Period, t: TimerId)
    requires u != t
    ensures Untouched(s, s.(timers := s.timers[u := TimerOf(s, u).(period := p)]), t)
  {
    hide ListedOnce, NotListed, NoCommand, CommandOnce;
  }

  lemma ReceivedUntouched(s: Service, t: TimerId)
    requires s.queue != [] && !Names(s.queue[0], t)
    ensures Untouched(s, Received(s), t)
  {
    ReceiveUntouched(s.queue, t);
    if !s.queue[0].Execute? {
      DropUntouched(s.current, s.queue[0].timer, t);
      DropUntouched(s.overflow, s.queue[0].timer, t);
    }
    hide ListedOnce, NotListed, NoCommand, CommandOnce, Drop;
  }

  // ----- operations on the watched timer itself

  lemma DueNext(x: Watched, n: nat)
    ensures Due(x, n + 1) == Due(x, n) + x.period
    ensures Wrapped(Due(x, n) % WRAP + x.period) == Due(x, n + 1) % WRAP
  {
    assert (n + 1) * x.period == n * x.period + x.period;
  }

  ghost predicate Counted(s: Service, x: Watched, n: nat) {
    CallsOf(s, x.timer) == x.before + n && TimerOf(s, x.timer) == Timer(x.period, x.autoReload)
  }

  /** Where the timer is after a callback that was late: an auto-reload timer has commanded its
      restart, a one-shot timer is done. */
  ghost predicate CalledBack(s: Service, x: Watched, n: nat) {
    if x.autoReload then Queued(s, x, n) else Absent(s, x.timer)
  }

  lemma FileOwn(s: Service, x: Watched, n: nat, at: nat)
    requires Absent(s, x.timer) && Due(x, n) <= at < Due(x, n + 1)
    ensures Filed(InsertTimer(s, x.timer, Due(x, n + 1) % WRAP,
                              if Due(x, n + 1) / WRAP == at / WRAP then InCurrent else InOverflow),
                  x, n, at / WRAP)
  {
    DueNext(x, n);
    Modulus(at, Due(x, n + 1));
    FileEffect(s.current, DueEntry(x, n + 1), DueEntry(x, n + 1));
    FileEffect(s.overflow, DueEntry(x, n + 1), DueEntry(x, n + 1));
    hide NotListed, ListedOnce, NoCommand, File, Due;
  }

  lemma RestartOwn(s: Service, x: Watched, n: nat)
    requires Absent(s, x.timer)
    ensures Queued(Restart(s, x.timer, Due(x, n) % WRAP), x, n)
  {
    SendOwn(s.queue, Start(x.timer, Due(x, n) % WRAP), x.timer);
  }

  lemma PerformOwn(s: Service, x: Watched, n: nat, at: nat)
    requires Absent(s, x.timer) && Counted(s, x, n) && Due(x, n) <= at < Due(x, n) + WRAP
    ensures var s' := Perform(s, Start(x.timer, Due(x, n) % WRAP), at % WRAP);
      if Due(x, n + 1) <= at then CalledBack(s', x, n + 1) && Counted(s', x, n + 1)
      else Filed(s', x, n, at / WRAP) && Counted(s', x, n)
  {
    hide NotListed, ListedOnce, NoCommand, CommandOnce, File, PlacementFor, Filed, Queued, Absent;
    DueNext(x, n);
    PlacementExact(Due(x, n), at, x.period);
    hide Due;
    if Due(x, n + 1) <= at {
      StillAbsent(s, x.timer);
      RestartOwn(Call(s, x.timer), x, n + 1);
    } else {
      FileOwn(s, x, n, at);
    }
  }

  lemma StillAbsent(s: Service, t: TimerId)
    requires Absent(s, t)
    ensures Absent(Call(s, t), t)
  {
  }

  lemma HeadIsOwn(s: Service, x: Watched, n: nat, epoch: nat)
    requires Filed(s, x, n, epoch) && s.current != [] && s.current[0].timer == x.timer
    ensures Due(x, n + 1) / WRAP == epoch && s.current[0] == DueEntry(x, n + 1) && ListedOnce(s.current, s.current[0])
    ensures Absent(s.(current := s.current[1..]), x.timer)
  {
    TailEffect(s.current, DueEntry(x, n + 1));
    hide ListedOnce;
  }

  lemma CallOwn(s: Service, x: Watched, n: nat, epoch: nat)
    ensures Filed(s, x, n, epoch) ==> Filed(Call(s, x.timer), x, n, epoch)
    ensures Queued(s, x, n) ==> Queued(Call(s, x.timer), x, n)
    ensures Absent(s, x.timer) ==> Absent(Call(s, x.timer), x.timer)
  {
  }

  lemma ExpiredOwn(s: Service, x: Watched, n: nat, at: nat)
    requires Filed(s, x, n, at / WRAP) && Counted(s, x, n) && HeadExpired(s, at % WRAP) && s.current[0].timer == x.timer
    ensures var s' := ProcessExpired(s, at % WRAP);
      && Counted(s', x, n + 1) && Due(x, n + 1) <= at
      && if Due(x, n + 2) <= at || !x.autoReload then CalledBack(s', x, n + 1) else Filed(s', x, n + 1, at / WRAP)
  {
    hide NotListed, ListedOnce, NoCommand, CommandOnce, File, Due, PlacementFor, Filed, Queued, Absent;
    HeadIsOwn(s, x, n, at / WRAP);
    var since, s1 := Due(x, n + 1), s.(current := s.current[1..]);
    assert since <= at < since + WRAP;
    DueNext(x, n + 1);
    PlacementExact(since, at, x.period);
    if !x.autoReload {
      CallOwn(s1, x, n + 1, 0);
    } else if Due(x, n + 2) <= at {
      RestartOwn(s1, x, n + 1);
      CallOwn(Restart(s1, x.timer, since % WRAP), x, n + 1, 0);
    } else {
      FileOwn(s1, x, n + 1, at);
      CallOwn(InsertTimer(s1, x.timer, Due(x, n + 2) % WRAP,
                          if Due(x, n + 2) / WRAP == at / WRAP then InCurrent else InOverflow),
              x, n + 1, at / WRAP);
    }
  }

  lemma ReloadOwn(x: Watched, n: nat)
    ensures var e, reload := Due(x, n) % WRAP, Due(x, n + 1) % WRAP;
      reload > e <==> Due(x, n + 1) / WRAP == Due(x, n) / WRAP
  {
    DueNext(x, n);
    Modulus(Due(x, n), Due(x, n + 1));
  }

  lemma SwitchOwn(s: Service, x: Watched, n: nat, epoch: nat)
    requires Filed(s, x, n, epoch) && Counted(s, x, n) && s.current != [] && s.current[0].timer == x.timer
    ensures var s' := SwitchHead(s);
      && Counted(s', x, n + 1) && Due(x, n + 1) / WRAP == epoch
      && if x.autoReload && Due(x, n + 2) / WRAP == epoch then Filed(s', x, n + 1, epoch) else CalledBack(s', x, n + 1)
  {
    hide NotListed, ListedOnce, NoCommand, CommandOnce, File, Due, Queued, Absent;
    HeadIsOwn(s, x, n, epoch);
    var s1 := Call(s.(current := s.current[1..]), x.timer);
    CallOwn(s.(current := s.current[1..]), x, n, epoch);
    DueNext(x, n + 1);
    ReloadOwn(x, n + 1);
    if !x.autoReload {
      assert Absent(s1, x.timer);
    } else if Due(x, n + 2) / WRAP == epoch {
      FileOwn(s1, x, n + 1, Due(x, n + 1));
    } else {
      RestartOwn(s1, x, n + 1);
    }
  }

  lemma ReceivedOwn(s: Service, x: Watched, n: nat)
    requires s.queue != [] && Names(s.queue[0], x.timer)
    requires Queued(s, x, n) || NoCommand(s.queue, x.timer)
    ensures Queued(s, x, n) && s.queue[0] == Start(x.timer, Due(x, n) % WRAP)
    ensures Absent(Received(s), x.timer) && Received(s) == s.(queue := s.queue[1..])
  {
    ReceiveUntouched(s.queue, x.timer);
    DropNothing(s.current, x.timer);
    DropNothing(s.overflow, x.timer);
  }

  // ----- every step keeps the invariant

  /** A step that does nothing to the watched timer and passes no epoch. */
  lemma TrackedUntouched(d: Daemon, d': Daemon, x: Watched, n: nat)
    requires Tracked(d, x, n) && Untouched(d.s, d'.s, x.timer)
    requires InHand(d', x.timer) == InHand(d, x.timer) && (InHand(d, x.timer) ==> d'.pc == d.pc)
    requires d.now <= d'.now && Seen(d) <= Seen(d')
    requires d'.sampledAt / WRAP == d.sampledAt / WRAP || !Filed(d.s, x, n, d.sampledAt / WRAP)
    ensures Tracked(d', x, n)
  {
    hide NotListed, ListedOnce, NoCommand, CommandOnce, Due;
  }

  /** A timer that is on a list keeps the lists from being empty. */
  lemma FiledNotEmpty(s: Service, x: Watched, n: nat, epoch: nat)
    requires Filed(s, x, n, epoch)
    ensures s.current != [] || s.overflow != []
  {
  }

  /** Sampling without a switch stays in the epoch, if there is a timer to care. */
  lemma SameEpoch(d: Daemon)
    requires ClockOk(d) && d.now % WRAP >= d.s.lastTime && d.now - d.sampledAt < WRAP
    ensures d.now / WRAP == d.sampledAt / WRAP
  {
    Modulus(d.sampledAt, d.now);
  }

  lemma NextEpoch(d: Daemon)
    requires ClockOk(d) && d.now % WRAP < d.s.lastTime && d.now - d.sampledAt < WRAP
    ensures d.now / WRAP == d.sampledAt / WRAP + 1
  {
    Modulus(d.sampledAt, d.now);
  }

  ghost predicate Keeps(d: Daemon, x: Watched) {
    ListsSorted(d.s) && ClockOk(d) && exists n: nat :: Tracked(d, x, n)
  }

  lemma KeepsIsInv(d: Daemon, x: Watched)
    ensures Keeps(d, x) <==> Inv(d, x)
  {
    if Keeps(d, x) {
      var n: nat :| Tracked(d, x, n);
      assert Callbacks(d, x) == n by { hide Queued, Filed, Absent; }
    }
    hide ListsSorted, ClockOk, Tracked;
  }

  lemma ForeignSteps(d: Daemon, x: Watched, step: Step, n: nat)
    requires ListsSorted(d.s) && ClockOk(d) && Tracked(d, x, n) && Healthy(d, x, step)
    requires step.TickPasses? || step.Send? || step.Wake?
    ensures Keeps(Apply(d, step), x)
  {
    var d' := Apply(d, step);
    UntouchedSelf(d.s, x.timer);
    if step.Send? {
      SendUntouched(d.s.queue, step.c, x.timer);
      assert Untouched(d.s, d'.s, x.timer) by { hide NotListed, ListedOnce, NoCommand, CommandOnce; }
    }
    hide NotListed, ListedOnce, NoCommand, CommandOnce, Due, Tracked, Untouched, Sorted, Expiries, Filed;
    TrackedUntouched(d, d', x, n);
  }

  lemma PollSwitches(d: Daemon, x: Watched, n: nat)
    requires ListsSorted(d.s) && ClockOk(d) && Tracked(d, x, n) && Healthy(d, x, Poll)
    requires d.now % WRAP < d.s.lastTime
    ensures Keeps(Apply(d, Poll), x)
  {
    var d' := Apply(d, Poll);
    if d.s.current != [] || d.s.overflow != [] { NextEpoch(d); }
    UntouchedSelf(d.s, x.timer);
    hide NotListed, ListedOnce, NoCommand, CommandOnce, Due, Tracked, Untouched, Sorted, Expiries, Filed;
    TrackedUntouched(d, d', x, n);
  }

  /** The daemon's view after sampling the clock without a switch. */
  lemma SampledTracked(d: Daemon, x: Watched, n: nat)
    requires ClockOk(d) && Tracked(d, x, n) && !d.pc.Switching?
    requires d.now % WRAP >= d.s.lastTime
    requires d.s.current != [] || d.s.overflow != [] ==> d.now - d.sampledAt < WRAP
    ensures Tracked(Sampled(d, d.s), x, n) && ClockOk(Sampled(d, d.s))
  {
    var d' := Sampled(d, d.s);
    if d.s.current != [] || d.s.overflow != [] { SameEpoch(d); }
    if Filed(d.s, x, n, d.sampledAt / WRAP) { FiledNotEmpty(d.s, x, n, d.sampledAt / WRAP); }
    assert Untouched(d.s, d'.s, x.timer) by { hide NotListed, ListedOnce, NoCommand, CommandOnce; }
    hide NotListed, ListedOnce, NoCommand, CommandOnce, Due, Tracked, Untouched, Filed;
    TrackedUntouched(d, d', x, n);
  }

  lemma PollBlocks(d: Daemon, x: Watched, n: nat)
    requires ListsSorted(d.s) && ClockOk(d) && Tracked(d, x, n) && Healthy(d, x, Poll)
    requires d.now % WRAP >= d.s.lastTime && !HeadExpired(d.s, d.now % WRAP)
    ensures Keeps(Apply(d, Poll), x)
  {
    SampledTracked(d, x, n);
    var d1, d' := Sampled(d, d.s), Apply(d, Poll);
    UntouchedSelf(d1.s, x.timer);
    hide NotListed, ListedOnce, CommandOnce, Due, Tracked, Untouched, Sorted, Expiries, Filed;
    TrackedUntouched(d1, d', x, n);
  }

  lemma TrackedCases(d: Daemon, x: Watched, n: nat)
    requires Tracked(d, x, n) && d.s.current != [] && d.s.current[0].timer == x.timer && (d.pc.Top? || d.pc.Switching?)
    ensures Counted(d.s, x, n) && Live(x, n) && Filed(d.s, x, n, d.sampledAt / WRAP) && !InHand(d, x.timer)
  {
  }

  lemma PollExpires(d: Daemon, x: Watched, n: nat)
    requires ListsSorted(d.s) && ClockOk(d) && Tracked(d, x, n) && Healthy(d, x, Poll)
    requires d.now % WRAP >= d.s.lastTime && HeadExpired(d.s, d.now % WRAP)
    ensures Keeps(Apply(d, Poll), x)
  {
    SampledTracked(d, x, n);
    var d1, d' := Sampled(d, d.s), Apply(d, Poll);
    ProcessExpiredSorted(d1.s, d.now % WRAP);
    if d.s.current[0].timer == x.timer {
      TrackedCases(d1, x, n);
      ExpiredOwn(d1.s, x, n, d.now);
      hide NotListed, ListedOnce, NoCommand, CommandOnce, Due, Sorted, Expiries, Filed, Queued, Absent,
        ProcessExpired;
      assert Tracked(d', x, n + 1);
    } else {
      ProcessExpiredUntouched(d1.s, d.now % WRAP, x.timer);
      hide NotListed, ListedOnce, NoCommand, CommandOnce, Due, Sorted, Expiries, Filed, Tracked, Untouched,
        ProcessExpired;
      TrackedUntouched(d1, d', x, n);
    }
  }

  lemma SwitchTurns(d: Daemon, x: Watched, n: nat)
    requires ListsSorted(d.s) && ClockOk(d) && Tracked(d, x, n) && Healthy(d, x, SwitchTurn) && d.s.current != []
    ensures Keeps(Apply(d, SwitchTurn), x)
  {
    var d' := Apply(d, SwitchTurn);
    SwitchHeadSorted(d.s);
    if d.s.current[0].timer == x.timer {
      TrackedCases(d, x, n);
      SwitchOwn(d.s, x, n, d.sampledAt / WRAP);
      hide NotListed, ListedOnce, NoCommand, CommandOnce, Due, Sorted, Expiries, Filed, Queued, Absent, SwitchHead;
      assert Due(x, n + 1) <= d.pc.at;
      assert Tracked(d', x, n + 1);
    } else {
      SwitchHeadUntouched(d.s, x.timer);
      hide NotListed, ListedOnce, NoCommand, CommandOnce, Due, Sorted, Expiries, Filed, Tracked, Untouched,
        SwitchHead;
      TrackedUntouched(d, d', x, n);
    }
  }

  /** After the swap, the overflow list of the old epoch is the current list of the new one. */
  lemma SwapTracked(d: Daemon, x: Watched, n: nat)
    requires ListsSorted(d.s) && ClockOk(d) && Tracked(d, x, n) && d.pc.Switching? && d.s.current == []
    ensures var s1 := Swap(d.s).(lastTime := d.pc.at % WRAP);
      && ListsSorted(s1) && Counted(s1, x, n)
      && (InHand(d, x.timer) ==> Absent(s1, x.timer) && d.pc.message[0] == Start(x.timer, Due(x, n) % WRAP)
                                 && Due(x, n) <= d.pc.at < Due(x, n) + WRAP)
      && (!InHand(d, x.timer) ==>
            || (Due(x, n) <= d.now && Live(x, n) && Queued(s1, x, n))
            || (Live(x, n) && Filed(s1, x, n, d.pc.at / WRAP) && Due(x, n) <= d.pc.at)
            || (!x.autoReload && n == 1 && Absent(s1, x.timer) && Due(x, 1) <= d.pc.at))
      && (InHand(d, x.timer) ==> Live(x, n))
  {
    if Filed(d.s, x, n, d.sampledAt / WRAP) { FiledNotEmpty(d.s, x, n, d.sampledAt / WRAP); }
    hide Sorted, Expiries, CommandOnce, NoCommand, Due;
  }

  lemma SwitchEnds(d: Daemon, x: Watched, n: nat)
    requires ListsSorted(d.s) && ClockOk(d) && Tracked(d, x, n) && Healthy(d, x, SwitchTurn) && d.s.current == []
    ensures Keeps(Apply(d, SwitchTurn), x)
  {
    var d' := Apply(d, SwitchTurn);
    var s1 := Swap(d.s).(lastTime := d.pc.at % WRAP);
    SwapTracked(d, x, n);
    hide ListsSorted, NotListed, ListedOnce, NoCommand, CommandOnce, Due, Filed, Queued, Absent, Perform;
    if d.pc.message == [] {
      assert Tracked(d', x, n);
    } else {
      PerformSorted(s1, d.pc.message[0], d.pc.at % WRAP);
      if InHand(d, x.timer) {
        PerformOwn(s1, x, n, d.pc.at);
        assert Tracked(d', x, if Due(x, n + 1) <= d.pc.at then n + 1 else n);
      } else {
        PerformUntouched(s1, d.pc.message[0], d.pc.at % WRAP, x.timer);
        var d1 := d.(s := s1, pc := Commands, sampledAt := d.pc.at);
        assert Tracked(d1, x, n);
        hide Tracked, Untouched;
        TrackedUntouched(d1, d', x, n);
      }
    }
  }

  /** A message that is not for the watched timer. */
  lemma ReceivesOther(d: Daemon, x: Watched, n: nat)
    requires ListsSorted(d.s) && ClockOk(d) && Tracked(d, x, n) && Healthy(d, x, Receive)
    requires d.s.queue == [] || !Names(d.s.queue[0], x.timer)
    ensures Keeps(Apply(d, Receive), x)
  {
    var d' := Apply(d, Receive);
    UntouchedSelf(d.s, x.timer);
    if d.s.queue == [] {
      hide Tracked, Untouched, ListsSorted, Due;
      TrackedUntouched(d, d', x, n);
    } else {
      var c, s1 := d.s.queue[0], Received(d.s);
      ReceivedUntouched(d.s, x.timer);
      ReceivedSorted(d.s);
      hide Tracked, Untouched, ListsSorted, Due, Perform, Received;
      if c.Execute? {
        TrackedUntouched(d, d', x, n);
      } else if d.now % WRAP < d.s.lastTime {
        if d.s.current != [] || d.s.overflow != [] { NextEpoch(d); }
        DropEmpty(d.s);
        TrackedUntouched(d, d', x, n);
      } else {
        SampledTracked(d, x, n);
        var d1 := Sampled(d, d.s);
        var d2 := Sampled(d, s1);
        SampledUntouched(d.s, s1, d.now % WRAP, x.timer);
        TrackedUntouched(d1, d2, x, n);
        SortedSampled(s1, d.now % WRAP);
        PerformSorted(d2.s, c, d.now % WRAP);
        PerformUntouched(d2.s, c, d.now % WRAP, x.timer);
        TrackedUntouched(d2, d', x, n);
      }
    }
  }

  lemma SampledUntouched(s: Service, s1: Service, time: Tick, t: TimerId)
    requires Untouched(s, s1, t)
    ensures Untouched(s.(lastTime := time), s1.(lastTime := time), t)
  {
    hide NotListed, ListedOnce, NoCommand, CommandOnce;
  }

  lemma SortedSampled(s: Service, time: Tick)
    ensures ListsSorted(s) ==> ListsSorted(s.(lastTime := time))
  {
  }

  lemma DropEmpty(s: Service)
    requires s.queue != []
    ensures s.current == [] && s.overflow == [] ==> Received(s).current == [] && Received(s).overflow == []
  {
  }

  lemma OwnMessage(d: Daemon, x: Watched, n: nat)
    requires Tracked(d, x, n) && d.pc.Commands? && d.s.queue != [] && Names(d.s.queue[0], x.timer)
    ensures Counted(d.s, x, n) && Live(x, n) && Due(x, n) <= d.now && Callbacks(d, x) == n && Queued(d.s, x, n)
  {
    hide Due;
    assert !NoCommand(d.s.queue, x.timer);
  }

  /** The start command of a timer that is on no list is taken from the queue: it is performed at
      once, or held while the lists are switched. */
  lemma StartReceived(d: Daemon, x: Watched, n: nat)
    requires ListsSorted(d.s) && ClockOk(d) && d.pc.Commands? && d.s.queue != []
    requires d.s.queue[0] == Start(x.timer, Due(x, n) % WRAP) && Absent(Received(d.s), x.timer)
    requires Counted(d.s, x, n) && Live(x, n) && Due(x, n) <= d.now < Due(x, n) + WRAP
    requires d.s.current != [] || d.s.overflow != [] ==> d.now - d.sampledAt < WRAP
    ensures Keeps(Apply(d, Receive), x)
  {
    if d.now % WRAP < d.s.lastTime { StartHeld(d, x, n); } else { StartPerformed(d, x, n); }
  }

  lemma StartHeld(d: Daemon, x: Watched, n: nat)
    requires ListsSorted(d.s) && ClockOk(d) && d.pc.Commands? && d.s.queue != [] && d.now % WRAP < d.s.lastTime
    requires d.s.queue[0] == Start(x.timer, Due(x, n) % WRAP) && Absent(Received(d.s), x.timer)
    requires Counted(d.s, x, n) && Live(x, n) && Due(x, n) <= d.now < Due(x, n) + WRAP
    requires d.s.current != [] || d.s.overflow != [] ==> d.now - d.sampledAt < WRAP
    ensures Keeps(Apply(d, Receive), x)
  {
    ReceivedSorted(d.s);
    DropEmpty(d.s);
    if d.s.current != [] || d.s.overflow != [] { NextEpoch(d); }
    hide ListsSorted, Due, Drop, Absent, Filed, Queued;
    assert Tracked(Apply(d, Receive), x, n);
  }

  lemma StartPerformed(d: Daemon, x: Watched, n: nat)
    requires ListsSorted(d.s) && ClockOk(d) && d.pc.Commands? && d.s.queue != [] && d.now % WRAP >= d.s.lastTime
    requires d.s.queue[0] == Start(x.timer, Due(x, n) % WRAP) && Absent(Received(d.s), x.timer)
    requires Counted(d.s, x, n) && Live(x, n) && Due(x, n) <= d.now < Due(x, n) + WRAP
    ensures Keeps(Apply(d, Receive), x)
  {
    ReceivedSorted(d.s);
    var d', s1 := Apply(d, Receive), Received(d.s);
    var d2 := Sampled(d, s1);
    hide ListsSorted, Due, Perform, Drop, Filed, Queued, Absent;
    SortedSampled(s1, d.now % WRAP);
    PerformSorted(d2.s, d.s.queue[0], d.now % WRAP);
    AbsentSampled(s1, d.now % WRAP, x.timer);
    PerformOwn(d2.s, x, n, d.now);
    assert Tracked(d', x, if Due(x, n + 1) <= d.now then n + 1 else n);
  }

  lemma ReceivesOwn(d: Daemon, x: Watched, n: nat)
    requires ListsSorted(d.s) && ClockOk(d) && Tracked(d, x, n) && Healthy(d, x, Receive)
    requires d.s.queue != [] && Names(d.s.queue[0], x.timer)
    ensures Keeps(Apply(d, Receive), x)
  {
    OwnMessage(d, x, n);
    ReceivedOwn(d.s, x, n);
    hide ListsSorted, Due, Perform, Received, NotListed, ListedOnce, NoCommand, CommandOnce, Filed, Queued, Tracked,
      Keeps, Apply;
    StartReceived(d, x, n);
  }

  lemma AbsentSampled(s: Service, time: Tick, t: TimerId)
    ensures Absent(s, t) ==> Absent(s.(lastTime := time), t)
  {
  }

  lemma StepKeeps(d: Daemon, x: Watched, step: Step)
    requires Inv(d, x) && Healthy(d, x, step)
    ensures Inv(Apply(d, step), x)
  {
    var n := Callbacks(d, x);
    KeepsIsInv(Apply(d, step), x);
    hide Inv, Keeps, Tracked, ClockOk, ListsSorted, Apply, HeadExpired;
    InvParts(d, x);
    match step
    case Poll =>
      if d.now % WRAP < d.s.lastTime { PollSwitches(d, x, n); }
      else if HeadExpired(d.s, d.now % WRAP) { PollExpires(d, x, n); }
      else { PollBlocks(d, x, n); }
    case SwitchTurn => if d.s.current != [] { SwitchTurns(d, x, n); } else { SwitchEnds(d, x, n); }
    case Receive =>
      if d.s.queue == [] || !Names(d.s.queue[0], x.timer) { ReceivesOther(d, x, n); } else { ReceivesOwn(d, x, n); }
    case _ => ForeignSteps(d, x, step, n);
  }

  lemma InvParts(d: Daemon, x: Watched)
    requires Inv(d, x)
    ensures ListsSorted(d.s) && ClockOk(d) && Tracked(d, x, Callbacks(d, x))
  {
  }

  lemma {:induction false} RunKeeps(d: Daemon, x: Watched, steps: seq<Step>)
    requires Inv(d, x) && Runs(d, x, steps)
    ensures Inv(After(d, x, steps), x)
    decreases |steps|
  {
    hide Inv, Apply;
    if steps != [] {
      StepKeeps(d, x, steps[0]);
      RunKeeps(Apply(d, steps[0]), x, steps[1..]);
    }
  }

  // ----- the main result

  /** A command to start the timer, given at tick start, has just been accepted: the timer was not
      active and the command is the only one for it. The daemon may be anywhere. */
  ghost predicate JustStarted(d: Daemon, x: Watched) {
    && ListsSorted(d.s) && ClockOk(d)
    && x.start <= d.now && CallsOf(d.s, x.timer) == x.before && TimerOf(d.s, x.timer) == Timer(x.period, x.autoReload)
    && CommandOnce(d.s.queue, Start(x.timer, x.start % WRAP)) && !InHand(d, x.timer)
    && NotListed(d.s.current, x.timer) && NotListed(d.s.overflow, x.timer)
  }

  /** The callbacks due to the timer by time. */
  function CallsDue(x: Watched, time: nat): nat
    requires time >= x.start
  {
    if x.autoReload then (time - x.start) / x.period else if time - x.start >= x.period then 1 else 0
  }

  /** From any state in which the timer is tracked. */
  lemma CatchUpFrom(d: Daemon, x: Watched, steps: seq<Step>)
    requires Inv(d, x) && Runs(d, x, steps)
    requires Healthy(After(d, x, steps), x, Poll) && Apply(After(d, x, steps), Poll).pc.Blocked?
    ensures var d' := After(d, x, steps);
      && d'.now >= x.start
      && CallsOf(Apply(d', Poll).s, x.timer) == x.before + CallsDue(x, d'.now)
      && (!x.autoReload && CallsDue(x, d'.now) == 1 ==> Absent(Apply(d', Poll).s, x.timer))
  {
    hide *;
    RunKeeps(d, x, steps);
    BlockedIsCaughtUp(After(d, x, steps), x);
  }

  /** Catch-up is exact: however late the daemon ran and whatever else it was told to do, whenever
      it blocks, at tick T, the callback has run floor((T - start) / period) times. */
  lemma CatchUpExact(d: Daemon, x: Watched, steps: seq<Step>)
    requires x.autoReload && JustStarted(d, x) && Runs(d, x, steps)
    requires Healthy(After(d, x, steps), x, Poll) && Apply(After(d, x, steps), Poll).pc.Blocked?
    ensures var d' := After(d, x, steps);
      && d'.now >= x.start
      && CallsOf(Apply(d', Poll).s, x.timer) == x.before + (d'.now - x.start) / x.period
  {
    StartTracked(d, x);
    CatchUpFrom(d, x, steps);
    hide Inv, Runs, Apply, JustStarted;
  }

  /** A one-shot timer is called back exactly once: whenever the daemon blocks, at tick T, it has been
      called back once if T - start has reached the period and not at all otherwise, and after the
      call it is on no list and in no command. */
  lemma OneShotExact(d: Daemon, x: Watched, steps: seq<Step>)
    requires !x.autoReload && JustStarted(d, x) && Runs(d, x, steps)
    requires Healthy(After(d, x, steps), x, Poll) && Apply(After(d, x, steps), Poll).pc.Blocked?
    ensures var d' := After(d, x, steps);
      var s := Apply(d', Poll).s;
      && d'.now >= x.start
      && CallsOf(s, x.timer) == x.before + (if d'.now - x.start >= x.period then 1 else 0)
      && (d'.now - x.start >= x.period ==>
           NotListed(s.current, x.timer) && NotListed(s.overflow, x.timer) && NoCommand(s.queue, x.timer))
  {
    StartTracked(d, x);
    CatchUpFrom(d, x, steps);
    hide Inv, Runs, Apply, JustStarted;
  }

  lemma StartTracked(d: Daemon, x: Watched)
    requires JustStarted(d, x)
    ensures Inv(d, x)
  {
    assert Due(x, 0) == x.start;
    assert Tracked(d, x, 0);
    KeepsIsInv(d, x);
    hide Inv;
  }

  lemma BlockedIsCaughtUp(d: Daemon, x: Watched)
    requires Inv(d, x) && Healthy(d, x, Poll) && Apply(d, Poll).pc.Blocked?
    ensures x.start <= d.now && CallsOf(Apply(d, Poll).s, x.timer) == x.before + CallsDue(x, d.now)
    ensures !x.autoReload && CallsDue(x, d.now) == 1 ==> Absent(Apply(d, Poll).s, x.timer)
  {
    var n, d1 := Callbacks(d, x), Sampled(d, d.s);
    SampledTracked(d, x, n);
    assert !HeadExpired(d.s, d.now % WRAP) && d.s.queue == [];
    FiledWhenIdle(d1, x, n);
    DueNext(x, n);
    if Live(x, n) {
      if Due(x, n + 1) / WRAP == d.now / WRAP { EntryAfterHead(d.s.current, DueEntry(x, n + 1), d.now % WRAP); }
      hide Filed, Tracked, ListsSorted, Due, ListedOnce, NotListed, Absent;
      assert Due(x, n) <= d.now < Due(x, n + 1);
      DueBounds(x, n, d.now);
      OneShotBounds(x, n, d.now);
    } else {
      hide Filed, Tracked, ListsSorted, ListedOnce, NotListed;
    }
  }

  lemma OneShotBounds(x: Watched, n: nat, time: nat)
    requires Live(x, n) && Due(x, n) <= time < Due(x, n + 1)
    ensures !x.autoReload ==> n == 0 && time - x.start < x.period
  {
  }

  lemma FiledWhenIdle(d: Daemon, x: Watched, n: nat)
    requires Tracked(d, x, n) && d.s.queue == [] && d.pc.Top?
    ensures CallsOf(d.s, x.timer) == x.before + n
    ensures if Live(x, n) then Filed(d.s, x, n, d.sampledAt / WRAP) && Due(x, n) <= d.sampledAt
      else n == 1 && Absent(d.s, x.timer) && x.start + x.period <= d.sampledAt
  {
    assert Due(x, 1) == x.start + x.period;
    hide Due;
  }

  lemma DueBounds(x: Watched, n: nat, time: nat)
    requires Due(x, n) <= time < Due(x, n + 1)
    ensures n == (time - x.start) / x.period
  {
    DueNext(x, n);
    Arithmetic.QuotientIs(time - x.start, x.period, n);
  }

  lemma EntryAfterHead(list: seq<Entry>, e: Entry, time: Tick)
    requires Sorted(Expiries(list)) && ListedOnce(list, e) && list != [] && list[0].expiry > time
    ensures e.expiry > time
  {
    TailSorted(list);
  }
}
