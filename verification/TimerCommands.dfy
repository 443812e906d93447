/** What a command does to an active timer: stop, reset and change of period, over whole runs. */
module TimerCommands {
  import opened Ticks
  import opened ListSpec
  import opened TimerSpec
  import opened TimerSwitch
  import opened TimerRuns

  /** The daemon as it would be if the message it is about to take were not there. */
  function WithoutFirst(d: Daemon): Daemon
    requires d.s.queue != []
  {
    d.(s := d.s.(queue := d.s.queue[1..]))
  }

  /** The daemon is about to take a command for the timer, the only one, and the clock was sampled less
      than a wrap ago if there is any active timer. */
  ghost predicate AboutToTake(d: Daemon, x: Watched) {
    && d.pc.Commands? && d.s.queue != [] && Names(d.s.queue[0], x.timer)
    && NoCommand(d.s.queue[1..], x.timer) && Inv(WithoutFirst(d), x)
    && (d.s.current != [] || d.s.overflow != [] ==> d.now - d.sampledAt < WRAP)
  }

  lemma {:induction false} DropOwn(list: seq<Entry>, e: Entry)
    requires ListedOnce(list, e)
    ensures NotListed(Drop(list, e.timer), e.timer)
    decreases |list|
  {
    ListedSomewhere(list, e);
    TailEffect(list, e);
    if list[0].timer != e.timer {
      DropOwn(list[1..], e);
      PrependEffect(list[0], Drop(list[1..], e.timer), Entry(e.timer, 0));
    }
  }

  /** Whatever the command is, the timer is on no list and in no other command once it is taken. */
  lemma TakenIsAbsent(d: Daemon, x: Watched)
    requires AboutToTake(d, x)
    ensures Absent(Received(d.s), x.timer)
    ensures CallsOf(Received(d.s), x.timer) == CallsOf(d.s, x.timer)
    ensures TimerOf(d.s, x.timer) == TimerOf(Received(d.s), x.timer) == Timer(x.period, x.autoReload)
    ensures ListsSorted(d.s) && ClockOk(d) && ListsSorted(Received(d.s)) && Received(d.s).lastTime == d.s.lastTime
  {
    var d1, t := WithoutFirst(d), x.timer;
    var n := Callbacks(d1, x);
    InvParts(d1, x);
    ReceivedSorted(d.s);
    NotQueued(d1, x, n);
    if NotListed(d.s.current, t) { DropNothing(d.s.current, t); } else { DropOwn(d.s.current, DueEntry(x, n + 1)); }
    if NotListed(d.s.overflow, t) { DropNothing(d.s.overflow, t); } else { DropOwn(d.s.overflow, DueEntry(x, n + 1)); }
    hide Inv, Due, Drop, ListedOnce, Sorted, Expiries;
  }

  lemma NotQueued(d: Daemon, x: Watched, n: nat)
    requires Tracked(d, x, n) && NoCommand(d.s.queue, x.timer) && d.pc.Commands?
    ensures Filed(d.s, x, n, d.sampledAt / WRAP) || Absent(d.s, x.timer)
  {
    hide Due, Filed, ListedOnce, NotListed;
  }

  // ----- stop and delete

  /** The timer is on no list and nothing on its way to the daemon, or in its hands, starts it. */
  ghost predicate Silent(d: Daemon, t: TimerId) {
    Absent(d.s, t) && !InHand(d, t)
  }

  /** Nobody commands the timer. */
  ghost predicate QuietRun(d: Daemon, t: TimerId, steps: seq<Step>)
    decreases |steps|
  {
    steps == [] || (Enabled(d, steps[0]) && (steps[0].Send? ==> !Names(steps[0].c, t))
                    && QuietRun(Apply(d, steps[0]), t, steps[1..]))
  }

  function QuietEnd(d: Daemon, t: TimerId, steps: seq<Step>): Daemon
    requires QuietRun(d, t, steps)
    decreases |steps|
  {
    if steps == [] then d else QuietEnd(Apply(d, steps[0]), t, steps[1..])
  }

  lemma SilentUntouched(d: Daemon, d': Daemon, t: TimerId)
    requires Silent(d, t) && Untouched(d.s, d'.s, t) && !InHand(d', t)
    ensures Silent(d', t) && CallsOf(d'.s, t) == CallsOf(d.s, t)
  {
    hide NotListed, ListedOnce, NoCommand, CommandOnce;
  }

  lemma SampledSilent(d: Daemon, s: Service, t: TimerId)
    requires Silent(d, t) && Untouched(d.s, s, t) && !d.pc.Switching?
    ensures Silent(Sampled(d, s), t) && CallsOf(Sampled(d, s).s, t) == CallsOf(d.s, t)
  {
    SampledUntouched(d.s, s, d.now % WRAP, t);
    UntouchedSelf(d.s, t);
    hide Untouched, Absent;
    SilentUntouched(d, d.(s := s), t);
    UntouchedTime(d.s, s, d.now % WRAP, t);
    SilentUntouched(d, Sampled(d, s), t);
  }

  lemma UntouchedTime(s: Service, s1: Service, time: Tick, t: TimerId)
    requires Untouched(s, s1, t)
    ensures Untouched(s, s1.(lastTime := time), t)
  {
    hide NotListed, ListedOnce, NoCommand, CommandOnce;
  }

  lemma AbsentHead(s: Service, t: TimerId)
    requires Absent(s, t)
    ensures s.current != [] ==> s.current[0].timer != t
    ensures s.queue != [] ==> !Names(s.queue[0], t)
  {
  }

  lemma StepSilent(d: Daemon, t: TimerId, step: Step)
    requires Silent(d, t) && Enabled(d, step) && (step.Send? ==> !Names(step.c, t))
    ensures Silent(Apply(d, step), t) && CallsOf(Apply(d, step).s, t) == CallsOf(d.s, t)
  {
    AbsentHead(d.s, t);
    UntouchedSelf(d.s, t);
    var d' := Apply(d, step);
    match step
    case Poll => PollSilent(d, t);
    case SwitchTurn => TurnSilent(d, t);
    case Receive => ReceiveSilent(d, t);
    case Send(c) =>
      SendUntouched(d.s.queue, c, t);
      assert Untouched(d.s, d'.s, t) by { hide NotListed, ListedOnce, NoCommand, CommandOnce; }
      SilentUntouched(d, d', t);
    case TickPasses => SilentUntouched(d, d', t);
    case Wake => SilentUntouched(d, d', t);
  }

  lemma PollSilent(d: Daemon, t: TimerId)
    requires Silent(d, t) && Enabled(d, Poll)
    ensures Silent(Apply(d, Poll), t) && CallsOf(Apply(d, Poll).s, t) == CallsOf(d.s, t)
  {
    AbsentHead(d.s, t);
    UntouchedSelf(d.s, t);
    var d', d1 := Apply(d, Poll), Sampled(d, d.s);
    SampledSilent(d, d.s, t);
    UntouchedSelf(d1.s, t);
    hide Untouched, Silent;
    if d.now % WRAP < d.s.lastTime {
      SilentUntouched(d, d', t);
    } else {
      if HeadExpired(d1.s, d.now % WRAP) { ProcessExpiredUntouched(d1.s, d.now % WRAP, t); }
      hide ProcessExpired;
      SilentUntouched(d1, d', t);
    }
  }

  lemma TurnSilent(d: Daemon, t: TimerId)
    requires Silent(d, t) && Enabled(d, SwitchTurn)
    ensures Silent(Apply(d, SwitchTurn), t) && CallsOf(Apply(d, SwitchTurn).s, t) == CallsOf(d.s, t)
  {
    AbsentHead(d.s, t);
    var d' := Apply(d, SwitchTurn);
    if d.s.current != [] {
      SwitchHeadUntouched(d.s, t);
      hide Untouched, Silent, SwitchHead;
      SilentUntouched(d, d', t);
    } else {
      var s1 := Swap(d.s).(lastTime := d.pc.at % WRAP);
      assert Absent(s1, t);
      var d1 := d.(s := s1);
      UntouchedSelf(s1, t);
      if d.pc.message != [] { PerformUntouched(s1, d.pc.message[0], d.pc.at % WRAP, t); }
      hide Untouched, Absent, Perform;
      SilentUntouched(d1, d', t);
    }
  }

  lemma ReceiveSilent(d: Daemon, t: TimerId)
    requires Silent(d, t) && Enabled(d, Receive)
    ensures Silent(Apply(d, Receive), t) && CallsOf(Apply(d, Receive).s, t) == CallsOf(d.s, t)
  {
    AbsentHead(d.s, t);
    UntouchedSelf(d.s, t);
    var d' := Apply(d, Receive);
    if d.s.queue == [] {
      hide Untouched, Silent;
      SilentUntouched(d, d', t);
    } else {
      var c, s1 := d.s.queue[0], Received(d.s);
      ReceivedUntouched(d.s, t);
      hide Untouched, Silent, Perform, Received;
      if c.Execute? || d.now % WRAP < d.s.lastTime {
        SilentUntouched(d, d', t);
      } else {
        var d1 := Sampled(d, s1);
        SampledSilent(d, s1, t);
        PerformUntouched(d1.s, c, d.now % WRAP, t);
        SilentUntouched(d1, d', t);
      }
    }
  }

  lemma {:induction false} StaysSilent(d: Daemon, t: TimerId, steps: seq<Step>)
    requires Silent(d, t) && QuietRun(d, t, steps)
    ensures Silent(QuietEnd(d, t, steps), t) && CallsOf(QuietEnd(d, t, steps).s, t) == CallsOf(d.s, t)
    decreases |steps|
  {
    hide Silent, Apply, Enabled;
    if steps != [] {
      StepSilent(d, t, steps[0]);
      StaysSilent(Apply(d, steps[0]), t, steps[1..]);
    }
  }

  /** A timer whose stop or delete command has been taken is never called back again until it is
      commanded again, however long and with whatever else the daemon runs. */
  lemma StoppedForGood(d: Daemon, x: Watched, steps: seq<Step>)
    requires AboutToTake(d, x) && (d.s.queue[0].Stop? || d.s.queue[0].Delete?)
    requires QuietRun(Apply(d, Receive), x.timer, steps)
    ensures var d' := QuietEnd(Apply(d, Receive), x.timer, steps);
      && CallsOf(d'.s, x.timer) == CallsOf(d.s, x.timer)
      && NotListed(d'.s.current, x.timer) && NotListed(d'.s.overflow, x.timer) && NoCommand(d'.s.queue, x.timer)
  {
    TakenIsAbsent(d, x);
    TakenSilent(d, x.timer);
    StaysSilent(Apply(d, Receive), x.timer, steps);
    hide QuietRun, Apply, AboutToTake;
  }

  lemma TakenSilent(d: Daemon, t: TimerId)
    requires d.pc.Commands? && d.s.queue != [] && (d.s.queue[0].Stop? || d.s.queue[0].Delete?)
    requires Absent(Received(d.s), t) && d.s.queue[0].timer == t
    ensures Silent(Apply(d, Receive), t) && CallsOf(Apply(d, Receive).s, t) == CallsOf(d.s, t)
  {
    AbsentSampled(Received(d.s), d.now % WRAP, t);
  }

  /** But the stop must come last: with a restart of the timer's own queued behind it, the stop does
      nothing, and the timer is called back as if it had not been given. */
  lemma StopOutrun(d: Daemon, x: Watched)
    requires d.pc.Commands? && d.s.queue != [] && d.s.queue[0] == Stop(x.timer)
    requires Inv(WithoutFirst(d), x) && !NoCommand(d.s.queue[1..], x.timer)
    requires d.s.current != [] || d.s.overflow != [] ==> d.now - d.sampledAt < WRAP
    ensures Inv(Apply(d, Receive), x)
  {
    var d1, d', t := WithoutFirst(d), Apply(d, Receive), x.timer;
    var n := Callbacks(d1, x);
    InvParts(d1, x);
    StillQueued(d1, x, n);
    DropNothing(d.s.current, t);
    DropNothing(d.s.overflow, t);
    assert Received(d.s) == d1.s;
    UntouchedSelf(d1.s, t);
    hide Inv, Tracked, Untouched, NotListed, ListedOnce, NoCommand, CommandOnce, Due, Drop, ListsSorted;
    if d.now % WRAP < d.s.lastTime {
      if d.s.current != [] || d.s.overflow != [] { NextEpoch(d1); }
      TrackedUntouched(d1, d', x, n);
    } else {
      SampledTracked(d1, x, n);
      SortedSampled(d1.s, d.now % WRAP);
    }
    KeepsIsInv(d', x);
  }

  lemma StillQueued(d: Daemon, x: Watched, n: nat)
    requires Tracked(d, x, n) && !NoCommand(d.s.queue, x.timer) && d.pc.Commands?
    ensures NotListed(d.s.current, x.timer) && NotListed(d.s.overflow, x.timer)
  {
    hide Due;
  }

  /** It happens exactly when the daemon finds an auto-reload timer a whole period late while its stop
      is waiting: the restart then goes behind whatever is in the queue. */
  lemma RestartsBehindTheStopIff(d: Daemon, t: TimerId, due: nat)
    requires d.pc.Top? && d.now % WRAP >= d.s.lastTime && TimerOf(d.s, t).autoReload
    requires d.s.current != [] && d.s.current[0] == Entry(t, due % WRAP)
    requires due <= d.now && due / WRAP == d.now / WRAP
    ensures var d' := Apply(d, Poll);
      && CallsOf(d'.s, t) == CallsOf(d.s, t) + 1
      && (d.now - due >= TimerOf(d.s, t).period <==> d'.s.queue == d.s.queue + [Start(t, due % WRAP)])
      && (d.now - due < TimerOf(d.s, t).period <==> d'.s.queue == d.s.queue)
  {
    var period := TimerOf(d.s, t).period;
    PlacementExact(due, d.now, period);
    ExpiryNext(due, period);
    Modulus(due, d.now);
    hide File, PlacementFor;
    assert |d.s.queue + [Start(t, due % WRAP)]| != |d.s.queue|;
  }

  lemma ExpiryNext(due: nat, period: Period)
    ensures Wrapped(due % WRAP + period) == (due + period) % WRAP
  {
  }

  // ----- reset

  /** Starting an active timer again, at true tick start, begins a new life from there: what it was due
      before is forgotten. */
  lemma ResetStartsAnew(d: Daemon, x: Watched, start: nat)
    requires AboutToTake(d, x) && d.s.queue[0] == Start(x.timer, start % WRAP) && start <= d.now < start + WRAP
    ensures Inv(Apply(d, Receive), x.(start := start, before := CallsOf(d.s, x.timer)))
  {
    TakenIsAbsent(d, x);
    var y := x.(start := start, before := CallsOf(d.s, x.timer));
    assert Due(y, 0) == start;
    KeepsIsInv(Apply(d, Receive), y);
    hide Inv, Keeps, Apply, Received, ListsSorted, ClockOk, Due, Absent;
    StartReceived(d, y, 0);
  }

  /** So the callbacks made by the time the daemon blocks are those due since the reset. */
  lemma ResetCatchUp(d: Daemon, x: Watched, y: Watched, steps: seq<Step>)
    requires AboutToTake(d, x) && y == x.(start := y.start, before := CallsOf(d.s, x.timer))
    requires d.s.queue[0] == Start(x.timer, y.start % WRAP) && y.start <= d.now < y.start + WRAP
    requires Runs(Apply(d, Receive), y, steps) && Healthy(After(Apply(d, Receive), y, steps), y, Poll)
    requires Apply(After(Apply(d, Receive), y, steps), Poll).pc.Blocked?
    ensures var d' := After(Apply(d, Receive), y, steps);
      && d'.now >= y.start
      && CallsOf(Apply(d', Poll).s, x.timer) ==
           CallsOf(d.s, x.timer) + (if x.autoReload then (d'.now - y.start) / x.period
                                    else if d'.now - y.start >= x.period then 1 else 0)
  {
    ResetStartsAnew(d, x, y.start);
    hide Inv, Runs, Apply, Healthy, AboutToTake;
    CatchUpFrom(Apply(d, Receive), y, steps);
  }

  // ----- change of period

  lemma DueTwice(y: Watched)
    ensures Due(y, 0) == y.start && Due(y, 1) == y.start + y.period
    ensures Wrapped(y.start % WRAP + y.period) == Due(y, 1) % WRAP
  {
    DueNext(y, 0);
  }

  lemma PeriodChanged(s: Service, t: TimerId, period: Period, at: nat)
    requires Absent(s, t)
    ensures var s', y := Perform(s, ChangePeriod(t, period), at % WRAP),
        Watched(t, period, at, CallsOf(s, t), TimerOf(s, t).autoReload);
      Filed(s', y, 0, at / WRAP) && Counted(s', y, 0)
  {
    hide NotListed, ListedOnce, NoCommand, File, PlacementFor, Filed;
    var y := Watched(t, period, at, CallsOf(s, t), TimerOf(s, t).autoReload);
    var s1 := s.(timers := s.timers[t := TimerOf(s, t).(period := period)]);
    DueTwice(y);
    PlacementExact(at, at, period);
    assert Absent(s1, t);
    hide Absent, Due;
    FileOwn(s1, y, 0, at);
  }

  /** Changing the period begins a new life with the new period at the time the command is performed,
      whether at once or after the lists have been switched. */
  lemma ChangeStartsAnew(d: Daemon, x: Watched, period: Period)
    requires AboutToTake(d, x) && d.s.queue[0] == ChangePeriod(x.timer, period) && d.now % WRAP >= d.s.lastTime
    ensures Inv(Apply(d, Receive), Watched(x.timer, period, d.now, CallsOf(d.s, x.timer), x.autoReload))
  {
    TakenIsAbsent(d, x);
    var y := Watched(x.timer, period, d.now, CallsOf(d.s, x.timer), x.autoReload);
    var d', s1 := Apply(d, Receive), Sampled(d, Received(d.s)).s;
    AbsentSampled(Received(d.s), d.now % WRAP, x.timer);
    PeriodChanged(s1, x.timer, period, d.now);
    SortedSampled(Received(d.s), d.now % WRAP);
    PerformSorted(s1, d.s.queue[0], d.now % WRAP);
    assert Due(y, 0) == d.now;
    hide AboutToTake, Received, Perform, ListsSorted, Filed, Due, Absent, Inv;
    assert Tracked(d', y, 0);
    KeepsIsInv(d', y);
  }

  lemma HeldChangeStartsAnew(d: Daemon, t: TimerId, period: Period)
    requires ListsSorted(d.s) && ClockOk(d) && Absent(d.s, t) && d.pc.Switching? && d.s.current == []
    requires d.pc.message == [ChangePeriod(t, period)]
    ensures Inv(Apply(d, SwitchTurn), Watched(t, period, d.pc.at, CallsOf(d.s, t), TimerOf(d.s, t).autoReload))
  {
    var y := Watched(t, period, d.pc.at, CallsOf(d.s, t), TimerOf(d.s, t).autoReload);
    var d', s1 := Apply(d, SwitchTurn), Swap(d.s).(lastTime := d.pc.at % WRAP);
    assert Absent(s1, t);
    PeriodChanged(s1, t, period, d.pc.at);
    PerformSorted(s1, d.pc.message[0], d.pc.at % WRAP);
    assert Due(y, 0) == d.pc.at;
    hide Perform, ListsSorted, Filed, Due, Absent, Inv;
    assert Tracked(d', y, 0);
    KeepsIsInv(d', y);
  }

  /** And the callbacks made by then are those due since the change. */
  lemma ChangeCatchUp(d: Daemon, x: Watched, y: Watched, steps: seq<Step>)
    requires AboutToTake(d, x) && y == Watched(x.timer, y.period, d.now, CallsOf(d.s, x.timer), x.autoReload)
    requires d.s.queue[0] == ChangePeriod(x.timer, y.period) && d.now % WRAP >= d.s.lastTime
    requires Runs(Apply(d, Receive), y, steps) && Healthy(After(Apply(d, Receive), y, steps), y, Poll)
    requires Apply(After(Apply(d, Receive), y, steps), Poll).pc.Blocked?
    ensures var d' := After(Apply(d, Receive), y, steps);
      && d'.now >= d.now
      && CallsOf(Apply(d', Poll).s, x.timer) ==
           CallsOf(d.s, x.timer) + (if x.autoReload then (d'.now - d.now) / y.period
                                    else if d'.now - d.now >= y.period then 1 else 0)
  {
    ChangeStartsAnew(d, x, y.period);
    hide Inv, Runs, Apply, Healthy, AboutToTake;
    CatchUpFrom(Apply(d, Receive), y, steps);
  }
}
