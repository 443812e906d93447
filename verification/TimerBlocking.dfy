/** For how long the timer daemon blocks, and prvProcessTimerOrBlockTask as a part of its runs. */
module TimerBlocking {
  import opened Options
  import opened Ticks
  import opened ListSpec
  import opened TimerSpec
  import opened TimerSwitch
  import opened TimerRuns

  /** The daemon left alone in the loop of prvSwitchTimerLists. */
  function LoopedThrough(d: Daemon): Daemon
    requires d.pc.Switching?
    decreases TicksLeft(d.s.current)
  {
    if d.s.current == [] then Apply(d, SwitchTurn)
    else
      SwitchHeadProgress(d.s);
      LoopedThrough(Apply(d, SwitchTurn))
  }

  /** Turn by turn, it does what prvSwitchTimerLists does, and then performs the message in hand. */
  lemma {:induction false} TurnsAreTheSwitch(d: Daemon)
    requires d.pc.Switching?
    ensures var s1 := SwitchAll(d.s).(lastTime := d.pc.at % WRAP);
      LoopedThrough(d) ==
        d.(s := if d.pc.message == [] then s1 else Perform(s1, d.pc.message[0], d.pc.at % WRAP),
           pc := Commands, sampledAt := d.pc.at)
    decreases TicksLeft(d.s.current)
  {
    hide SwitchHead, Perform;
    if d.s.current != [] {
      SwitchHeadProgress(d.s);
      TurnsAreTheSwitch(Apply(d, SwitchTurn));
    }
  }

  /** prvProcessTimerOrBlockTask when the tick count has fallen: the lists are switched, and the daemon
      looks at its commands before it blocks. */
  lemma FallenTickCount(d: Daemon)
    requires d.pc.Top? && d.now % WRAP < d.s.lastTime
    ensures var r := ProcessOrBlock(d.s, d.now % WRAP);
      Apply(d, Poll).pc.Switching? && LoopedThrough(Apply(d, Poll)).s == r.0 && r.1.None?
  {
    TurnsAreTheSwitch(Apply(d, Poll));
    hide SwitchAll, LoopedThrough;
  }

  /** There is something to do at this tick of the current epoch, or the epoch is over. */
  predicate SomethingToDo(s: Service, at: nat) {
    at >= WRAP || (s.current != [] && s.current[0].expiry <= at)
  }

  /** The daemon blocks exactly until the first tick at which there is something to do, for ever if
      there is no active timer, and not at all if there is something to do now. At tick 0 of an
      epoch in which no timer expires it only looks again. */
  lemma BlocksUntilWork(s: Service, now: Tick)
    requires now >= s.lastTime
    ensures ProcessOrBlock(s, now).1.None? <==> SomethingToDo(s, now)
    ensures ProcessOrBlock(s, now).1.Some? ==>
      var wait := ProcessOrBlock(s, now).1.value;
      && (s.current == [] && s.overflow == [] ==> wait == MAX_DELAY)
      && (s.current != [] || s.overflow != [] ==>
           && (wait == 0 <==> s.current == [] && now == 0)
           && (forall at :: now <= at < now + wait ==> !SomethingToDo(s, at))
           && (wait > 0 ==> SomethingToDo(s, now + wait)))
  {
    hide ProcessExpired, SwitchAll;
    assert now > 0 ==> Wrapped(0 - now) == WRAP - now;
    if s.current != [] && s.current[0].expiry > now {
      assert Wrapped(s.current[0].expiry - now) == s.current[0].expiry - now;
    }
  }

  /** It never oversleeps: whatever timer is being watched, the daemon blocks until its next due time
      at the latest, on the unbounded clock. */
  lemma NeverOversleeps(d: Daemon, x: Watched)
    requires Inv(d, x) && Healthy(d, x, Poll) && Apply(d, Poll).pc.Blocked? && Live(x, Callbacks(d, x))
    ensures var r := ProcessOrBlock(d.s, d.now % WRAP).1;
      r.Some? && d.now + r.value <= Due(x, Callbacks(d, x) + 1)
  {
    var n, d1 := Callbacks(d, x), Sampled(d, d.s);
    hide ProcessExpired, SwitchAll;
    InvParts(d, x);
    SampledTracked(d, x, n);
    assert !HeadExpired(d.s, d.now % WRAP) && d.s.queue == [];
    FiledWhenIdle(d1, x, n);
    FiledNotEmpty(d1.s, x, n, d1.sampledAt / WRAP);
    hide Tracked, ListsSorted, Due;
    WaitsInEpoch(d1.s, x, n, d.now);
  }

  lemma WaitsInEpoch(s: Service, x: Watched, n: nat, now: nat)
    requires Filed(s, x, n, now / WRAP) && Sorted(Expiries(s.current)) && !HeadExpired(s, now % WRAP)
    ensures s.current != [] || s.overflow != []
    ensures now + Wrapped(NextExpireTime(s) - now % WRAP) <= Due(x, n + 1)
  {
    hide Due;
    FiledNotEmpty(s, x, n, now / WRAP);
    if s.current != [] {
      TailSorted(s.current);
      hide Sorted, Expiries;
      if Due(x, n + 1) / WRAP == now / WRAP { ListedNotBeforeHead(s.current, DueEntry(x, n + 1)); }
    }
  }

  lemma ListedNotBeforeHead(list: seq<Entry>, e: Entry)
    requires ListedOnce(list, e) && list != [] && forall i :: 0 <= i < |list| ==> list[0].expiry <= list[i].expiry
    ensures list[0].expiry <= e.expiry
  {
  }
}
