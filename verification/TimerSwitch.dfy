/** prvSwitchTimerLists by itself: how often it calls back each timer. */
module TimerSwitch {
  import opened Arithmetic
  import opened Ticks
  import opened ListSpec
  import opened TimerSpec

  ghost predicate NotListed(list: seq<Entry>, t: TimerId) {
    forall i :: 0 <= i < |list| ==> list[i].timer != t
  }

  /** The list holds exactly one item of the timer, and it is this one. */
  ghost predicate ListedOnce(list: seq<Entry>, e: Entry) {
    exists i :: 0 <= i < |list| && list[i] == e && forall j :: 0 <= j < |list| && j != i ==> list[j].timer != e.timer
  }

  lemma FileEffect(list: seq<Entry>, e: Entry, x: Entry)
    ensures NotListed(list, e.timer) ==> ListedOnce(File(list, e), e)
    ensures e.timer != x.timer && ListedOnce(list, x) ==> ListedOnce(File(list, e), x)
    ensures e.timer != x.timer && NotListed(list, x.timer) ==> NotListed(File(list, e), x.timer)
  {
    var p, r := SortedPosition(Expiries(list), e.expiry), File(list, e);
    assert r[p] == e;
    if e.timer != x.timer && ListedOnce(list, x) {
      var i :| 0 <= i < |list| && list[i] == x && forall j :: 0 <= j < |list| && j != i ==> list[j].timer != x.timer;
      assert r[if i < p then i else i + 1] == x;
    }
  }

  lemma TailEffect(list: seq<Entry>, x: Entry)
    requires list != []
    ensures NotListed(list, x.timer) ==> NotListed(list[1..], x.timer) && list[0].timer != x.timer
    ensures ListedOnce(list, x) && list[0].timer == x.timer ==> list[0] == x && NotListed(list[1..], x.timer)
    ensures ListedOnce(list, x) && list[0].timer != x.timer ==> ListedOnce(list[1..], x)
  {
    if ListedOnce(list, x) {
      var i :| 0 <= i < |list| && list[i] == x && forall j :: 0 <= j < |list| && j != i ==> list[j].timer != x.timer;
      if list[0].timer != x.timer { assert list[1..][i - 1] == x; }
      else { assert forall j :: 0 <= j < |list| - 1 ==> list[1..][j] == list[j + 1]; }
    }
  }

  /** Whatever other timers are on the list, a turn for one of them does not touch this one. */
  lemma SwitchHeadOther(s: Service, x: Entry)
    requires s.current != [] && s.current[0].timer != x.timer
    ensures var s' := SwitchHead(s);
      && CallsOf(s', x.timer) == CallsOf(s, x.timer) && TimerOf(s', x.timer) == TimerOf(s, x.timer)
      && (ListedOnce(s.current, x) ==> ListedOnce(s'.current, x))
      && (NotListed(s.current, x.timer) ==> NotListed(s'.current, x.timer))
      && (s'.queue == s.queue || s'.queue == s.queue + [Start(s.current[0].timer, s.current[0].expiry)])
      && s'.overflow == s.overflow && s'.timers == s.timers && s'.lastTime == s.lastTime
  {
    hide ListedOnce, NotListed, File, Wrapped;
    var e := s.current[0];
    TailEffect(s.current, x);
    FileEffect(s.current[1..], Entry(e.timer, Wrapped(e.expiry + TimerOf(s, e.timer).period)), x);
  }

  /** The turn of the timer itself. */
  lemma SwitchHeadOwn(s: Service, x: Entry)
    requires s.current != [] && s.current[0] == x && ListedOnce(s.current, x)
    ensures var s', timer := SwitchHead(s), TimerOf(s, x.timer);
      && CallsOf(s', x.timer) == CallsOf(s, x.timer) + 1 && TimerOf(s', x.timer) == timer
      && (if timer.autoReload && x.expiry + timer.period < WRAP
          then s'.queue == s.queue && ListedOnce(s'.current, Entry(x.timer, x.expiry + timer.period))
          else
            NotListed(s'.current, x.timer) &&
            s'.queue == if timer.autoReload then s.queue + [Start(x.timer, x.expiry)] else s.queue)
      && s'.overflow == s.overflow && s'.timers == s.timers && s'.lastTime == s.lastTime
  {
    hide ListedOnce, NotListed, File;
    var timer := TimerOf(s, x.timer);
    TailEffect(s.current, x);
    if x.expiry + timer.period < WRAP {
      FileEffect(s.current[1..], Entry(x.timer, x.expiry + timer.period), x);
    }
  }

  /** The callbacks owed to a timer that expires at e before the epoch ends. */
  function CallsOwed(timer: Timer, e: Tick): nat {
    if timer.autoReload then (MAX_DELAY - e) / timer.period + 1 else 1
  }

  lemma OneMorePeriod(timer: Timer, e: Tick)
    requires timer.autoReload
    ensures e + timer.period < WRAP ==> CallsOwed(timer, e) == CallsOwed(timer, e + timer.period) + 1
    ensures e + timer.period >= WRAP ==> CallsOwed(timer, e) == 1
  {
    if e + timer.period < WRAP { QuotientNext(MAX_DELAY - (e + timer.period), timer.period); }
    else { QuotientIs(MAX_DELAY - e, timer.period, 0); }
  }

  lemma {:induction false} SwitchLeavesOthers(s: Service, x: Entry)
    requires NotListed(s.current, x.timer)
    ensures CallsOf(SwitchAll(s), x.timer) == CallsOf(s, x.timer)
    decreases TicksLeft(s.current)
  {
    if s.current != [] {
      TailEffect(s.current, x);
      SwitchHeadOther(s, x);
      SwitchHeadProgress(s);
      hide SwitchHead, ListedOnce, NotListed;
      SwitchLeavesOthers(SwitchHead(s), x);
    }
  }

  /** Before the lists are switched, every timer left on the current list is called back exactly
      as often as its period fits into what remains of the epoch; a one-shot timer once. */
  lemma {:induction false} SwitchCallsExactly(s: Service, x: Entry)
    requires ListedOnce(s.current, x)
    ensures CallsOf(SwitchAll(s), x.timer) == CallsOf(s, x.timer) + CallsOwed(TimerOf(s, x.timer), x.expiry)
    decreases TicksLeft(s.current)
  {
    hide SwitchHead, ListedOnce, NotListed, CallsOwed;
    var timer := TimerOf(s, x.timer);
    ListedSomewhere(s.current, x);
    TailEffect(s.current, x);
    SwitchHeadProgress(s);
    if s.current[0].timer != x.timer {
      SwitchHeadOther(s, x);
      SwitchCallsExactly(SwitchHead(s), x);
    } else {
      SwitchHeadOwn(s, x);
      if !timer.autoReload {
        OwedOnce(timer, x.expiry);
        SwitchLeavesOthers(SwitchHead(s), x);
      } else {
        OneMorePeriod(timer, x.expiry);
        if x.expiry + timer.period < WRAP {
          SwitchCallsExactly(SwitchHead(s), Entry(x.timer, x.expiry + timer.period));
        }
        else { SwitchLeavesOthers(SwitchHead(s), x); }
      }
    }
  }

  lemma ListedSomewhere(list: seq<Entry>, x: Entry)
    requires ListedOnce(list, x)
    ensures list != []
  {
  }

  lemma OwedOnce(timer: Timer, e: Tick)
    requires !timer.autoReload
    ensures CallsOwed(timer, e) == 1
  {
  }
}
