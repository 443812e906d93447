/** timers.c: the two timer lists, the command queue and what the daemon does with them. */
module TimerSpec {
  import opened Options
  import opened Ticks
  import opened ListSpec

  type TimerId = nat
  type Period = p: Tick | 0 < p witness 1

  datatype Timer = Timer(period: Period, autoReload: bool)

  datatype Entry = Entry(timer: TimerId, expiry: Tick)

  /** The messages of the command queue. Start stands for tmrCOMMAND_START, RESET, their FromISR
      forms and START_DONT_TRACE; Execute for the pended function calls. */
  datatype Command =
    | Start(timer: TimerId, value: Tick)
    | Stop(timer: TimerId)
    | ChangePeriod(timer: TimerId, period: Period)
    | Delete(timer: TimerId)
    | Execute

  /** calls counts the callbacks made so far; lastTime is xLastTime of prvSampleTimeNow. */
  datatype Service = Service(
    timers: map<TimerId, Timer>,
    current: seq<Entry>,
    overflow: seq<Entry>,
    queue: seq<Command>,
    calls: map<TimerId, nat>,
    lastTime: Tick)

  function TimerOf(s: Service, t: TimerId): Timer {
    if t in s.timers then s.timers[t] else Timer(1, false)
  }

  function CallsOf(s: Service, t: TimerId): nat {
    if t in s.calls then s.calls[t] else 0
  }

  function Call(s: Service, t: TimerId): Service {
    s.(calls := s.calls[t := CallsOf(s, t) + 1])
  }

  /** xTimerGenericCommand from the daemon itself, which never waits for room. */
  function Restart(s: Service, t: TimerId, value: Tick): Service {
    s.(queue := s.queue + [Start(t, value)])
  }

  function Expiries(list: seq<Entry>): (r: seq<Tick>)
    ensures |r| == |list|
  {
    seq(|list|, i requires 0 <= i < |list| => list[i].expiry)
  }

  /** vListInsert by expiry time. */
  function File(list: seq<Entry>, e: Entry): seq<Entry> {
    Insert(list, SortedPosition(Expiries(list), e.expiry), e)
  }

  /** uxListRemove of a timer's item, if it is on the list. */
  function Drop(list: seq<Entry>, t: TimerId): seq<Entry> {
    if list == [] then []
    else if list[0].timer == t then list[1..]
    else [list[0]] + Drop(list[1..], t)
  }

  // ----- prvInsertTimerInActiveList

  datatype Placement = ProcessNow | InCurrent | InOverflow

  function PlacementFor(next: Tick, now: Tick, commandTime: Tick, period: Period): Placement {
    if next <= now then
      if Wrapped(now - commandTime) >= period then ProcessNow else InOverflow
    else
      if now < commandTime && next >= commandTime then ProcessNow else InCurrent
  }

  function InsertTimer(s: Service, t: TimerId, next: Tick, placement: Placement): Service {
    match placement
    case ProcessNow => s
    case InOverflow => s.(overflow := File(s.overflow, Entry(t, next)))
    case InCurrent => s.(current := File(s.current, Entry(t, next)))
  }

  lemma Modulus(n: nat, m: nat)
    requires n <= m < n + WRAP
    ensures m / WRAP == n / WRAP ==> m % WRAP == n % WRAP + (m - n)
    ensures m / WRAP != n / WRAP ==> m / WRAP == n / WRAP + 1 && m % WRAP == n % WRAP + (m - n) - WRAP
  {
  }

  /** The decision, made on wrapped times only, is exact: with the command given at true time
      since and performed at now, less than one wrap later. */
  lemma PlacementExact(since: nat, now: nat, period: Period)
    requires since <= now < since + WRAP
    ensures PlacementFor((since + period) % WRAP, now % WRAP, since % WRAP, period) ==
      if now - since >= period then ProcessNow
      else if (since + period) / WRAP == now / WRAP then InCurrent
      else InOverflow
    ensures now - since < period ==> (since + period) / WRAP == now / WRAP || (since + period) / WRAP == now / WRAP + 1
  {
    Modulus(since, now);
    Modulus(since, since + period);
    if now - since < period { Modulus(now, since + period); } else { Modulus(since + period, now); }
    assert Wrapped(now % WRAP - since % WRAP) == now - since;
  }

  // ----- expired timers

  /** prvProcessExpiredTimer on the head of the current list, which expires at or before now. */
  function ProcessExpired(s: Service, now: Tick): Service
    requires s.current != []
  {
    var t, expiry := s.current[0].timer, s.current[0].expiry;
    var timer, s1 := TimerOf(s, t), s.(current := s.current[1..]);
    if timer.autoReload then
      var next := Wrapped(expiry + timer.period);
      var placement := PlacementFor(next, now, expiry, timer.period);
      var s2 := InsertTimer(s1, t, next, placement);
      Call(if placement == ProcessNow then Restart(s2, t, expiry) else s2, t)
    else Call(s1, t)
  }

  /** One turn of the loop of prvSwitchTimerLists. */
  function SwitchHead(s: Service): Service
    requires s.current != []
  {
    var t, expiry := s.current[0].timer, s.current[0].expiry;
    var timer, s1 := TimerOf(s, t), Call(s.(current := s.current[1..]), t);
    var reload := Wrapped(expiry + timer.period);
    if !timer.autoReload then s1
    else if reload > expiry then s1.(current := File(s1.current, Entry(t, reload)))
    else Restart(s1, t, expiry)
  }

  /** How far the listed expiry times are from the end of the epoch, all together. */
  function TicksLeft(list: seq<Entry>): nat {
    if list == [] then 0 else WRAP - list[0].expiry + TicksLeft(list[1..])
  }

  lemma {:induction false} TicksLeftInsert(list: seq<Entry>, p: nat, e: Entry)
    requires p <= |list|
    ensures TicksLeft(Insert(list, p, e)) == TicksLeft(list) + WRAP - e.expiry
  {
    if p == 0 {
      assert Insert(list, p, e)[1..] == list;
    } else {
      assert Insert(list, p, e)[1..] == Insert(list[1..], p - 1, e);
      TicksLeftInsert(list[1..], p - 1, e);
    }
  }

  lemma SwitchHeadProgress(s: Service)
    requires s.current != []
    ensures TicksLeft(SwitchHead(s).current) < TicksLeft(s.current)
    ensures |SwitchHead(s).current| + |SwitchHead(s).queue| <= |s.current| + |s.queue|
  {
    var rest, e := s.current[1..], s.current[0];
    var reload := Wrapped(e.expiry + TimerOf(s, e.timer).period);
    TicksLeftInsert(rest, SortedPosition(Expiries(rest), reload), Entry(e.timer, reload));
  }

  function Swap(s: Service): Service {
    s.(current := s.overflow, overflow := s.current)
  }

  /** prvSwitchTimerLists. It ends because timers only come back with later expiry times. */
  function SwitchAll(s: Service): Service
    decreases TicksLeft(s.current)
  {
    if s.current == [] then Swap(s)
    else
      SwitchHeadProgress(s);
      SwitchAll(SwitchHead(s))
  }

  /** prvSampleTimeNow: the flag says whether the lists were switched. */
  function SampleTime(s: Service, now: Tick): (Service, bool) {
    if now < s.lastTime then (SwitchAll(s).(lastTime := now), true) else (s.(lastTime := now), false)
  }

  /** prvGetNextExpireTime: 0 for an empty list, so that the daemon wakes when the clock wraps. */
  function NextExpireTime(s: Service): Tick {
    if s.current == [] then 0 else s.current[0].expiry
  }

  predicate HeadExpired(s: Service, now: Tick) {
    s.current != [] && s.current[0].expiry <= now
  }

  /** prvProcessTimerOrBlockTask: the lists afterwards, and for how long the daemon blocks if it
      does; without any timer it blocks until a command arrives. */
  function ProcessOrBlock(s: Service, now: Tick): (Service, Option<Tick>) {
    var (s1, switched) := SampleTime(s, now);
    if switched then (s1, None)
    else if HeadExpired(s1, now) then (ProcessExpired(s1, now), None)
    else (s1, Some(if s1.current == [] && s1.overflow == [] then MAX_DELAY else Wrapped(NextExpireTime(s1) - now)))
  }

  /** What prvProcessReceivedCommands does with a message once it has the time. */
  function Perform(s: Service, c: Command, now: Tick): Service {
    match c
    case Start(t, value) =>
      var timer := TimerOf(s, t);
      var next := Wrapped(value + timer.period);
      var placement := PlacementFor(next, now, value, timer.period);
      var s1 := InsertTimer(s, t, next, placement);
      if placement != ProcessNow then s1
      else if timer.autoReload then Restart(Call(s1, t), t, next)
      else Call(s1, t)
    case ChangePeriod(t, period) =>
      var s1 := s.(timers := s.timers[t := TimerOf(s, t).(period := period)]);
      var next := Wrapped(now + period);
      InsertTimer(s1, t, next, PlacementFor(next, now, now, period))
    case _ => s
  }

  /** Taking the oldest message and the timer it names off its list. */
  function Received(s: Service): Service
    requires s.queue != []
  {
    var s1 := s.(queue := s.queue[1..]);
    if s.queue[0].Execute? then s1
    else s1.(current := Drop(s1.current, s.queue[0].timer), overflow := Drop(s1.overflow, s.queue[0].timer))
  }

  /** One turn of prvProcessReceivedCommands. Pended calls do not read the clock. */
  function ProcessCommand(s: Service, now: Tick): Service
    requires s.queue != []
  {
    if s.queue[0].Execute? then Received(s) else Perform(SampleTime(Received(s), now).0, s.queue[0], now)
  }
}
