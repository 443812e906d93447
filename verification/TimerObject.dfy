/** timers.c: the daemon's static variables as the fields of one object. */
module TimerObject {
  import opened Options
  import opened Ticks
  import opened ListSpec
  import opened TimerSpec

  class TimerDaemon {
    const queueLength: nat
    var timers: map<TimerId, Timer>
    var currentList: seq<Entry>
    var overflowList: seq<Entry>
    var queue: seq<Command>
    var calls: map<TimerId, nat>
    var lastTime: Tick

    constructor (length: nat)
      ensures queueLength == length && View() == Service(map[], [], [], [], map[], 0)
    {
      queueLength := length;
      timers, currentList, overflowList, queue, calls, lastTime := map[], [], [], [], map[], 0;
    }

    ghost function View(): Service
      reads this
    {
      Service(timers, currentList, overflowList, queue, calls, lastTime)
    }

    function Find(t: TimerId): (timer: Timer)
      reads this
      ensures timer == TimerOf(View(), t)
    {
      if t in timers then timers[t] else Timer(1, false)
    }

    method RunCallback(t: TimerId)
      modifies this`calls
      ensures View() == Call(old(View()), t)
    {
      calls := calls[t := (if t in calls then calls[t] else 0) + 1];
    }

    /** xTimerGenericCommand: false when the queue is full. */
    method SendCommand(c: Command) returns (sent: bool)
      modifies this`queue
      ensures sent <==> |old(queue)| < queueLength
      ensures View() == if sent then old(View()).(queue := old(queue) + [c]) else old(View())
    {
      sent := |queue| < queueLength;
      if sent { queue := queue + [c]; }
    }

    /** The walk of vListInsert over a timer list. */
    method FilePosition(list: seq<Entry>, expiry: Tick) returns (p: nat)
      ensures p == SortedPosition(Expiries(list), expiry)
    {
      if expiry == MAX_DELAY { return |list|; }
      p := 0;
      while p < |list| && list[p].expiry <= expiry
        invariant p <= |list| && forall k :: 0 <= k < p ==> Expiries(list)[k] <= expiry
      {
        p := p + 1;
      }
      SortedPositionUnique(Expiries(list), expiry, p);
    }

    /** prvInsertTimerInActiveList. */
    method InsertTimerInActiveList(t: TimerId, next: Tick, now: Tick, commandTime: Tick) returns (processNow: bool)
      modifies this`currentList, this`overflowList
      ensures var placement := PlacementFor(next, now, commandTime, old(Find(t)).period);
        View() == InsertTimer(old(View()), t, next, placement) && (processNow <==> placement == ProcessNow)
    {
      processNow := false;
      if next <= now {
        if Wrapped(now - commandTime) >= Find(t).period {
          processNow := true;
        } else {
          var p := FilePosition(overflowList, next);
          overflowList := Insert(overflowList, p, Entry(t, next));
        }
      } else if now < commandTime && next >= commandTime {
        processNow := true;
      } else {
        var p := FilePosition(currentList, next);
        currentList := Insert(currentList, p, Entry(t, next));
      }
    }

    /** prvProcessExpiredTimer; the room its configASSERT wants is the precondition. */
    method ProcessExpiredTimer(nextExpireTime: Tick, now: Tick)
      requires currentList != [] && nextExpireTime == currentList[0].expiry && |queue| < queueLength
      modifies this
      ensures View() == ProcessExpired(old(View()), now)
    {
      hide PlacementFor, File;
      var t := currentList[0].timer;
      currentList := currentList[1..];
      if Find(t).autoReload {
        var processNow := InsertTimerInActiveList(t, Wrapped(nextExpireTime + Find(t).period), now, nextExpireTime);
        if processNow {
          var sent := SendCommand(Start(t, nextExpireTime));
        }
      }
      RunCallback(t);
    }

    /** The body of the loop of prvSwitchTimerLists. */
    method ExpireHead()
      requires currentList != [] && |queue| < queueLength
      modifies this`currentList, this`calls, this`queue
      ensures View() == SwitchHead(old(View()))
    {
      hide Insert, SortedPosition;
      var nextExpireTime, t := currentList[0].expiry, currentList[0].timer;
      currentList := currentList[1..];
      RunCallback(t);
      if Find(t).autoReload {
        var reloadTime := Wrapped(nextExpireTime + Find(t).period);
        if reloadTime > nextExpireTime {
          var p := FilePosition(currentList, reloadTime);
          currentList := Insert(currentList, p, Entry(t, reloadTime));
        } else {
          var sent := SendCommand(Start(t, nextExpireTime));
        }
      }
    }

    /** prvSwitchTimerLists. Each listed timer sends at most one command, so room for as many
        keeps the configASSERT. */
    method SwitchTimerLists()
      requires |queue| + |currentList| <= queueLength
      modifies this
      ensures View() == SwitchAll(old(View()))
    {
      hide SwitchHead;
      while currentList != []
        invariant SwitchAll(View()) == SwitchAll(old(View()))
        invariant |queue| + |currentList| <= queueLength
        decreases TicksLeft(currentList)
      {
        SwitchHeadProgress(View());
        ExpireHead();
      }
      var temp := currentList;
      currentList := overflowList;
      overflowList := temp;
    }

    /** prvSampleTimeNow. */
    method SampleTimeNow(tickCount: Tick) returns (switched: bool)
      requires |queue| + |currentList| <= queueLength
      modifies this
      ensures (View(), switched) == SampleTime(old(View()), tickCount)
    {
      if tickCount < lastTime {
        SwitchTimerLists();
        switched := true;
      } else {
        switched := false;
      }
      lastTime := tickCount;
    }

    /** prvProcessTimerOrBlockTask, given what prvGetNextExpireTime found: the ticks to block for. */
    method ProcessTimerOrBlockTask(nextExpireTime: Tick, listWasEmpty: bool,
                                   tickCount: Tick) returns (block: Option<Tick>)
      requires nextExpireTime == NextExpireTime(View()) && listWasEmpty == (currentList == [])
      requires |queue| + |currentList| <= queueLength && |queue| < queueLength
      modifies this
      ensures (View(), block) == ProcessOrBlock(old(View()), tickCount)
    {
      hide SwitchAll, ProcessExpired, TicksLeft;
      block := None;
      var switched := SampleTimeNow(tickCount);
      if !switched {
        if !listWasEmpty && nextExpireTime <= tickCount {
          ProcessExpiredTimer(nextExpireTime, tickCount);
        } else {
          var indefinitely := listWasEmpty;
          if listWasEmpty { indefinitely := overflowList == []; }
          block := Some(if indefinitely then MAX_DELAY else Wrapped(nextExpireTime - tickCount));
        }
      }
    }

    /** The switch statement of prvProcessReceivedCommands. */
    method PerformCommand(message: Command, now: Tick)
      requires |queue| < queueLength
      modifies this
      ensures View() == Perform(old(View()), message, now)
    {
      hide PlacementFor, File;
      match message
      case Start(t, value) =>
        var processNow := InsertTimerInActiveList(t, Wrapped(value + Find(t).period), now, value);
        if processNow {
          RunCallback(t);
          if Find(t).autoReload {
            var sent := SendCommand(Start(t, Wrapped(value + Find(t).period)));
          }
        }
      case ChangePeriod(t, period) =>
        timers := timers[t := Find(t).(period := period)];
        var processNow := InsertTimerInActiveList(t, Wrapped(now + period), now, now);
      case _ =>
    }

    /** One turn of prvProcessReceivedCommands, on the oldest message. */
    method ProcessReceivedCommand(tickCount: Tick)
      requires queue != [] && |queue| + |currentList| <= queueLength
      modifies this
      ensures View() == ProcessCommand(old(View()), tickCount)
    {
      hide SwitchAll, Perform, TicksLeft;
      ghost var before := View();
      var message := queue[0];
      DropShortens(currentList, if message.Execute? then 0 else message.timer);
      SwitchLeavesRoom(Received(before));
      queue := queue[1..];
      if message.Execute? { return; }
      currentList := Drop(currentList, message.timer);
      overflowList := Drop(overflowList, message.timer);
      var switched := SampleTimeNow(tickCount);
      PerformCommand(message, tickCount);
    }
  }

  lemma {:induction false} DropShortens(list: seq<Entry>, t: TimerId)
    ensures |Drop(list, t)| <= |list|
  {
    if list != [] && list[0].timer != t { DropShortens(list[1..], t); }
  }

  lemma {:induction false} SwitchLeavesRoom(s: Service)
    ensures |SwitchAll(s).queue| <= |s.queue| + |s.current|
    decreases TicksLeft(s.current)
  {
    if s.current != [] {
      SwitchHeadProgress(s);
      hide SwitchHead;
      SwitchLeavesRoom(SwitchHead(s));
    }
  }
}
