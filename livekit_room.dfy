/**
 * The media room's own bookkeeping around the media server: the bounded
 * activity feed, the elapsed-time display and its interval, and the single
 * performance monitor. Interval handles are numbers the model hands out;
 * clock readings are parameters in milliseconds.
 */
module LiveKitRoom {
  import opened Wrappers
  import opened JsText
  import opened ClockText
  import opened Buffers

  /** The feed keeps the newest 50 items. */
  const MaxActivities: nat := 50

  const MsPerHour: int := 3600000
  const MsPerMinute: int := 60000
  const MsPerSecond: int := 1000

  datatype ActivityKind = Join | Leave | Comment | Gift | Welcome

  datatype ActivityData = ActivityData(username: Option<string>, message: Option<string>, giftName: Option<string>)

  /** A feed item; `timeString` is the locale's rendering of `timestamp`, given by the caller. */
  datatype Activity = Activity(kind: ActivityKind, data: ActivityData, timestamp: int, timeString: string)

  /** The icon the feed shows for each kind of item. */
  function ActivityIcon(kind: ActivityKind): string {
    match kind
    case Join => "\U{1F44B}"
    case Leave => "\U{1F6AA}"
    case Comment => "\U{1F4AC}"
    case Gift => "\U{1F381}"
    case Welcome => "\U{1F389}"
  }

  /** Each kind of item has an icon of its own. */
  lemma IconsDistinct(a: ActivityKind, b: ActivityKind)
    ensures a != b ==> ActivityIcon(a) != ActivityIcon(b)
  {
  }

  datatype TimerParts = TimerParts(hours: int, minutes: int, seconds: int)

  /** The split `updateTimer` makes of the milliseconds since the start. */
  function TimerSplit(diff: int): (t: TimerParts)
    ensures diff >= 0 ==> t.hours >= 0 && 0 <= t.minutes < 60 && 0 <= t.seconds < 60
    ensures diff >= 0 ==> t.hours * 3600 + t.minutes * 60 + t.seconds == diff / MsPerSecond
  {
    var t := TimerParts(FloorDiv(diff, MsPerHour), FloorDiv(JsRem(diff, MsPerHour), MsPerMinute),
                        FloorDiv(JsRem(diff, MsPerMinute), MsPerSecond));
    if diff >= 0 then WholeSeconds(diff); HoursSplit(diff / MsPerSecond); t else t
  }

  /** Splitting the milliseconds agrees with splitting the whole seconds they hold. */
  lemma WholeSeconds(diff: nat)
    ensures var t := diff / 1000;
            && diff / 3600000 == t / 3600
            && diff % 3600000 / 60000 == t % 3600 / 60
            && diff % 60000 / 1000 == t % 60
  {
    var t, u := diff / 1000, diff % 1000;
    var h, q := t / 3600, t % 3600;
    var m, r := q / 60, q % 60;
    HoursSplit(t);
    assert diff == 3600000 * h + (1000 * q + u);
    DivUnique(diff, h, 1000 * q + u, 3600000);
    assert 1000 * q + u == 60000 * m + (1000 * r + u);
    DivUnique(1000 * q + u, m, 1000 * r + u, 60000);
    assert diff == 60000 * (60 * h + m) + (1000 * r + u);
    DivUnique(diff, 60 * h + m, 1000 * r + u, 60000);
    DivUnique(1000 * r + u, r, u, 1000);
  }

  /** Division with remainder is unique, for the three divisors the timer uses. */
  lemma DivUnique(s: int, k: int, q: int, m: int)
    requires m == 1000 || m == 60000 || m == 3600000
    requires 0 <= q < m && s == m * k + q
    ensures s / m == k && s % m == q
  {
    if m == 1000 {
      assert s == 1000 * k + q;
    } else if m == 60000 {
      assert s == 60000 * k + q;
    } else {
      assert s == 3600000 * k + q;
    }
  }

  /** The timer's text: always `HH:MM:SS`. */
  function TimerText(diff: int): string {
    var t := TimerSplit(diff);
    Clock3(t.hours, t.minutes, t.seconds)
  }

  /** The display reads back as the whole seconds elapsed, in exactly three fields of at least two digits. */
  lemma TimerRoundTrip(diff: nat)
    ensures ParseClock(TimerText(diff)) == diff / MsPerSecond
    ensures |Split(TimerText(diff), ':')| == 3
    ensures forall p :: p in Split(TimerText(diff), ':') ==> |p| >= 2 && AllDigits(p)
  {
    var t := TimerSplit(diff);
    ClockRoundTrip3(t.hours, t.minutes, t.seconds);
  }

  /** The text a stopped timer shows is the one a timer shows at its start. */
  lemma StoppedDisplay()
    ensures TimerText(0) == "00:00:00"
  {
    assert TimerSplit(0) == TimerParts(0, 0, 0);
  }

  /** The room component's state besides the media connection itself. */
  class MediaRoom {
    var activities: seq<Activity>
    var streamTimer: string
    /** `timerRef`: the interval the timer controls last started. */
    var timerRef: Option<nat>
    /** Every timer interval still running, with the start time it measures from. */
    var timers: map<nat, int>
    /** `performanceMonitor`: the monitor interval, if any. */
    var performanceMonitor: Option<nat>
    /** Every monitor interval still running. */
    var monitors: set<nat>
    var nextHandle: nat

    predicate Valid()
      reads this
    {
      && |activities| <= MaxActivities
      && (timerRef.Some? ==> timerRef.value in timers)
      && monitors == (if performanceMonitor.Some? then {performanceMonitor.value} else {})
      && (forall h :: h in timers ==> h < nextHandle)
      && (forall h :: h in monitors ==> h < nextHandle)
    }

    /** There is never more than one performance monitor running. */
    lemma AtMostOneMonitor()
      requires Valid()
      ensures |monitors| <= 1
    {
    }

    constructor ()
      ensures Valid()
      ensures activities == [] && streamTimer == "00:00:00" && timerRef == None && timers == map[]
      ensures performanceMonitor == None && monitors == {}
    {
      activities := [];
      streamTimer := "00:00:00";
      timerRef := None;
      timers := map[];
      performanceMonitor := None;
      monitors := {};
      nextHandle := 0;
    }

    /** `addActivity`: the new item goes in front, and only the newest 50 are kept. */
    method AddActivity(kind: ActivityKind, data: ActivityData, now: int, timeString: string)
      requires Valid()
      modifies this
      ensures Valid()
      ensures activities == KeepFirst([Activity(kind, data, now, timeString)] + old(activities), MaxActivities)
      ensures activities[0] == Activity(kind, data, now, timeString)
      ensures |activities| == Min(|old(activities)| + 1, MaxActivities)
      ensures IsPrefix(activities[1..], old(activities))
      ensures streamTimer == old(streamTimer) && timerRef == old(timerRef) && timers == old(timers)
      ensures performanceMonitor == old(performanceMonitor) && monitors == old(monitors)
      ensures nextHandle == old(nextHandle)
    {
      var activity := Activity(kind, data, now, timeString);
      PrependBounded(activities, activity, MaxActivities);
      activities := KeepFirst([activity] + activities, MaxActivities);
    }

    /**
     * `startTimer`: a new interval measuring from `now`, and the display is
     * brought up to date at once. An interval started before keeps running.
     */
    method StartTimer(now: int) returns (handle: nat)
      requires Valid()
      modifies this
      ensures Valid()
      ensures handle !in old(timers) && timers == old(timers)[handle := now] && timerRef == Some(handle)
      ensures streamTimer == TimerText(0)
      ensures activities == old(activities) && performanceMonitor == old(performanceMonitor)
      ensures monitors == old(monitors)
    {
      handle := nextHandle;
      nextHandle := nextHandle + 1;
      timers := timers[handle := now];
      timerRef := Some(handle);
      streamTimer := TimerText(0);
    }

    /** One firing of a running timer interval: the display shows the time since that interval's start. */
    method TimerTick(handle: nat, now: int)
      requires Valid() && handle in timers
      modifies this
      ensures Valid()
      ensures streamTimer == TimerText(now - old(timers)[handle])
      ensures activities == old(activities) && timerRef == old(timerRef) && timers == old(timers)
      ensures performanceMonitor == old(performanceMonitor) && monitors == old(monitors)
      ensures nextHandle == old(nextHandle)
    {
      streamTimer := TimerText(now - timers[handle]);
    }

    /** `stopTimer`: the controlled interval, if any, is cleared, and the display goes back to zero. */
    method StopTimer()
      requires Valid()
      modifies this
      ensures Valid()
      ensures timerRef == None && streamTimer == "00:00:00"
      ensures timers == if old(timerRef).Some? then old(timers) - {old(timerRef).value} else old(timers)
      ensures activities == old(activities) && performanceMonitor == old(performanceMonitor)
      ensures monitors == old(monitors) && nextHandle == old(nextHandle)
    {
      if timerRef.Some? {
        timers := timers - {timerRef.value};
        timerRef := None;
      }
      streamTimer := "00:00:00";
    }

    /** `startPerformanceMonitoring`: nothing happens while a monitor exists. */
    method StartPerformanceMonitoring()
      requires Valid()
      modifies this
      ensures Valid()
      ensures old(performanceMonitor).Some? ==> unchanged(this)
      ensures old(performanceMonitor).None? ==>
                performanceMonitor.Some? && performanceMonitor.value !in old(monitors) &&
                monitors == {performanceMonitor.value}
      ensures activities == old(activities) && streamTimer == old(streamTimer)
      ensures timerRef == old(timerRef) && timers == old(timers)
    {
      if performanceMonitor.Some? {
        return;
      }
      var monitor := nextHandle;
      nextHandle := nextHandle + 1;
      monitors := monitors + {monitor};
      performanceMonitor := Some(monitor);
    }

    /** `stopPerformanceMonitoring`: the monitor, if any, is cleared. */
    method StopPerformanceMonitoring()
      requires Valid()
      modifies this
      ensures Valid()
      ensures performanceMonitor == None && monitors == {}
      ensures activities == old(activities) && streamTimer == old(streamTimer)
      ensures timerRef == old(timerRef) && timers == old(timers) && nextHandle == old(nextHandle)
    {
      if performanceMonitor.Some? {
        monitors := monitors - {performanceMonitor.value};
        performanceMonitor := None;
      }
    }
  }
}
