/**
 * The hover debounce of the chart (`useDebounce`, LineChart.tsx:134-148, used at
 * line 188) as a small state machine over explicit times: every change of the
 * raw value cancels the pending timer and schedules a new one `DebounceDelay`
 * later; the shown value catches up only when a timer fires.
 */
module Debounce {

  import opened Wrappers

  const DebounceDelay: int := 50

  /** The latest raw value, the value on screen, and when the pending timer fires. */
  datatype Debouncer<T> = Debouncer(latest: T, shown: T, due: Option<int>)

  /** First render: both values are the initial one and the mount effect schedules a timer. */
  function Mount<T>(v: T, now: int): Debouncer<T>
  {
    Debouncer(v, v, Some(now + DebounceDelay))
  }

  /**
   * Without further changes the initial value stays on screen: the mount timer
   * only re-shows it, and once it has fired nothing is pending.
   */
  lemma MountShowsInitial<T>(v: T, now: int, t: int)
    ensures Advance(Mount(v, now), t).shown == v
    ensures Advance(Mount(v, now), t).latest == v
    ensures t >= now + DebounceDelay <==> Advance(Mount(v, now), t).due == None
  {
  }

  /**
   * A new raw value at time `now`. React re-runs the effect only when the value
   * changed: then the old timer is cleared and a new one scheduled.
   */
  function Update<T(==)>(d: Debouncer<T>, v: T, now: int): (d': Debouncer<T>)
    ensures d'.shown == d.shown
    ensures d'.latest == v
    ensures v == d.latest ==> d' == d
    ensures v != d.latest ==> d'.due == Some(now + DebounceDelay)
  {
    if v == d.latest then d else Debouncer(v, d.shown, Some(now + DebounceDelay))
  }

  /** Time reaches `now`: a due timer fires and shows the latest value. */
  function Advance<T>(d: Debouncer<T>, now: int): (d': Debouncer<T>)
    ensures d'.latest == d.latest
    ensures d.due.Some? && d.due.value <= now ==> d'.shown == d.latest && d'.due == None
    ensures !(d.due.Some? && d.due.value <= now) ==> d' == d
  {
    match d.due
    case Some(t) => if t <= now then Debouncer(d.latest, d.latest, None) else d
    case None => d
  }

  /** One raw update at a known time. */
  datatype RawEvent<T> = RawEvent(value: T, at: int)

  /** Pending timers fire as time passes to each event, then the event updates the raw value. */
  function Replay<T(==)>(d: Debouncer<T>, events: seq<RawEvent<T>>): Debouncer<T>
    decreases |events|
  {
    if |events| == 0 then d
    else Replay(Update(Advance(d, events[0].at), events[0].value, events[0].at), events[1..])
  }

  /** Each event is a change of value that arrives before the previous one's timer is due. */
  predicate IsBurst<T(==)>(events: seq<RawEvent<T>>)
  {
    forall i :: 0 < i < |events| ==>
      && events[i - 1].at <= events[i].at < events[i - 1].at + DebounceDelay
      && events[i].value != events[i - 1].value
  }

  /**
   * Rapid changes coalesce: during a burst nothing new is shown, and afterwards
   * only the burst's last value is pending, due `DebounceDelay` after it.
   */
  lemma {:induction false} BurstCoalesces<T>(d: Debouncer<T>, events: seq<RawEvent<T>>)
    requires |events| > 0 && IsBurst(events)
    requires events[0].value != d.latest
    requires d.due.Some? ==> events[0].at < d.due.value
    ensures Replay(d, events).shown == d.shown
    ensures Replay(d, events).latest == events[|events| - 1].value
    ensures Replay(d, events).due == Some(events[|events| - 1].at + DebounceDelay)
    decreases |events|
  {
    var d1 := Update(Advance(d, events[0].at), events[0].value, events[0].at);
    assert Advance(d, events[0].at) == d;
    if |events| > 1 {
      var rest := events[1..];
      assert IsBurst(rest) by {
        forall i | 0 < i < |rest|
          ensures rest[i - 1].at <= rest[i].at < rest[i - 1].at + DebounceDelay
          ensures rest[i].value != rest[i - 1].value
        {
          assert rest[i - 1] == events[i] && rest[i] == events[i + 1];
        }
      }
      assert events[1].at < events[0].at + DebounceDelay;
      BurstCoalesces(d1, rest);
    }
  }

  /** Once the pointer rests for `DebounceDelay`, the last value of the burst is shown. */
  lemma BurstSettlesOnLast<T>(d: Debouncer<T>, events: seq<RawEvent<T>>, now: int)
    requires |events| > 0 && IsBurst(events)
    requires events[0].value != d.latest
    requires d.due.Some? ==> events[0].at < d.due.value
    requires now >= events[|events| - 1].at + DebounceDelay
    ensures Advance(Replay(d, events), now).shown == events[|events| - 1].value
  {
    BurstCoalesces(d, events);
  }

  /**
   * Clearing is debounced too: after the pointer leaves (a `null` raw value)
   * the old hover stays on screen until the delay has passed.
   */
  lemma LeaveIsDelayed<H>(d: Debouncer<Option<H>>, now: int, later: int)
    requires d.latest.Some?
    requires now <= later < now + DebounceDelay
    ensures Advance(Update(d, None, now), later).shown == d.shown
    ensures Advance(Update(d, None, now), now + DebounceDelay).shown == None
  {
  }
}
