/**
  Every run of the clock and the timer queue together: clock ticks, timers set
  and cancelled by the program and by callbacks, timer interrupts, the stamp
  being renewed by a timer of that same queue, and a reader of the clock that
  may be interrupted between its two reads.

  The clock is right only while the stamp is renewed in time, and the queue
  fires in time only while the clock is right, so one invariant covers both.
*/
module TimerSystem {
  import opened Options
  import opened Clock
  import opened TimerQueue
  import opened Words

  const STAMP := 0                // the identity of time_stamp_timer

  /** `v0`: the counter at true time 0. `k`: the 32-bit time at true time 0.
      `latency`: ticks from raising a timer interrupt to the end of its handler.
      `gap`: ticks between the two reads of one call to time_now. */
  datatype Params = Params(v0: int, k: int, latency: nat, gap: nat)

  ghost predicate Sane(p: Params) {
    && STAMP_PERIOD + p.latency + p.gap < TWO24
    && (p.k + p.v0 + 1) % TWO24 == 0
  }

  /** What the stamp callback has done so far. */
  datatype Callback = Nothing | StampDue | StampTaken(deadline: u32)

  /** A call to time_now that has read the stamp, at time `at`. */
  datatype Reader = Reader(stamp: u32, takenAt: int, at: int)

  datatype Machine = Machine(
    now: int,               // true time
    stamp: u32,             // time_stamp
    queue: seq<Entry<int>>,
    armed: Option<int>,     // when the running hardware timer will overflow
    raised: Option<int>,    // when the pending interrupt was raised
    handler: Option<int>,   // when the interrupt being handled was raised
    callback: Callback,
    reader: Option<Reader>,
    stampAt: int,           // history: when the stamp was taken,
    due: map<int, int>,     // the true time of each deadline,
    setAt: map<int, int>,   // when each timer was last set,
    lastSet: int)           // and when the program last called timer_set

  datatype Event =
    | Tick
    | Set(timer: int, deadline: u32)
    | Cancel(timer: int)
    | EnterHandler
    | Expire
    | StampUpdate
    | StampSet
    | LeaveHandler
    | ReadStamp
    | ReadCounter

  function Now(p: Params, s: Machine): u32 { TimeNowFrom(s.stamp, SysTick(p.v0, s.now)) }

  function Delta(p: Params, s: Machine, deadline: u32): int { TimeDiff(Now(p, s), deadline) }

  ghost predicate Enabled(p: Params, s: Machine, e: Event) {
    match e
    case Tick =>
      && (s.raised.Some? ==> s.now < s.raised.value + p.latency)
      && (s.handler.Some? ==> s.now < s.handler.value + p.latency)
      && (s.reader.Some? ==> s.now < s.reader.value.at + p.gap)
    case Set(t, d) =>
      // two calls by the program are at least two ticks (16 clocks) apart
      && t != STAMP && s.callback.Nothing?
      && (s.handler.None? ==> s.lastSet + 2 <= s.now)
      && p.latency + 3 - TWO31 <= Delta(p, s, d)
    case Cancel(t) => t != STAMP && s.callback.Nothing?
    case EnterHandler => s.raised.Some? && s.handler.None?
    case Expire =>
      && s.handler.Some? && s.callback.Nothing?
      && s.queue != [] && Delta(p, s, s.queue[0].deadline) <= SLACK_TICKS
    case StampUpdate => s.callback.StampDue?
    case StampSet => s.callback.StampTaken?
    case LeaveHandler =>
      && s.handler.Some? && s.callback.Nothing?
      && (s.queue != [] ==> SLACK_TICKS < Delta(p, s, s.queue[0].deadline))
    case ReadStamp => s.reader.None? && s.handler.None?
    case ReadCounter => s.reader.Some? && s.handler.None?
  }

  /** timer_set */
  function SetTimer(p: Params, s: Machine, t: int, d: u32): Machine {
    var q := Insert(Remove(s.queue, t), Entry(t, d), Now(p, s));
    s.(queue := q,
       armed := if q[0].timer == t then Some(s.now + Interval(Delta(p, s, d))) else s.armed,
       due := s.due[t := s.now + Delta(p, s, d)],
       setAt := s.setAt[t := s.now])
  }

  ghost function Apply(p: Params, s: Machine, e: Event): Machine
    requires Enabled(p, s, e)
  {
    match e
    case Tick =>
      if s.armed == Some(s.now + 1) then
        s.(now := s.now + 1, armed := None, raised := if s.raised.None? then Some(s.now + 1) else s.raised)
      else s.(now := s.now + 1)
    case Set(t, d) =>
      SetTimer(p, s, t, d).(lastSet := if s.handler.None? then s.now else s.lastSet)
    case Cancel(t) => s.(queue := Remove(s.queue, t))
    case EnterHandler => s.(handler := s.raised, raised := None)
    case Expire =>
      s.(queue := s.queue[1..], callback := if s.queue[0].timer == STAMP then StampDue else Nothing)
    case StampUpdate =>
      s.(stamp := Complement(Now(p, s)), stampAt := s.now,
         callback := StampTaken(Wrap(Now(p, s) + STAMP_PERIOD)))
    case StampSet => SetTimer(p, s, STAMP, s.callback.deadline).(callback := Nothing)
    case LeaveHandler =>
      s.(handler := None,
         armed := if s.queue == [] then s.armed
                  else Some(s.now + Interval(Delta(p, s, s.queue[0].deadline))))
    case ReadStamp => s.(reader := Some(Reader(s.stamp, s.stampAt, s.now)))
    case ReadCounter => s.(reader := None)
  }

  /** The machine as time_init leaves it, at true time `t0`. */
  ghost predicate Initial(p: Params, s: Machine) {
    var stamp: u32 := SysTick(p.v0, s.now);
    var q := [Entry(STAMP, Wrap(Complement(stamp) + STAMP_PERIOD))];
    && p.k == Complement(stamp) - s.now
    && s == Machine(s.now, stamp, q, Some(s.now + Interval(STAMP_PERIOD)), None, None, Nothing, None,
                    s.now, map[STAMP := s.now + STAMP_PERIOD], map[STAMP := s.now], s.now - 2)
  }

  ghost predicate Run(p: Params, s: Machine, events: seq<Event>)
    decreases |events|
  {
    events != [] ==> Enabled(p, s, events[0]) && Run(p, Apply(p, s, events[0]), events[1..])
  }

  ghost function Final(p: Params, s: Machine, events: seq<Event>): Machine
    requires Run(p, s, events)
    decreases |events|
  {
    if events == [] then s else Final(p, Apply(p, s, events[0]), events[1..])
  }

  // -- The invariant ----------------------------------------------------------

  function At(m: map<int, int>, t: int): int { if t in m then m[t] else 0 }

  function Due(s: Machine, e: Entry<int>): int { At(s.due, e.timer) }

  /** The true time by which an interrupt must be raised for a queued timer. */
  function Limit(s: Machine, e: Entry<int>): int {
    var set2 := At(s.setAt, e.timer) + 2;
    if e.timer == STAMP || set2 <= Due(s, e) then Due(s, e) else set2
  }

  ghost predicate ClockInv(p: Params, s: Machine) {
    && s.stamp == Complement(Wrap(s.stampAt + p.k))
    && s.stampAt <= s.now
  }

  ghost predicate EntryInv(p: Params, s: Machine, e: Entry<int>) {
    && e.deadline == Wrap(Due(s, e) + p.k)
    && At(s.setAt, e.timer) <= s.now
    && At(s.setAt, e.timer) + p.latency + 3 - TWO31 <= Due(s, e) < s.now + TWO31
  }

  ghost predicate DueOrder(s: Machine) {
    forall i, j :: 0 <= i < j < |s.queue| ==> Due(s, s.queue[i]) <= Due(s, s.queue[j])
  }

  ghost predicate QueueInv(p: Params, s: Machine) {
    && NoTimerTwice(s.queue)
    && (forall e :: e in s.queue ==> EntryInv(p, s, e))
    && DueOrder(s)
  }

  /** An interrupt raised at time `at` is early enough for every queued timer. */
  ghost predicate InTime(s: Machine, at: int) {
    forall e :: e in s.queue ==> at <= Limit(s, e)
  }

  ghost predicate FiringInv(p: Params, s: Machine) {
    && s.lastSet <= s.now
    && (s.armed.Some? ==> s.now < s.armed.value)
    && (s.raised.Some? ==> s.raised.value <= s.now <= s.raised.value + p.latency)
    && (s.handler.Some? ==>
          && s.handler.value <= s.now <= s.handler.value + p.latency
          && InTime(s, s.handler.value))
    && (s.handler.None? && s.raised.Some? ==> InTime(s, s.raised.value))
    && (s.handler.None? && s.raised.None? && s.queue != [] ==>
          && s.armed.Some?
          && InTime(s, s.armed.value)
          && (s.armed.value <= Due(s, s.queue[0]) - 11 || s.armed.value <= s.lastSet + 2))
  }

  ghost predicate StampInv(p: Params, s: Machine) {
    match s.callback
    case Nothing =>
      && At(s.due, STAMP) == s.stampAt + STAMP_PERIOD
      && Entry(STAMP, Wrap(s.stampAt + STAMP_PERIOD + p.k)) in s.queue
    case StampDue => s.handler.Some? && s.handler.value <= s.stampAt + STAMP_PERIOD
    case StampTaken(d) =>
      s.handler.Some? && s.handler.value <= s.stampAt && d == Wrap(s.stampAt + STAMP_PERIOD + p.k)
  }

  ghost predicate ReaderInv(p: Params, s: Machine) {
    s.reader.Some? ==>
      var r := s.reader.value;
      && r.stamp == Complement(Wrap(r.takenAt + p.k))
      && r.takenAt <= r.at <= s.now <= r.at + p.gap
      && r.at <= r.takenAt + STAMP_PERIOD + p.latency
  }

  ghost predicate Inv(p: Params, s: Machine) {
    ClockInv(p, s) && QueueInv(p, s) && FiringInv(p, s) && StampInv(p, s) && ReaderInv(p, s)
  }

  // -- Consequences -----------------------------------------------------------

  /** A stamp of the right time has the low bits of the counter. */
  lemma StampAligned(p: Params, takenAt: int)
    requires Sane(p)
    ensures Complement(Wrap(takenAt + p.k)) % TWO24 == SysTick(p.v0, takenAt)
  {
    StampLow(takenAt + p.k);
    var turns := (p.k + p.v0 + 1) / TWO24;
    assert -1 - (takenAt + p.k) == p.v0 - takenAt + -turns * TWO24;
    TurnsLow(p.v0 - takenAt, -turns);
  }

  /** A clock read from a stamp less than one counter turn old is exact. */
  lemma ReadExact(p: Params, stamp: u32, takenAt: int, now: int)
    requires Sane(p)
    requires stamp == Complement(Wrap(takenAt + p.k))
    requires takenAt <= now < takenAt + TWO24
    ensures TimeNowFrom(stamp, SysTick(p.v0, now)) == Wrap(now + p.k)
  {
    StampAligned(p, takenAt);
    TimeNowLag(p.v0, stamp, takenAt, now);
    assert Complement(stamp) == Wrap(takenAt + p.k);
    hide Sane, TimeNowFrom, SysTick, Complement, Wrap;
    WrapAdd(takenAt + p.k, now - takenAt);
  }

  /** Each queued timer is served at most `latency` ticks after its limit. */
  lemma Timely(p: Params, s: Machine)
    requires FiringInv(p, s)
    ensures forall e :: e in s.queue ==> s.now <= Limit(s, e) + p.latency
  {
  }

  lemma StampYoung(p: Params, s: Machine)
    requires Inv(p, s)
    ensures s.now <= s.stampAt + STAMP_PERIOD + p.latency
  {
    Timely(p, s);
  }

  lemma NowExact(p: Params, s: Machine)
    requires Sane(p) && Inv(p, s)
    ensures Now(p, s) == Wrap(s.now + p.k)
  {
    StampYoung(p, s);
    ReadExact(p, s.stamp, s.stampAt, s.now);
  }

  /** Wrapped distances to the queued deadlines are the true ones. */
  lemma DeltasExact(p: Params, s: Machine)
    requires Sane(p) && Inv(p, s)
    ensures forall e :: e in s.queue ==> Delta(p, s, e.deadline) == Due(s, e) - s.now
    ensures SortedAt(s.queue, Now(p, s))
  {
    NowExact(p, s);
    Timely(p, s);
    forall e | e in s.queue
      ensures Delta(p, s, e.deadline) == Due(s, e) - s.now
    {
      assert EntryInv(p, s, e);
      TimeDiffExact(p.k, s.now, Due(s, e));
    }
  }

  // -- Preservation -----------------------------------------------------------

  lemma InitialInv(p: Params, s: Machine)
    requires Initial(p, s) && STAMP_PERIOD + p.latency + p.gap < TWO24
    ensures Sane(p) && Inv(p, s)
  {
    IntervalBounds(STAMP_PERIOD);
    WrapAdd(s.now + p.k, STAMP_PERIOD);
    assert Entry(STAMP, Wrap(s.stampAt + STAMP_PERIOD + p.k)) == s.queue[0];
  }

  /** The queue part survives whenever time passes and entries may be dropped. */
  lemma QueueKept(p: Params, s: Machine, s': Machine)
    requires QueueInv(p, s)
    requires s'.due == s.due && s'.setAt == s.setAt && s.now <= s'.now
    requires forall e :: e in s'.queue ==> e in s.queue
    requires s'.queue == s.queue || (NoTimerTwice(s'.queue) && DueOrder(s'))
    ensures QueueInv(p, s')
  {
    hide TimeDiff, TimeNowFrom, Wrap, Complement, SysTick;
    forall e | e in s'.queue
      ensures EntryInv(p, s', e)
    {
      assert EntryInv(p, s, e);
    }
  }

  lemma TickInv(p: Params, s: Machine)
    requires Inv(p, s) && Enabled(p, s, Tick)
    ensures Inv(p, Apply(p, s, Tick))
  {
    hide TimeDiff, TimeNowFrom, Wrap, Complement, SysTick;
    var s' := Apply(p, s, Tick);
    QueueKept(p, s, s');
    assert FiringInv(p, s') by {
      assert forall at :: InTime(s, at) ==> InTime(s', at);
    }
  }

  lemma SortedByDue(s: Machine, now: u32)
    requires SortedAt(s.queue, now)
    requires forall x :: x in s.queue ==> TimeDiff(now, x.deadline) == Due(s, x) - s.now
    ensures DueOrder(s)
  {
    forall i, j | 0 <= i < j < |s.queue|
      ensures Due(s, s.queue[i]) <= Due(s, s.queue[j])
    {
      assert s.queue[i] in s.queue && s.queue[j] in s.queue;
    }
  }

  /** What is in the queue once a timer is set, in wrap-around order. */
  lemma SetContents(p: Params, s: Machine, t: int, d: u32)
    requires Sane(p) && Inv(p, s)
    ensures var q := SetTimer(p, s, t, d).queue;
            && NoTimerTwice(q) && SortedAt(q, Now(p, s))
            && (forall e :: e in q <==> e == Entry(t, d) || (e in s.queue && e.timer != t))
  {
    hide TimeDiff, TimeNowFrom, Wrap, Complement, SysTick;
    var now := Now(p, s);
    DeltasExact(p, s);
    RemoveMembers(s.queue, t);
    RemovePreserves(s.queue, t, now);
    InsertMembers(Remove(s.queue, t), Entry(t, d), now);
    InsertPreserves(Remove(s.queue, t), Entry(t, d), now);
  }

  lemma TrueDeadline(p: Params, s: Machine, d: u32)
    requires Sane(p) && Inv(p, s)
    ensures d == Wrap(s.now + p.k + Delta(p, s, d))
  {
    NowExact(p, s);
    TimeDiffInverse(Now(p, s), d);
    WrapAdd(s.now + p.k, Delta(p, s, d));
  }

  /** Setting a timer keeps the queue in order of true deadlines. */
  lemma SetQueue(p: Params, s: Machine, t: int, d: u32)
    requires Sane(p) && Inv(p, s)
    requires p.latency + 3 - TWO31 <= Delta(p, s, d)
    ensures QueueInv(p, SetTimer(p, s, t, d))
  {
    var s' := SetTimer(p, s, t, d);
    SetContents(p, s, t, d);
    assert EntryInv(p, s', Entry(t, d)) by {
      TrueDeadline(p, s, d);
      assert Due(s', Entry(t, d)) + p.k == s.now + p.k + Delta(p, s, d);
    }
    OthersKept(p, s, s', t);
    assert DueOrder(s') by {
      DeltasExact(p, s);
      SortedByDue(s', Now(p, s));
    }
  }

  lemma OthersKept(p: Params, s: Machine, s': Machine, t: int)
    requires QueueInv(p, s) && s'.now == s.now
    requires forall u :: u != t ==> At(s'.due, u) == At(s.due, u) && At(s'.setAt, u) == At(s.setAt, u)
    ensures forall e :: e in s.queue && e.timer != t ==> EntryInv(p, s', e)
  {
    hide TimeDiff, TimeNowFrom, Wrap, Complement, SysTick;
    forall e | e in s.queue && e.timer != t
      ensures EntryInv(p, s', e)
    {
      assert EntryInv(p, s, e);
    }
  }

  /** The hardware timer is set again only for a new head, and never so late
      that some queued timer would miss its limit. */
  lemma SetFiring(p: Params, s: Machine, s': Machine, e: Entry<int>, delta: int, interval: int)
    requires FiringInv(p, s) && DueOrder(s) && DueOrder(s') && s'.queue != []
    requires s'.handler == s.handler && s'.raised == s.raised && s'.now == s.now
    requires s'.armed == if s'.queue[0].timer == e.timer then Some(s.now + interval) else s.armed
    requires delta <= SLACK_TICKS ==> interval == 2
    requires SLACK_TICKS < delta ==> 2 <= interval <= delta - 11
    requires forall x :: x in s'.queue <==> x == e || (x in s.queue && x.timer != e.timer)
    requires forall x :: x in s.queue && x.timer != e.timer ==> Limit(s', x) == Limit(s, x) && Due(s', x) == Due(s, x)
    requires Due(s', e) == s.now + delta && At(s'.setAt, e.timer) == s.now
    requires if s.handler.None? then s.lastSet + 2 <= s.now == s'.lastSet && e.timer != STAMP
             else s'.lastSet == s.lastSet && (e.timer == STAMP ==> s.handler.value <= s.now + delta)
    ensures FiringInv(p, s')
  {
    var h := s'.queue[0];
    assert h in s'.queue;
    HeadFirst(s);
    HeadFirst(s');
    if s.handler.None? && s.raised.None? {
      if h == e {
        forall x | x in s'.queue
          ensures s'.armed.value <= Limit(s', x)
        {
          if x != e && delta <= SLACK_TICKS {
            assert s.armed.value <= Due(s, s.queue[0]) - 11;
          }
        }
      } else {
        assert h in s.queue;
        assert s.armed.value <= Due(s, s.queue[0]) - 11;
      }
    }
  }

  lemma HeadFirst(s: Machine)
    requires DueOrder(s)
    ensures forall x :: x in s.queue ==> Due(s, s.queue[0]) <= Due(s, x)
  {
  }

  /** Both ways of setting a timer: by the program or a callback, and by the
      stamp callback. */
  lemma SetTimerInv(p: Params, s: Machine, t: int, d: u32, s': Machine)
    requires Sane(p) && Inv(p, s)
    requires p.latency + 3 - TWO31 <= Delta(p, s, d)
    requires s.handler.None? ==> s.lastSet + 2 <= s.now && t != STAMP
    requires s.handler.Some? && t == STAMP ==> s.handler.value <= s.now + Delta(p, s, d)
    requires s' == SetTimer(p, s, t, d).(lastSet := if s.handler.None? then s.now else s.lastSet)
    ensures ClockInv(p, s') && QueueInv(p, s') && FiringInv(p, s') && ReaderInv(p, s')
  {
    hide TimeDiff, TimeNowFrom, Wrap, Complement, SysTick, Interval, Insert, Remove;
    SetContents(p, s, t, d);
    SetQueue(p, s, t, d);
    QueueKept(p, SetTimer(p, s, t, d), s');
    IntervalBounds(Delta(p, s, d));
    SetFiring(p, s, s', Entry(t, d), Delta(p, s, d), Interval(Delta(p, s, d)));
  }

  lemma SetInv(p: Params, s: Machine, t: int, d: u32)
    requires Sane(p) && Inv(p, s) && Enabled(p, s, Set(t, d))
    ensures Inv(p, Apply(p, s, Set(t, d)))
  {
    hide TimeDiff, TimeNowFrom, Wrap, Complement, SysTick, Interval, Insert, Remove;
    SetTimerInv(p, s, t, d, Apply(p, s, Set(t, d)));
    SetContents(p, s, t, d);
  }

  lemma StampSetInv(p: Params, s: Machine)
    requires Sane(p) && Inv(p, s) && Enabled(p, s, StampSet)
    ensures Inv(p, Apply(p, s, StampSet))
  {
    hide TimeDiff, TimeNowFrom, Wrap, Complement, SysTick, Interval, Insert, Remove;
    var d, s' := s.callback.deadline, Apply(p, s, StampSet);
    NowExact(p, s);
    TimeDiffExact(p.k, s.now, s.stampAt + STAMP_PERIOD);
    SetTimerInv(p, s, STAMP, d, s'.(callback := s.callback));
    SetContents(p, s, STAMP, d);
    QueueKept(p, s'.(callback := s.callback), s');
    FiringKept(p, s'.(callback := s.callback), s');
  }

  lemma FiringKept(p: Params, s: Machine, s': Machine)
    requires FiringInv(p, s)
    requires s'.now == s.now && s'.queue == s.queue && s'.due == s.due && s'.setAt == s.setAt
    requires s'.armed == s.armed && s'.raised == s.raised && s'.handler == s.handler && s'.lastSet == s.lastSet
    ensures FiringInv(p, s')
  {
    assert forall at :: InTime(s, at) ==> InTime(s', at);
  }

  /** Taking entries out leaves every other timer served in time. */
  lemma FiringFewer(p: Params, s: Machine, s': Machine)
    requires FiringInv(p, s) && DueOrder(s)
    requires s'.now == s.now && s'.due == s.due && s'.setAt == s.setAt
    requires s'.armed == s.armed && s'.raised == s.raised && s'.handler == s.handler && s'.lastSet == s.lastSet
    requires forall e :: e in s'.queue ==> e in s.queue
    ensures FiringInv(p, s')
  {
    assert forall at :: InTime(s, at) ==> InTime(s', at);
    HeadFirst(s);
    if s'.queue != [] {
      assert s'.queue[0] in s'.queue;
    }
  }

  lemma CancelInv(p: Params, s: Machine, t: int)
    requires Sane(p) && Inv(p, s) && Enabled(p, s, Cancel(t))
    ensures Inv(p, Apply(p, s, Cancel(t)))
  {
    hide TimeDiff, TimeNowFrom, Wrap, Complement, SysTick, Remove;
    var s' := Apply(p, s, Cancel(t));
    RemoveMembers(s.queue, t);
    DeltasExact(p, s);
    RemovePreserves(s.queue, t, Now(p, s));
    assert DueOrder(s') by {
      SortedByDue(s', Now(p, s));
    }
    QueueKept(p, s, s');
    FiringFewer(p, s, s');
  }

  lemma TailKept(p: Params, s: Machine, s': Machine)
    requires QueueInv(p, s) && s.queue != []
    requires s'.due == s.due && s'.setAt == s.setAt && s.now == s'.now && s'.queue == s.queue[1..]
    ensures QueueInv(p, s')
    ensures forall e :: e in s'.queue ==> e in s.queue
    ensures forall e :: e in s.queue ==> e == s.queue[0] || e in s'.queue
  {
    assert s.queue == [s.queue[0]] + s'.queue;
    assert DueOrder(s');
    QueueKept(p, s, s');
  }

  lemma ExpireInv(p: Params, s: Machine)
    requires Sane(p) && Inv(p, s) && Enabled(p, s, Expire)
    ensures Inv(p, Apply(p, s, Expire))
  {
    hide TimeDiff, TimeNowFrom, Wrap, Complement, SysTick, EntryInv;
    var s' := Apply(p, s, Expire);
    TailKept(p, s, s');
    FiringFewer(p, s, s');
    if s.queue[0].timer == STAMP {
      assert s.queue[0] in s.queue;
      assert s.handler.value <= Limit(s, s.queue[0]) == s.stampAt + STAMP_PERIOD;
    }
  }

  lemma EnterHandlerInv(p: Params, s: Machine)
    requires Inv(p, s) && Enabled(p, s, EnterHandler)
    ensures Inv(p, Apply(p, s, EnterHandler))
  {
    var s' := Apply(p, s, EnterHandler);
    QueueKept(p, s, s');
    assert FiringInv(p, s') by {
      assert forall at :: InTime(s, at) ==> InTime(s', at);
    }
  }

  lemma StampUpdateInv(p: Params, s: Machine)
    requires Sane(p) && Inv(p, s) && Enabled(p, s, StampUpdate)
    ensures Inv(p, Apply(p, s, StampUpdate))
  {
    var s' := Apply(p, s, StampUpdate);
    NowExact(p, s);
    WrapAdd(s.now + p.k, STAMP_PERIOD);
    QueueKept(p, s, s');
    FiringKept(p, s, s');
  }

  lemma LeaveHandlerInv(p: Params, s: Machine)
    requires Sane(p) && Inv(p, s) && Enabled(p, s, LeaveHandler)
    ensures Inv(p, Apply(p, s, LeaveHandler))
  {
    var s' := Apply(p, s, LeaveHandler);
    QueueKept(p, s, s');
    DeltasExact(p, s);
    if s.queue != [] {
      assert s.queue[0] in s.queue;
      var delta := Delta(p, s, s.queue[0].deadline);
      IntervalBounds(delta);
      LeaveFiring(p, s, s', delta, Interval(delta));
    }
  }

  /** On leaving its loop the handler has armed the timer for the head, which is
      not due, so an interrupt raised meanwhile is early for everyone. */
  lemma LeaveFiring(p: Params, s: Machine, s': Machine, delta: int, interval: int)
    requires FiringInv(p, s) && DueOrder(s) && s.queue != [] && s.handler.Some?
    requires delta == Due(s, s.queue[0]) - s.now && 2 <= interval <= delta - 11
    requires s' == s.(handler := None, armed := Some(s.now + interval))
    ensures FiringInv(p, s')
  {
    HeadFirst(s);
    assert forall e :: e in s'.queue ==> Limit(s', e) == Limit(s, e) >= Due(s, s.queue[0]);
  }

  lemma ReadInv(p: Params, s: Machine, e: Event)
    requires Inv(p, s) && Enabled(p, s, e) && (e.ReadStamp? || e.ReadCounter?)
    ensures Inv(p, Apply(p, s, e))
  {
    var s' := Apply(p, s, e);
    StampYoung(p, s);
    QueueKept(p, s, s');
    FiringKept(p, s, s');
  }

  lemma StepInv(p: Params, s: Machine, e: Event)
    requires Sane(p) && Inv(p, s) && Enabled(p, s, e)
    ensures Inv(p, Apply(p, s, e))
  {
    match e
    case Tick => TickInv(p, s);
    case Set(t, d) => SetInv(p, s, t, d);
    case Cancel(t) => CancelInv(p, s, t);
    case EnterHandler => EnterHandlerInv(p, s);
    case Expire => ExpireInv(p, s);
    case StampUpdate => StampUpdateInv(p, s);
    case StampSet => StampSetInv(p, s);
    case LeaveHandler => LeaveHandlerInv(p, s);
    case ReadStamp => ReadInv(p, s, e);
    case ReadCounter => ReadInv(p, s, e);
  }

  lemma {:induction false} RunInv(p: Params, s: Machine, events: seq<Event>)
    requires Sane(p) && Inv(p, s) && Run(p, s, events)
    ensures Inv(p, Final(p, s, events))
    decreases |events|
  {
    if events == [] {
    } else {
      StepInv(p, s, events[0]);
      RunInv(p, Apply(p, s, events[0]), events[1..]);
    }
  }

  // -- The theorems: after any run from time_init ------------------------------

  /** The stamp is always younger than a turn of the counter, and time_now() is
      the true time plus a constant, modulo 2^32; so is the result of a call
      whose two reads enclose interrupts and a renewal of the stamp. */
  lemma ClockAlwaysRight(p: Params, s: Machine, events: seq<Event>)
    requires Initial(p, s) && STAMP_PERIOD + p.latency + p.gap < TWO24
    requires Run(p, s, events)
    ensures var f := Final(p, s, events);
            && f.now - f.stampAt < TWO24
            && Now(p, f) == Wrap(f.now + p.k)
            && (f.reader.Some? ==>
                  TimeNowFrom(f.reader.value.stamp, SysTick(p.v0, f.now)) == Wrap(f.now + p.k))
  {
    hide TimeDiff, TimeNowFrom, Wrap, Complement, SysTick;
    var f := Final(p, s, events);
    InitialInv(p, s);
    RunInv(p, s, events);
    StampYoung(p, f);
    NowExact(p, f);
    if f.reader.Some? {
      ReadExact(p, f.reader.value.stamp, f.reader.value.takenAt, f.now);
    }
  }

  /** Every queued timer is served by its limit plus the latency. The queue is
      in order of true deadlines, so the timer that expires has the least one,
      and it expires at most the slack early. */
  lemma TimersAlwaysServed(p: Params, s: Machine, events: seq<Event>)
    requires Initial(p, s) && STAMP_PERIOD + p.latency + p.gap < TWO24
    requires Run(p, s, events)
    ensures var f := Final(p, s, events);
            && NoTimerTwice(f.queue)
            && (forall e :: e in f.queue ==>
                  && e.deadline == Wrap(Due(f, e) + p.k)
                  && -TWO31 <= Due(f, e) - f.now < TWO31
                  && f.now <= Limit(f, e) + p.latency)
            && (Enabled(p, f, Expire) ==>
                  && Due(f, f.queue[0]) - f.now <= SLACK_TICKS
                  && forall e :: e in f.queue ==> Due(f, f.queue[0]) <= Due(f, e))
  {
    hide TimeDiff, TimeNowFrom, Wrap, Complement, SysTick;
    var f := Final(p, s, events);
    InitialInv(p, s);
    RunInv(p, s, events);
    Timely(p, f);
    HeadFirst(f);
    DeltasExact(p, f);
    assert forall e :: e in f.queue ==> EntryInv(p, f, e);
    if f.queue != [] {
      assert f.queue[0] in f.queue;
    }
  }

  // -- Time always goes on ---------------------------------------------------------------

  /** What has to happen before the clock may tick again: pending interrupts, ... */
  function Pending(s: Machine): nat {
    (if s.raised.Some? then 2 else 0) + (if s.handler.Some? then 1 else 0)
  }

  predicate StampLate(s: Machine) { s.stampAt + STAMP_PERIOD <= s.now + SLACK_TICKS }

  /** ... and how far the stamp is from having been renewed. */
  function StampStage(s: Machine): nat {
    match s.callback
    case StampDue => 2
    case StampTaken(_) => if StampLate(s) then 4 else 1
    case Nothing => if StampLate(s) then 3 else 0
  }

  /** An event that must happen first, if any, and otherwise the tick itself. */
  function Urgent(p: Params, s: Machine): Event {
    if s.handler.Some? then
      match s.callback
      case StampDue => StampUpdate
      case StampTaken(_) => StampSet
      case Nothing =>
        if s.queue != [] && Delta(p, s, s.queue[0].deadline) <= SLACK_TICKS then Expire else LeaveHandler
    else if s.raised.Some? then EnterHandler
    else if s.reader.Some? then ReadCounter
    else Tick
  }

  lemma StampNotDue(p: Params, s: Machine)
    requires Sane(p) && Inv(p, s) && Enabled(p, s, Expire) && !StampLate(s)
    ensures s.queue[0].timer != STAMP
  {
    hide TimeNowFrom, TimeDiff, Wrap;
    DeltasExact(p, s);
    assert s.queue[0] in s.queue;
  }

  lemma UrgentStep(p: Params, s: Machine)
    requires Sane(p) && Inv(p, s)
    ensures Enabled(p, s, Urgent(p, s))
    ensures var e, s' := Urgent(p, s), Apply(p, s, Urgent(p, s));
            if e.Tick? then s'.now == s.now + 1
            else
              && s'.now == s.now && Pending(s') <= Pending(s)
              && (Pending(s') == Pending(s) ==>
                    if e.ReadCounter? then s.reader.Some? && s'.reader.None?
                    else
                      && s'.reader == s.reader && StampStage(s') <= StampStage(s)
                      && (StampStage(s') == StampStage(s) ==> |s'.queue| < |s.queue|))
  {
    var e := Urgent(p, s);
    assert s.handler.None? ==> s.callback.Nothing?;
    if e.Expire? && !StampLate(s) {
      StampNotDue(p, s);
    }
  }

  /** In every reachable state the events that the latency and the gap call for can
      happen before the next tick, and then the tick can: time is never blocked. */
  lemma {:induction false} TimeGoesOn(p: Params, s: Machine) returns (events: seq<Event>)
    requires Sane(p) && Inv(p, s)
    ensures Run(p, s, events) && Final(p, s, events).now == s.now + 1
    decreases Pending(s), s.reader.Some?, StampStage(s), |s.queue|
  {
    hide Inv, Sane, Apply, Enabled, Pending, StampStage, Urgent;
    var e := Urgent(p, s);
    UrgentStep(p, s);
    var s' := Apply(p, s, e);
    StepInv(p, s, e);
    if e.Tick? {
      events := [e];
      assert Run(p, s', []) && Final(p, s', []) == s';
      assert events[1..] == [];
    } else {
      var rest := TimeGoesOn(p, s');
      events := [e] + rest;
      assert events[1..] == rest;
    }
  }

  // -- How often the timer interrupts --------------------------------------------------

  predicate ChangesQueue(e: Event) { e.Set? || e.Cancel? || e.Expire? || e.StampSet? }

  function Changes(events: seq<Event>): nat {
    if events == [] then 0 else (if ChangesQueue(events[0]) then 1 else 0) + Changes(events[1..])
  }

  function Interrupts(events: seq<Event>): nat {
    if events == [] then 0 else (if events[0].EnterHandler? then 1 else 0) + Interrupts(events[1..])
  }

  function Most(x: nat, y: nat): nat { if x < y then y else x }

  lemma ChainMono(d1: int, d2: int)
    requires d1 <= d2
    ensures ChainBound(d1) <= ChainBound(d2)
  {
  }

  /** Arming for a distance costs one interrupt and leaves the rest of the chain. */
  lemma ChainArmed(d: int)
    requires SLACK_TICKS < d < TWO31
    ensures 1 + ChainBound(d - Interval(d)) <= ChainBound(d)
  {
    hide Interval, Reload, Prescaler;
    IntervalBounds(d);
  }

  /** How many interrupts can still come before the queue changes: one if one is
      pending, one for the overflow to come, and what the head needs after that. A
      callback of the stamp ends in a change. */
  ghost function Load(s: Machine): nat {
    if !s.callback.Nothing? || s.queue == [] then 0
    else
      var due := Due(s, s.queue[0]);
      var idle := s.handler.None? && s.raised.None?;
      (if s.raised.Some? then 1 else 0)
      + match s.armed
        case None => ChainBound(due - s.now)
        case Some(a) =>
          if idle then 1 + ChainBound(due - a) else Most(1 + ChainBound(due - a), ChainBound(due - s.now))
  }

  lemma TickLoad(p: Params, s: Machine)
    requires Enabled(p, s, Tick) && (s.armed.Some? ==> s.now < s.armed.value)
    ensures Load(Apply(p, s, Tick)) <= Load(s)
  {
    hide ChainBound;
    if s.queue != [] {
      var due := Due(s, s.queue[0]);
      ChainMono(due - (s.now + 1), due - s.now);
    }
  }

  lemma LeaveLoad(p: Params, s: Machine)
    requires Sane(p) && Inv(p, s) && Enabled(p, s, LeaveHandler)
    ensures Load(Apply(p, s, LeaveHandler)) <= Load(s)
  {
    DeltasExact(p, s);
    hide Sane, Inv, TimeNowFrom, TimeDiff, Wrap, ChainBound, Interval;
    if s.queue != [] {
      assert s.queue[0] in s.queue;
      ChainArmed(Due(s, s.queue[0]) - s.now);
    }
  }

  lemma QuietLoad(p: Params, s: Machine, e: Event)
    requires Sane(p) && Inv(p, s) && Enabled(p, s, e) && !ChangesQueue(e)
    ensures Load(Apply(p, s, e)) + (if e.EnterHandler? then 1 else 0) <= Load(s)
  {
    assert (s.callback.Nothing? && s.queue != []) || s.handler.Some?;
    assert s.armed.Some? ==> s.now < s.armed.value;
    hide Sane, Inv, TimeNowFrom, TimeDiff, Wrap, ChainBound, Interval;
    match e
    case Tick => TickLoad(p, s);
    case LeaveHandler => LeaveLoad(p, s);
    case _ =>
  }

  /** The stamp timer is always near, so that is never more than four. */
  lemma LoadBound(p: Params, s: Machine)
    requires Inv(p, s)
    ensures Load(s) <= 4
  {
    hide TimeNowFrom, TimeDiff, Wrap, EntryInv, ReaderInv;
    if s.callback.Nothing? && s.queue != [] {
      HeadFirst(s);
      var due := Due(s, s.queue[0]);
      assert due <= s.stampAt + STAMP_PERIOD <= s.now + STAMP_PERIOD;
      ChainMono(due - s.now, STAMP_PERIOD);
      if s.armed.Some? {
        ChainMono(due - s.armed.value, STAMP_PERIOD);
      }
    }
  }

  lemma {:induction false} LoadRuns(p: Params, s: Machine, events: seq<Event>)
    requires Sane(p) && Inv(p, s) && Run(p, s, events)
    ensures Interrupts(events) <= Load(s) + 4 * Changes(events)
    decreases |events|
  {
    hide Inv, Sane, Enabled, Apply, Load;
    if events == [] {
    } else {
      var s' := Apply(p, s, events[0]);
      StepInv(p, s, events[0]);
      LoadRuns(p, s', events[1..]);
      if ChangesQueue(events[0]) {
        LoadBound(p, s');
      } else {
        QuietLoad(p, s, events[0]);
      }
    }
  }

  /** In every run from time_init there are at most four timer interrupts between two
      changes of the queue, whatever the distances of the deadlines in it. */
  lemma InterruptsBounded(p: Params, s: Machine, before: seq<Event>, quiet: seq<Event>)
    requires Initial(p, s) && STAMP_PERIOD + p.latency + p.gap < TWO24
    requires Run(p, s, before) && Run(p, Final(p, s, before), quiet) && Changes(quiet) == 0
    ensures Interrupts(quiet) <= 4
  {
    hide Inv, Initial, Load, Run, Final;
    InitialInv(p, s);
    RunInv(p, s, before);
    LoadBound(p, Final(p, s, before));
    LoadRuns(p, Final(p, s, before), quiet);
  }

  /** From the setting of a new head to the next change of the queue, at the latest its
      own expiry, there are no more interrupts than its distance needs, and never more than
      two, since the stamp timer is queued behind it. */
  lemma HeadNeedsItsChain(p: Params, s: Machine, t: int, d: u32, events: seq<Event>)
    requires Sane(p) && Inv(p, s) && Enabled(p, s, Set(t, d)) && s.handler.None? && s.raised.None?
    requires var s' := Apply(p, s, Set(t, d));
             s'.queue[0].timer == t && Run(p, s', events) && Changes(events) == 0
    ensures Interrupts(events) <= Most(1, ChainBound(Delta(p, s, d))) <= 2
  {
    var s' := Apply(p, s, Set(t, d));
    SetInv(p, s, t, d);
    LoadRuns(p, s', events);
    HeadLoad(p, s, t, d);
    HeadNear(p, s, t, d);
  }

  /** A new head is due before the stamp timer. */
  lemma HeadNear(p: Params, s: Machine, t: int, d: u32)
    requires Sane(p) && Inv(p, s) && Enabled(p, s, Set(t, d))
    requires Inv(p, Apply(p, s, Set(t, d))) && Apply(p, s, Set(t, d)).queue[0].timer == t
    ensures ChainBound(Delta(p, s, d)) <= 2
  {
    var s' := Apply(p, s, Set(t, d));
    HeadFirst(s');
    hide Now, TimeNowFrom, TimeDiff, Wrap, EntryInv, ReaderInv, Insert, Remove, Interval;
    ChainMono(Delta(p, s, d), STAMP_PERIOD);
  }

  lemma HeadLoad(p: Params, s: Machine, t: int, d: u32)
    requires Sane(p) && Inv(p, s) && Enabled(p, s, Set(t, d)) && s.handler.None? && s.raised.None?
    requires Apply(p, s, Set(t, d)).queue[0].timer == t
    ensures Load(Apply(p, s, Set(t, d))) <= Most(1, ChainBound(Delta(p, s, d)))
  {
    hide Sane, Inv, TimeNowFrom, Wrap, ChainBound, Interval, Insert, Remove;
    var delta := Delta(p, s, d);
    IntervalBounds(delta);
    NoChain(delta - Interval(delta));
    if SLACK_TICKS < delta {
      ChainArmed(delta);
    }
  }

  lemma NoChain(d: int)
    ensures d <= SLACK_TICKS ==> ChainBound(d) == 0
  {
  }
}
