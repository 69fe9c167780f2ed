/**
  The timer queue as a sequence, and the hardware interval chosen for a
  deadline. The heap-allocated list in TimerUnit is proved to compute these
  functions; TimerSystem reasons about every run of them.
*/
module TimerQueue {
  import opened Clock
  import opened Words

  datatype Entry<T> = Entry(timer: T, deadline: u32)

  ghost predicate NoTimerTwice<T>(q: seq<Entry<T>>) {
    forall i, j :: 0 <= i < j < |q| ==> q[i].timer != q[j].timer
  }

  /** Deadlines never decrease along the queue, measured from `now`. */
  ghost predicate SortedAt<T>(q: seq<Entry<T>>, now: u32) {
    forall i, j :: 0 <= i < j < |q| ==> TimeDiff(now, q[i].deadline) <= TimeDiff(now, q[j].deadline)
  }

  /** The queue without timer `t`. */
  function Remove<T(==)>(q: seq<Entry<T>>, t: T): seq<Entry<T>> {
    if q == [] then []
    else if q[0].timer == t then Remove(q[1..], t)
    else [q[0]] + Remove(q[1..], t)
  }

  /** Where a deadline `delta` ticks away goes: before the first entry that is
      at least as far away. */
  function Position<T>(q: seq<Entry<T>>, delta: int, now: u32): (p: nat)
    ensures p <= |q|
  {
    if q == [] || delta <= TimeDiff(now, q[0].deadline) then 0
    else 1 + Position(q[1..], delta, now)
  }

  function Insert<T>(q: seq<Entry<T>>, e: Entry<T>, now: u32): (r: seq<Entry<T>>)
    ensures |r| == |q| + 1
  {
    var p := Position(q, TimeDiff(now, e.deadline), now);
    q[..p] + [e] + q[p..]
  }

  lemma {:induction false} PositionSplits<T>(q: seq<Entry<T>>, delta: int, now: u32)
    ensures var p := Position(q, delta, now);
            && (forall i :: 0 <= i < p ==> TimeDiff(now, q[i].deadline) < delta)
            && (p < |q| ==> delta <= TimeDiff(now, q[p].deadline))
  {
    if q == [] || delta <= TimeDiff(now, q[0].deadline) {
    } else {
      PositionSplits(q[1..], delta, now);
      var p := Position(q, delta, now);
      assert forall i :: 0 < i < |q| ==> q[i] == q[1..][i - 1];
    }
  }

  lemma {:induction false} RemoveMembers<T>(q: seq<Entry<T>>, t: T)
    ensures forall e :: e in Remove(q, t) <==> e in q && e.timer != t
  {
    if q == [] {
    } else {
      assert q == [q[0]] + q[1..];
      RemoveMembers(q[1..], t);
    }
  }

  lemma InsertMembers<T>(q: seq<Entry<T>>, e: Entry<T>, now: u32)
    ensures forall x :: x in Insert(q, e, now) <==> x in q || x == e
  {
    var p := Position(q, TimeDiff(now, e.deadline), now);
    assert q == q[..p] + q[p..];
  }

  lemma {:induction false} RemoveAbsent<T>(q: seq<Entry<T>>, t: T)
    requires forall e :: e in q ==> e.timer != t
    ensures Remove(q, t) == q
  {
    if q == [] {
    } else {
      assert q == [q[0]] + q[1..];
      RemoveAbsent(q[1..], t);
    }
  }

  /** In a queue without repeats, `Remove` unlinks one position. */
  lemma {:induction false} RemoveAt<T>(q: seq<Entry<T>>, k: nat)
    requires NoTimerTwice(q) && k < |q|
    ensures Remove(q, q[k].timer) == q[..k] + q[k + 1..]
  {
    var t := q[k].timer;
    if k == 0 {
      RemoveAbsent(q[1..], t);
    } else {
      RemoveAt(q[1..], k - 1);
      assert q[1..][..k - 1] == q[1..k];
      assert q[..k] == [q[0]] + q[1..k];
      assert q[1..][k - 1] == q[k];
    }
  }

  /** Cancelling a timer keeps the queue free of repeats and in order. */
  lemma RemovePreserves<T>(q: seq<Entry<T>>, t: T, now: u32)
    requires NoTimerTwice(q) && SortedAt(q, now)
    ensures NoTimerTwice(Remove(q, t)) && SortedAt(Remove(q, t), now)
  {
    if k :| 0 <= k < |q| && q[k].timer == t {
      RemoveAt(q, k);
    } else {
      RemoveAbsent(q, t);
    }
  }

  /** Setting a timer keeps the queue free of repeats and in order. */
  lemma InsertPreserves<T>(q: seq<Entry<T>>, e: Entry<T>, now: u32)
    requires NoTimerTwice(q) && SortedAt(q, now)
    requires forall x :: x in q ==> x.timer != e.timer
    ensures NoTimerTwice(Insert(q, e, now)) && SortedAt(Insert(q, e, now), now)
  {
    var d := TimeDiff(now, e.deadline);
    var p := Position(q, d, now);
    var r := Insert(q, e, now);
    PositionSplits(q, d, now);
    forall i, j | 0 <= i < j < |r|
      ensures TimeDiff(now, r[i].deadline) <= TimeDiff(now, r[j].deadline)
      ensures r[i].timer != r[j].timer
    {
      var i', j' := if i < p then i else i - 1, if j < p then j else j - 1;
      assert i != p ==> r[i] == q[i'];
      assert j != p ==> r[j] == q[j'];
    }
  }

  // -- Programming the hardware timer ---------------------------------------

  const SYSCLK_MHZ := 72
  const TIME_MHZ := 9
  const SLACK_TICKS := 12
  const COARSE_TICKS := 900       // time_us(100)
  const STAMP_PERIOD := 4500000   // time_ms(500), how often the time stamp is renewed

  /** The prescaler and reload values for a deadline `delta` ticks away. */
  function Prescaler(delta: int): int {
    if delta < 0x10000 then SYSCLK_MHZ / TIME_MHZ - 1 else 100 * SYSCLK_MHZ - 1
  }

  function Reload(delta: int): int {
    if delta < 0x10000 then
      if delta <= SLACK_TICKS then 1 else delta - SLACK_TICKS
    else
      var coarse := delta / COARSE_TICKS - 50;
      if coarse < 0xffff then coarse else 0xffff
  }

  /** Ticks until the counter overflows: (psc+1)(arr+1) clocks at 72 MHz. */
  function OverflowTicks(psc: int, arr: int): int {
    (psc + 1) * (arr + 1) / (SYSCLK_MHZ / TIME_MHZ)
  }

  function Interval(delta: int): int { OverflowTicks(Prescaler(delta), Reload(delta)) }

  /** For every int32 distance the registers fit in 16 bits; beyond the slack
      the overflow comes before the deadline, and a coarse one leaves at least
      44100 ticks (4.9 ms) for the fine-grained step that follows. */
  lemma IntervalBounds(delta: int)
    requires -TWO31 <= delta < TWO31
    ensures 0 <= Prescaler(delta) < 0x10000 && 0 < Reload(delta) < 0x10000
    ensures delta <= SLACK_TICKS ==> Interval(delta) == 2
    ensures SLACK_TICKS < delta < 0x10000 ==> Interval(delta) == delta - 11
    ensures 0x10000 <= delta ==> 0x10000 - 44999 <= Interval(delta) <= delta - 44100
    ensures 0x10000 <= delta && Reload(delta) < 0xffff ==> delta - 44999 <= Interval(delta)
    ensures Reload(delta) == 0xffff && 0x10000 <= delta ==> Interval(delta) == 58982400
  {
    if 0x10000 <= delta {
      var arr := Reload(delta);
      assert delta == delta / 900 * 900 + delta % 900;
      assert Interval(delta) == 7200 * (arr + 1) / 8 == 900 * (arr + 1);
    }
  }

  /** What is left of a distance after `|late|` timer interrupts, each of which
      programs the next interval and is served `late[i]` ticks after the
      overflow that raised it. */
  function Remaining(delta: int, late: seq<nat>): int
    decreases |late|
  {
    if delta <= SLACK_TICKS || late == [] then delta
    else Remaining(delta - Interval(delta) - late[0], late[1..])
  }

  /** How many interrupts a distance can need: capped steps, then a coarse one,
      then a fine one. */
  function ChainBound(delta: int): nat {
    if delta <= SLACK_TICKS then 0
    else if delta < 0x10000 then 1
    else if delta < 59027400 then 2
    else 2 + (delta - 44100) / 58982400
  }

  /** Any deadline is reached (to within the slack) after at most 38 interrupts,
      however late each of them is served. */
  lemma {:induction false} ChainReachesDeadline(delta: int, late: seq<nat>)
    requires -TWO31 <= delta < TWO31
    requires forall i :: 0 <= i < |late| ==> late[i] <= TWO31
    requires ChainBound(delta) <= |late|
    ensures Remaining(delta, late) <= SLACK_TICKS
    ensures ChainBound(delta) <= 38
    decreases |late|
  {
    IntervalBounds(delta);
    if delta <= SLACK_TICKS {
    } else {
      var rest := delta - Interval(delta) - late[0];
      assert ChainBound(rest) < ChainBound(delta);
      ChainReachesDeadline(rest, late[1..]);
    }
  }
}
