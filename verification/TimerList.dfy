/**
  The linked list of pending timers, relinked in place, together with the time
  stamp and the registers of the one hardware timer they share. Every method is
  proved to compute the functions of Clock and TimerQueue.
*/
module TimerList {
  import opened Clock
  import opened TimerQueue
  import opened Words

  /** A `next` field: not queued, end of list, or the following timer. */
  datatype Pointer = Inactive | Null | To(timer: Timer)

  class Timer {
    var deadline: u32
    var next: Pointer

    /** `timer_init` */
    constructor ()
      ensures next == Inactive
    {
      deadline := 0;
      next := Inactive;
    }
  }

  /** The link that leads to position `i` of a list. */
  ghost function At(nodes: seq<Timer>, i: nat): Pointer {
    if i < |nodes| then To(nodes[i]) else Null
  }

  ghost predicate Linked(head: Pointer, nodes: seq<Timer>)
    reads nodes
  {
    && head == At(nodes, 0)
    && forall i {:trigger nodes[i].next} :: 0 <= i < |nodes| ==> nodes[i].next == At(nodes, i + 1)
  }

  ghost predicate NoNodeTwice(nodes: seq<Timer>) {
    forall i, j :: 0 <= i < j < |nodes| ==> nodes[i] != nodes[j]
  }

  /** `r` is `s` with `x` put in at position `i`. */
  ghost predicate Spliced<X>(s: seq<X>, i: nat, x: X, r: seq<X>)
    requires i <= |s|
  {
    && |r| == |s| + 1
    && forall k {:trigger r[k]} :: 0 <= k < |r| ==>
         r[k] == if k < i then s[k] else if k == i then x else s[k - 1]
  }

  /** `r` is `s` without position `i`. */
  ghost predicate Dropped<X>(s: seq<X>, i: nat, r: seq<X>)
    requires i < |s|
  {
    && |r| == |s| - 1
    && forall k {:trigger r[k]} :: 0 <= k < |r| ==> r[k] == s[if k < i then k else k + 1]
  }

  lemma Splice(nodes: seq<Timer>, i: nat, t: Timer) returns (r: seq<Timer>)
    requires i <= |nodes| && t !in nodes && NoNodeTwice(nodes)
    ensures Spliced(nodes, i, t, r) && NoNodeTwice(r)
    ensures forall x :: x in r <==> x in nodes || x == t
  {
    r := nodes[..i] + [t] + nodes[i..];
    assert nodes == nodes[..i] + nodes[i..];
  }

  lemma Drop(nodes: seq<Timer>, i: nat) returns (r: seq<Timer>)
    requires i < |nodes| && NoNodeTwice(nodes)
    ensures Dropped(nodes, i, r) && NoNodeTwice(r)
    ensures forall x :: x in r <==> x in nodes && x != nodes[i]
  {
    r := nodes[..i] + nodes[i + 1..];
    assert nodes == nodes[..i] + [nodes[i]] + nodes[i + 1..];
  }

  lemma SplicedIsInsert(q: seq<Entry<Timer>>, e: Entry<Timer>, now: u32, r: seq<Entry<Timer>>)
    requires Spliced(q, Position(q, TimeDiff(now, e.deadline), now), e, r)
    ensures r == Insert(q, e, now)
  {
  }

  lemma DroppedIsRemove(q: seq<Entry<Timer>>, i: nat, r: seq<Entry<Timer>>)
    requires NoTimerTwice(q) && i < |q| && Dropped(q, i, r)
    ensures r == Remove(q, q[i].timer)
  {
    RemoveAt(q, i);
    assert r == q[..i] + q[i + 1..];
  }

  ghost function Entries(nodes: seq<Timer>): (q: seq<Entry<Timer>>)
    reads nodes
    ensures |q| == |nodes|
    ensures forall i :: 0 <= i < |q| ==> q[i] == Entry(nodes[i], nodes[i].deadline)
  {
    seq(|nodes|, i requires 0 <= i < |nodes| reads nodes => Entry(nodes[i], nodes[i].deadline))
  }

  class TimerUnit {
    var head: Pointer
    var timeStamp: u32
    const stampTimer: Timer
    var psc: u16
    var arr: u16
    var running: bool

    ghost var nodes: seq<Timer>
    ghost const timers: set<Timer>   // every timer that has been initialised

    /** The list holds exactly the timers whose `next` is not Inactive, once each. */
    ghost predicate Valid()
      reads this, timers
    {
      && stampTimer in timers
      && (forall i :: 0 <= i < |nodes| ==> nodes[i] in timers)
      && NoNodeTwice(nodes)
      && Linked(head, nodes)
      && (forall t {:trigger t.next} :: t in timers ==> (t.next == Inactive <==> t !in nodes))
    }

    ghost function Queue(): (q: seq<Entry<Timer>>)
      reads this, nodes
    {
      Entries(nodes)
    }

    /** `time_now`, with the counter value that its second read returned. */
    method TimeNow(counter: u24) returns (now: u32)
      ensures now == TimeNowFrom(timeStamp, counter)
    {
      var s := timeStamp;
      var t := counter + s / TWO24 * TWO24;
      if t > s {
        t := Wrap(t - TWO24);
      }
      now := Complement(t);
    }

    /** `reprogram_timer` */
    method Reprogram(delta: int)
      requires -TWO31 <= delta < TWO31
      modifies this`psc, this`arr, this`running
      ensures psc == Prescaler(delta) && arr == Reload(delta) && running
    {
      IntervalBounds(delta);
      running := false;
      if delta < 0x10000 {
        psc := SYSCLK_MHZ / TIME_MHZ - 1;
        arr := if delta <= SLACK_TICKS then 1 else delta - SLACK_TICKS;
      } else {
        psc := 100 * SYSCLK_MHZ - 1;
        var coarse := delta / COARSE_TICKS - 50;
        arr := if 0xffff < coarse then 0xffff else coarse;
      }
      running := true;
    }

    /** The search of `_timer_cancel`: null stands for &head. It ends because an
        active timer is in the list. */
    method FindPrevious(timer: Timer) returns (prev: Timer?, ghost i: nat)
      requires Valid() && timer in timers && timer.next != Inactive
      ensures i < |nodes| && nodes[i] == timer
      ensures prev == if i == 0 then null else nodes[i - 1]
    {
      prev := null;
      var link := head;
      i := 0;
      while link != To(timer)
        invariant i < |nodes| && link == At(nodes, i) && timer in nodes[i..]
        invariant prev == if i == 0 then null else nodes[i - 1]
        decreases |nodes| - i
      {
        prev := link.timer;
        link := prev.next;
        i := i + 1;
      }
    }

    /** Take the timer at position `i` out of the list, after `prev`. */
    method Detach(timer: Timer, prev: Timer?, ghost i: nat)
      requires Valid() && i < |nodes| && nodes[i] == timer
      requires prev == if i == 0 then null else nodes[i - 1]
      modifies this`head, this`nodes, timers`next
      ensures Valid() && timer.next == Inactive
      ensures Dropped(old(nodes), i, nodes)
    {
      if prev == null {
        head := timer.next;
      } else {
        prev.next := timer.next;
      }
      timer.next := Inactive;
      nodes := Drop(nodes, i);
      forall k | 0 <= k < |nodes|
        ensures nodes[k].next == At(nodes, k + 1)
      {
        assert nodes[k] == old(nodes)[if k < i then k else k + 1];
      }
    }

    /** The same, seen from the queue. */
    method DetachEntry(timer: Timer, prev: Timer?, ghost i: nat)
      requires Valid() && i < |nodes| && nodes[i] == timer
      requires prev == if i == 0 then null else nodes[i - 1]
      modifies this`head, this`nodes, timers`next
      ensures Valid() && timer.next == Inactive
      ensures var q := old(Queue()); NoTimerTwice(q) && q[i].timer == timer && Dropped(q, i, Queue())
    {
      hide Linked;
      Detach(timer, prev, i);
    }

    /** `_timer_cancel` */
    method Unlink(timer: Timer)
      requires Valid() && timer in timers
      modifies this`head, this`nodes, timers`next
      ensures Valid() && timer.next == Inactive
      ensures Queue() == Remove(old(Queue()), timer)
    {
      hide Remove, Dropped, Linked, NoNodeTwice, NoTimerTwice;
      if timer.next == Inactive {
        RemoveAbsent(Queue(), timer);
      } else {
        var prev, i := FindPrevious(timer);
        DetachEntry(timer, prev, i);
        DroppedIsRemove(old(Queue()), i, Queue());
      }
    }

    /** `timer_cancel` */
    method Cancel(timer: Timer)
      requires Valid() && timer in timers
      modifies this`head, this`nodes, timers`next
      ensures Valid() && timer.next == Inactive
      ensures Queue() == Remove(old(Queue()), timer)
    {
      Unlink(timer);
    }

    /** The search of `timer_set` for the place of a deadline. */
    method FindPlace(delta: int, now: u32) returns (prev: Timer?, link: Pointer, ghost i: nat)
      requires Valid()
      ensures i == Position(Queue(), delta, now)
      ensures i <= |nodes| && link == At(nodes, i)
      ensures prev == if i == 0 then null else nodes[i - 1]
    {
      ghost var q := Queue();
      prev := null;
      link := head;
      i := 0;
      while link != Null
        invariant i <= |nodes| && link == At(nodes, i)
        invariant prev == if i == 0 then null else nodes[i - 1]
        invariant Position(q, delta, now) == i + Position(q[i..], delta, now)
        decreases |nodes| - i
      {
        assert q[i..][0] == q[i] && q[i..][1..] == q[i + 1..];
        if delta <= TimeDiff(now, link.timer.deadline) {
          break;
        }
        prev := link.timer;
        link := prev.next;
        i := i + 1;
      }
    }

    /** Link an inactive timer in at position `i`, after `prev`. */
    method Link(timer: Timer, prev: Timer?, link: Pointer, ghost i: nat)
      requires Valid() && timer in timers && timer.next == Inactive
      requires i <= |nodes| && link == At(nodes, i)
      requires prev == if i == 0 then null else nodes[i - 1]
      modifies this`head, this`nodes, timers`next
      ensures Valid() && timer.next == link && i < |nodes| && nodes[i] == timer
      ensures Spliced(old(nodes), i, timer, nodes)
    {
      timer.next := link;
      if prev == null {
        head := To(timer);
      } else {
        prev.next := To(timer);
      }
      nodes := Splice(nodes, i, timer);
    }

    /** The same, as it changes the queue: no deadline is touched. */
    method LinkEntry(timer: Timer, prev: Timer?, link: Pointer, ghost i: nat)
      requires Valid() && timer in timers && timer.next == Inactive
      requires i <= |nodes| && link == At(nodes, i)
      requires prev == if i == 0 then null else nodes[i - 1]
      modifies this`head, this`nodes, timers`next
      ensures Valid() && timer.next == link && i < |nodes| && nodes[i] == timer
      ensures Spliced(old(Queue()), i, Entry(timer, timer.deadline), Queue())
    {
      hide Linked, NoNodeTwice;
      Link(timer, prev, link, i);
    }

    /** The rest of `timer_set`, once the timer is known not to be queued. */
    method Place(timer: Timer, now: u32)
      requires Valid() && timer in timers && timer.next == Inactive
      modifies this`head, this`nodes, this`psc, this`arr, this`running, timers`next
      ensures Valid() && timer.next != Inactive
      ensures Queue() == Insert(old(Queue()), Entry(timer, timer.deadline), now)
      ensures var delta := TimeDiff(now, timer.deadline);
              if head == To(timer)
              then psc == Prescaler(delta) && arr == Reload(delta) && running
              else psc == old(psc) && arr == old(arr) && running == old(running)
    {
      hide Insert, Position, TimeDiff, Prescaler, Reload, Linked, NoNodeTwice, Spliced;
      var delta := TimeDiff(now, timer.deadline);
      var prev, link, i := FindPlace(delta, now);
      LinkEntry(timer, prev, link, i);
      SplicedIsInsert(old(Queue()), Entry(timer, timer.deadline), now, Queue());
      if head == To(timer) {
        Reprogram(delta);
      }
    }

    /** `timer_set` */
    method Set(timer: Timer, deadline: u32, counter: u24)
      requires Valid() && timer in timers
      modifies this`head, this`nodes, this`psc, this`arr, this`running, timers
      ensures Valid() && timer.next != Inactive
      ensures Queue() == Insert(Remove(old(Queue()), timer), Entry(timer, deadline),
                                TimeNowFrom(timeStamp, counter))
      ensures var delta := TimeDiff(TimeNowFrom(timeStamp, counter), deadline);
              if head == To(timer)
              then psc == Prescaler(delta) && arr == Reload(delta) && running
              else psc == old(psc) && arr == old(arr) && running == old(running)
    {
      hide Insert, Remove, TimeNowFrom, TimeDiff, Prescaler, Reload;
      Unlink(timer);
      ghost var q := Queue();
      timer.deadline := deadline;
      var now := TimeNow(counter);
      assert Queue() == q;
      Place(timer, now);
    }

    /** One turn of the loop of `IRQ_timer`: the timer whose callback is now to
        be called, or none when the loop ends. */
    method Expire(counter: u24) returns (fired: Timer?)
      requires Valid()
      modifies this`head, this`nodes, this`psc, this`arr, this`running, timers`next
      ensures Valid()
      ensures var now := TimeNowFrom(timeStamp, counter);
              var q := old(Queue());
              if q != [] && TimeDiff(now, q[0].deadline) <= SLACK_TICKS
              then
                && fired == q[0].timer && fired.next == Inactive && Queue() == q[1..]
                && psc == old(psc) && arr == old(arr) && running == old(running)
              else
                && fired == null && Queue() == q
                && if q == [] then psc == old(psc) && arr == old(arr) && running == old(running)
                   else var delta := TimeDiff(now, q[0].deadline);
                     psc == Prescaler(delta) && arr == Reload(delta) && running
    {
      fired := null;
      if head != Null {
        var t := head.timer;
        var now := TimeNow(counter);
        var delta := TimeDiff(now, t.deadline);
        if delta > SLACK_TICKS {
          Reprogram(delta);
        } else {
          head := t.next;
          t.next := Inactive;
          nodes := nodes[1..];
          fired := t;
        }
      }
    }

    /** `time_stamp_update`, the callback of the stamp timer; `later` is the
        counter when the timer is set again. */
    method StampUpdate(counter: u24, later: u24)
      requires Valid()
      modifies this`head, this`nodes, this`psc, this`arr, this`running, this`timeStamp, timers
      ensures Valid()
      ensures var now := TimeNowFrom(old(timeStamp), counter);
              && timeStamp == Complement(now)
              && Queue() == Insert(Remove(old(Queue()), stampTimer),
                                   Entry(stampTimer, Wrap(now + STAMP_PERIOD)),
                                   TimeNowFrom(timeStamp, later))
    {
      ghost var q := Queue();
      var now := TimeNow(counter);
      timeStamp := Complement(now);
      assert Queue() == q;
      Set(stampTimer, Wrap(now + STAMP_PERIOD), later);
    }

    /** `time_init`; the remaining timers are initialised but not queued. */
    constructor (stampTimer: Timer, others: set<Timer>, counter: u24, later: u24)
      requires stampTimer.next == Inactive && forall t :: t in others ==> t.next == Inactive
      modifies stampTimer, others
      ensures Valid() && timers == {stampTimer} + others && this.stampTimer == stampTimer
      ensures timeStamp == counter
      ensures nodes == [stampTimer]
      ensures stampTimer.deadline == Wrap(TimeNowFrom(counter, later) + STAMP_PERIOD)
      ensures var delta := TimeDiff(TimeNowFrom(counter, later), stampTimer.deadline);
              psc == Prescaler(delta) && arr == Reload(delta) && running
    {
      head, nodes := Null, [];
      this.stampTimer := stampTimer;
      timers := {stampTimer} + others;
      timeStamp := counter;
      psc, arr, running := 0, 0, false;
      new;
      var now := TimeNow(later);
      Set(stampTimer, Wrap(now + STAMP_PERIOD), later);
      assert nodes[0] == Queue()[0].timer;
    }
  }
}
