/**
  What the program has asked of the timer queue, kept apart from the queue itself: in every
  run the queue holds exactly what was set and has neither been cancelled nor handed out
  since, so that a cancelled timer never fires.
*/
module TimerHistory {
  import opened Clock
  import opened TimerQueue
  import opened TimerSystem
  import opened Words

  /** The deadlines asked for and still to come, by timer. */
  type Wanted = map<int, u32>

  ghost function Note(s: Machine, e: Event, wanted: Wanted): Wanted
    requires e.Expire? ==> s.queue != []
    requires e.StampSet? ==> s.callback.StampTaken?
  {
    match e
    case Set(t, d) => wanted[t := d]
    case Cancel(t) => wanted - {t}
    case Expire => wanted - {s.queue[0].timer}
    case StampSet => wanted[STAMP := s.callback.deadline]
    case _ => wanted
  }

  ghost function Noted(p: Params, s: Machine, events: seq<Event>, wanted: Wanted): Wanted
    requires Run(p, s, events)
    decreases |events|
  {
    if events == [] then wanted
    else Noted(p, Apply(p, s, events[0]), events[1..], Note(s, events[0], wanted))
  }

  /** The queue holds each of them with its deadline, and nothing else. */
  ghost predicate Holds(queue: seq<Entry<int>>, wanted: Wanted) {
    forall t: int, d: u32 :: Entry(t, d) in queue <==> t in wanted && wanted[t] == d
  }

  lemma SetHolds(p: Params, s: Machine, t: int, d: u32, wanted: Wanted)
    requires Holds(s.queue, wanted)
    ensures Holds(SetTimer(p, s, t, d).queue, wanted[t := d])
  {
    hide Delta, Now, Position, Remove, Insert;
    RemoveMembers(s.queue, t);
    InsertMembers(Remove(s.queue, t), Entry(t, d), Now(p, s));
  }

  lemma CancelHolds(s: Machine, t: int, wanted: Wanted)
    requires Holds(s.queue, wanted)
    ensures Holds(Remove(s.queue, t), wanted - {t})
  {
    RemoveMembers(s.queue, t);
  }

  lemma ExpireHolds(s: Machine, wanted: Wanted)
    requires s.queue != [] && NoTimerTwice(s.queue) && Holds(s.queue, wanted)
    ensures Holds(s.queue[1..], wanted - {s.queue[0].timer})
  {
    var q := s.queue;
    forall t: int, d: u32 ensures Entry(t, d) in q[1..] <==> t in wanted && t != q[0].timer && wanted[t] == d {
      assert q == [q[0]] + q[1..];
      if Entry(t, d) in q[1..] {
        var k :| 0 <= k < |q[1..]| && q[1..][k] == Entry(t, d);
        assert q[k + 1].timer != q[0].timer;
      }
    }
  }

  lemma StepHolds(p: Params, s: Machine, e: Event, wanted: Wanted)
    requires Inv(p, s) && Enabled(p, s, e) && Holds(s.queue, wanted)
    ensures Holds(Apply(p, s, e).queue, Note(s, e, wanted))
  {
    hide Holds, SetTimer, Delta, Now, FiringInv, StampInv, ReaderInv, ClockInv;
    match e
    case Set(t, d) => SetHolds(p, s, t, d, wanted);
    case Cancel(t) => CancelHolds(s, t, wanted);
    case Expire => ExpireHolds(s, wanted);
    case StampSet => SetHolds(p, s, STAMP, s.callback.deadline, wanted);
    case _ =>
  }

  lemma {:induction false} RunHolds(p: Params, s: Machine, events: seq<Event>, wanted: Wanted)
    requires Sane(p) && Inv(p, s) && Run(p, s, events) && Holds(s.queue, wanted)
    ensures Holds(Final(p, s, events).queue, Noted(p, s, events, wanted))
    decreases |events|
  {
    hide Holds, Inv, Sane, Apply, Note, Delta;
    if events == [] {
    } else {
      StepInv(p, s, events[0]);
      StepHolds(p, s, events[0], wanted);
      RunHolds(p, Apply(p, s, events[0]), events[1..], Note(s, events[0], wanted));
    }
  }

  /** In every run from initialisation, when only the stamp's timer is set, a timer is queued
      exactly if it has been set since it was last cancelled or handed out, and that with the
      deadline last given; so an interrupt hands out nothing else. */
  lemma QueuedIffWanted(p: Params, s: Machine, events: seq<Event>)
    requires Initial(p, s) && STAMP_PERIOD + p.latency + p.gap < TWO24
    requires Run(p, s, events)
    ensures var f, wanted := Final(p, s, events), Noted(p, s, events, map[STAMP := s.queue[0].deadline]);
            && (forall t: int, d: u32 :: Entry(t, d) in f.queue <==> t in wanted && wanted[t] == d)
            && (Enabled(p, f, Expire) ==>
                  f.queue[0].timer in wanted && wanted[f.queue[0].timer] == f.queue[0].deadline)
  {
    InitialInv(p, s);
    assert s.queue == [s.queue[0]] && s.queue[0].timer == STAMP;
    hide Inv, Initial, Run;
    RunHolds(p, s, events, map[STAMP := s.queue[0].deadline]);
  }

  predicate Absent(queue: seq<Entry<int>>, t: int) { forall e :: e in queue ==> e.timer != t }

  lemma StaysAbsent(p: Params, s: Machine, e: Event, t: int)
    requires Enabled(p, s, e) && Absent(s.queue, t) && t != STAMP && !(e.Set? && e.timer == t)
    ensures Absent(Apply(p, s, e).queue, t)
  {
    match e
    case Set(u, d) => SetStaysAbsent(p, s, u, d, t);
    case Cancel(u) => RemoveMembers(s.queue, u);
    case StampSet => SetStaysAbsent(p, s, STAMP, s.callback.deadline, t);
    case _ =>
  }

  lemma SetStaysAbsent(p: Params, s: Machine, u: int, d: u32, t: int)
    requires Absent(s.queue, t) && u != t
    ensures Absent(SetTimer(p, s, u, d).queue, t)
  {
    hide Delta, Now, Position, Remove, Insert;
    RemoveMembers(s.queue, u);
    InsertMembers(Remove(s.queue, u), Entry(u, d), Now(p, s));
  }

  lemma {:induction false} RunStaysAbsent(p: Params, s: Machine, events: seq<Event>, t: int)
    requires Run(p, s, events) && Absent(s.queue, t) && t != STAMP
    requires forall k :: 0 <= k < |events| ==> !(events[k].Set? && events[k].timer == t)
    ensures Absent(Final(p, s, events).queue, t)
    decreases |events|
  {
    hide Absent, Enabled, Apply;
    if events == [] {
    } else {
      StaysAbsent(p, s, events[0], t);
      RunStaysAbsent(p, Apply(p, s, events[0]), events[1..], t);
    }
  }

  /** A cancelled timer is out of the queue, and stays out however the run goes on until it
      is set again. */
  lemma CancelledStaysOut(p: Params, s: Machine, t: int, events: seq<Event>)
    requires Enabled(p, s, Cancel(t)) && Run(p, Apply(p, s, Cancel(t)), events)
    requires forall k :: 0 <= k < |events| ==> !(events[k].Set? && events[k].timer == t)
    ensures Absent(Final(p, Apply(p, s, Cancel(t)), events).queue, t)
  {
    RemoveMembers(s.queue, t);
    hide Run;
    RunStaysAbsent(p, Apply(p, s, Cancel(t)), events, t);
  }
}
