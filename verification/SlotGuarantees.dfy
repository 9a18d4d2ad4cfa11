// What every run of the slot machine guarantees, whatever the workers and the callers do.
module SlotGuarantees {
  import opened Counting
  import opened SlotSchedule
  import opened SlotMachine

  // ---------- conservation ----------

  lemma Conservation(p: Policy, events: seq<Event>)
    requires Sensible(p)
    ensures var s := Run(p, events);
            && s.free + Tally(HoldsPermit, s.tasks) == p.workers
            && s.pending == Tally(HoldsGuard, s.tasks) <= p.pendingCap
            && Tally(HoldsPermit, s.tasks) <= Tally(HoldsGuard, s.tasks)
  {
    RunKeeps(p, events);
    HoldersArePending(Run(p, events).tasks);
  }

  lemma {:induction false} HoldersArePending(tasks: seq<Task>)
    ensures Tally(HoldsPermit, tasks) <= Tally(HoldsGuard, tasks)
  {
    if tasks != [] {
      HoldersArePending(tasks[..|tasks| - 1]);
    }
  }

  // ---------- independence of the workers ----------

  // What an observer of the queue can tell about a task without seeing its worker or its caller.
  datatype Standing = Waiting | Occupying(start: nat) | Finished(start: nat, released: nat, reply: Reply)

  function StandingOf(t: Task): Standing {
    match t.phase
    case Queued => Waiting
    case Running(start) => Occupying(start)
    case Padding(start, _) => Occupying(start)
    case Unpermitted(start, _) => Occupying(start)
    case Released(start, _, at) => Finished(start, at, ReplyOf(t))
  }

  // The standing the timetable prescribes at a settled instant.
  function Prescribed(p: Policy, b: Booking, now: nat): Standing {
    if now < b.start then Waiting
    else if now < b.start + p.slot then Occupying(b.start)
    else Finished(b.start, b.start + p.slot, NORMALIZED)
  }

  lemma SettledStanding(p: Policy, s: State, j: nat)
    requires Inv(p, s) && Settled(p, s) && j < |s.tasks|
    ensures StandingOf(s.tasks[j]) == Prescribed(p, Plan(p, s.arrivals)[j], s.now)
  {
    assert Keeps(p, s.now, Plan(p, s.arrivals)[j], s.tasks[j]) && !ReleaseDue(p, s.now, s.tasks[j]);
    if !HasStarted(s.tasks[j]) {
      var i := QueuedWaitsForHolder(p, s, j);
      assert Keeps(p, s.now, Plan(p, s.arrivals)[i], s.tasks[i]) && !ReleaseDue(p, s.now, s.tasks[i]);
    }
  }

  lemma {:induction false} PlanOfPrefix(p: Policy, a: seq<nat>, b: seq<nat>)
    requires p.workers > 0 && a <= b
    ensures Plan(p, a) <= Plan(p, b)
  {
    if |a| < |b| {
      PlanOfPrefix(p, a, b[..|b| - 1]);
    } else {
      assert a == b;
    }
  }

  // The observable schedule of one task agrees in two states, as far as both have got.
  ghost predicate SameSchedule(t: Task, u: Task) {
    && t.arrived == u.arrived
    && (HasStarted(t) && HasStarted(u) ==> t.phase.start == u.phase.start)
    && (t.phase.Released? && u.phase.Released? ==> t.phase.at == u.phase.at && ReplyOf(t) == ReplyOf(u))
  }

  // Two runs whose arrivals agree (one may have seen more of them) make the same decisions and
  // keep the same schedule: workers, their outcomes and durations, disconnects and the order in
  // which the steps of one instant interleave make no difference.
  lemma ScheduleIndependence(p: Policy, one: seq<Event>, two: seq<Event>)
    requires Sensible(p)
    requires Run(p, one).arrivals <= Run(p, two).arrivals
    ensures var s, u := Run(p, one), Run(p, two);
            && s.accepted <= u.accepted
            && |s.tasks| <= |u.tasks|
            && forall j :: 0 <= j < |s.tasks| ==> SameSchedule(s.tasks[j], u.tasks[j])
  {
    hide Run, LiveAt;
    RunKeeps(p, one);
    RunKeeps(p, two);
    var s, u := Run(p, one), Run(p, two);
    PlanOfPrefix(p, s.arrivals, u.arrivals);
    forall i | 0 <= i < |s.accepted|
      ensures s.accepted[i] == u.accepted[i]
    {
      assert s.arrivals[..i] == u.arrivals[..i];
    }
    forall j | 0 <= j < |s.tasks|
      ensures SameSchedule(s.tasks[j], u.tasks[j])
    {
      assert Keeps(p, s.now, Plan(p, s.arrivals)[j], s.tasks[j]);
      assert Keeps(p, u.now, Plan(p, u.arrivals)[j], u.tasks[j]);
    }
  }

  // At the same settled instant the two runs cannot be told apart at all.
  lemma SettledIndependence(p: Policy, one: seq<Event>, two: seq<Event>)
    requires Sensible(p)
    requires Run(p, one).arrivals == Run(p, two).arrivals
    requires Run(p, one).now == Run(p, two).now
    requires Settled(p, Run(p, one)) && Settled(p, Run(p, two))
    ensures var s, u := Run(p, one), Run(p, two);
            && s.accepted == u.accepted && |s.tasks| == |u.tasks|
            && s.pending == u.pending && s.free == u.free
            && forall j :: 0 <= j < |s.tasks| ==> StandingOf(s.tasks[j]) == StandingOf(u.tasks[j])
  {
    var s, u := Run(p, one), Run(p, two);
    ScheduleIndependence(p, one, two);
    RunKeeps(p, one);
    RunKeeps(p, two);
    forall j | 0 <= j < |s.tasks|
      ensures StandingOf(s.tasks[j]) == StandingOf(u.tasks[j])
    {
      SettledStanding(p, s, j);
      SettledStanding(p, u, j);
    }
    SameTallies(p, s, u);
  }

  lemma SameTallies(p: Policy, s: State, u: State)
    requires Inv(p, s) && Inv(p, u) && Settled(p, s) && Settled(p, u)
    requires |s.tasks| == |u.tasks|
    requires forall j :: 0 <= j < |s.tasks| ==> StandingOf(s.tasks[j]) == StandingOf(u.tasks[j])
    ensures s.pending == u.pending && s.free == u.free
  {
    forall j | 0 <= j < |s.tasks|
      ensures HoldsGuard(s.tasks[j]) == HoldsGuard(u.tasks[j])
      ensures HoldsPermit(s.tasks[j]) == HoldsPermit(u.tasks[j])
    {
      assert StandingOf(s.tasks[j]) == StandingOf(u.tasks[j]);
      NoneUnpermitted(p, s, j);
      NoneUnpermitted(p, u, j);
    }
    TallyAgrees(HoldsGuard, s.tasks, u.tasks);
    TallyAgrees(HoldsPermit, s.tasks, u.tasks);
  }

  lemma NoneUnpermitted(p: Policy, s: State, j: nat)
    requires Inv(p, s) && Settled(p, s) && j < |s.tasks|
    ensures !s.tasks[j].phase.Unpermitted?
  {
    assert Keeps(p, s.now, Plan(p, s.arrivals)[j], s.tasks[j]) && !ReleaseDue(p, s.now, s.tasks[j]);
  }

  // ---------- bounded completion ----------

  // An admitted run is released within Rounds slots of its arrival: the release is never later,
  // and once the clock is past that bound the release has happened.
  lemma CompletesInTime(p: Policy, events: seq<Event>, j: nat)
    requires Sensible(p) && j < |Run(p, events).tasks|
    ensures var s := Run(p, events);
            var bound := s.tasks[j].arrived + Rounds(p) * p.slot;
            && (s.tasks[j].phase.Released? ==> s.tasks[j].phase.at <= bound)
            && (s.now > bound ==> s.tasks[j].phase.Released?)
  {
    RunKeeps(p, events);
    var s := Run(p, events);
    BoundedCompletion(p, s.arrivals, j);
    assert Keeps(p, s.now, Plan(p, s.arrivals)[j], s.tasks[j]);
  }

  // A worker is killed exactly at its deadline: the kill does nothing earlier, takes effect then, and no
  // worker is still running, or marked as killed, at any other time.
  // Until then it may end in any way of its own.
  lemma KilledAtTheDeadline(p: Policy, events: seq<Event>, i: nat, own: WorkerEnd)
    requires Sensible(p) && i < |Run(p, events).tasks| && own != Killed
    ensures var s := Run(p, events);
            match s.tasks[i].phase
            case Running(start) =>
              && s.now <= start + p.slot
              && (Settled(p, s) ==> s.now < start + p.slot)
              && Run(p, events + [TimesOut(i)]).tasks[i].phase
                 == (if s.now == start + p.slot then Padding(start, Killed) else Running(start))
              && Run(p, events + [WorkerEnds(i, own)]).tasks[i].phase == Padding(start, own)
            case Padding(start, end) => s.now <= start + p.slot && (end == Killed ==> s.now == start + p.slot)
            case _ => true
  {
    hide Step, Settled;
    assert (events + [TimesOut(i)])[..|events|] == events;
    assert (events + [WorkerEnds(i, own)])[..|events|] == events;
    var b := BookingOf(p, events, i);
    if Run(p, events).tasks[i].phase.Running? {
      WorkerStops(p, Run(p, events), i, b, own);
    }
  }

  lemma BookingOf(p: Policy, events: seq<Event>, i: nat) returns (b: Booking)
    requires Sensible(p) && i < |Run(p, events).tasks|
    ensures Keeps(p, Run(p, events).now, b, Run(p, events).tasks[i])
  {
    RunKeeps(p, events);
    b := Plan(p, Run(p, events).arrivals)[i];
  }

  lemma WorkerStops(p: Policy, s: State, i: nat, b: Booking, own: WorkerEnd)
    requires i < |s.tasks| && Keeps(p, s.now, b, s.tasks[i]) && s.tasks[i].phase.Running? && own != Killed
    ensures var start := s.tasks[i].phase.start;
            && (Settled(p, s) ==> s.now < start + p.slot)
            && Step(p, s, TimesOut(i)).tasks[i].phase
               == (if s.now == start + p.slot then Padding(start, Killed) else Running(start))
            && Step(p, s, WorkerEnds(i, own)).tasks[i].phase == Padding(start, own)
  {
    assert ReleaseDue(p, s.now, s.tasks[i]) <==> s.tasks[i].phase.start + p.slot <= s.now;
  }

  // ---------- throughput ----------

  function SlotStarts(tasks: seq<Task>, from: int, to: int): nat {
    if tasks == [] then 0
    else
      var t := tasks[|tasks| - 1];
      SlotStarts(tasks[..|tasks| - 1], from, to) + if HasStarted(t) && from <= t.phase.start < to then 1 else 0
  }

  lemma {:induction false} StartsAreBooked(p: Policy, now: nat, plan: seq<Booking>, tasks: seq<Task>, from: int, to: int)
    requires |plan| == |tasks| && forall j :: 0 <= j < |plan| ==> Keeps(p, now, plan[j], tasks[j])
    ensures SlotStarts(tasks, from, to) <= StartsWithin(plan, from, to)
  {
    if plan != [] {
      StartsAreBooked(p, now, plan[..|plan| - 1], tasks[..|tasks| - 1], from, to);
    }
  }

  lemma ThroughputBound(p: Policy, events: seq<Event>, from: int, n: nat)
    requires Sensible(p)
    ensures SlotStarts(Run(p, events).tasks, from, from + n * p.slot) <= n * p.workers
  {
    hide SlotStarts, StartsWithin, Follows, Plan;
    RunKeeps(p, events);
    var s := Run(p, events);
    PlanFollows(p, s.arrivals);
    WindowBound(p, Plan(p, s.arrivals), from, n);
    StartsAreBooked(p, s.now, Plan(p, s.arrivals), s.tasks, from, from + n * p.slot);
  }

  // ---------- progress ----------

  // Events the server and the clock take by themselves: no worker and no caller is asked for help.
  predicate Unaided(e: Event) {
    !e.Arrive? && !e.WorkerEnds? && !e.Disconnect?
  }

  function Remaining(t: Task): nat {
    match t.phase
    case Queued => 4
    case Running(_) => 3
    case Padding(_, _) => 2
    case Unpermitted(_, _) => 1
    case Released(_, _, _) => 0
  }

  // Some unaided step of a task is enabled, at this instant, unless the state is settled.
  lemma UrgentStep(p: Policy, s: State) returns (e: Event)
    requires Inv(p, s) && !Settled(p, s)
    ensures Unaided(e) && !e.Advance? && Enabled(p, s, e)
  {
    if i :| 0 <= i < |s.tasks| && MayAcquire(s, i) {
      e := Acquire(i);
    } else {
      var i :| 0 <= i < |s.tasks| && ReleaseDue(p, s.now, s.tasks[i]);
      var phase := s.tasks[i].phase;
      e := if phase.Running? then TimesOut(i) else if phase.Padding? then Wakes(i) else DropsGuard(i);
    }
  }

  lemma {:induction false} FirstHolder(tasks: seq<Task>, i: nat) returns (h: nat)
    requires i < |tasks| && HoldsPermit(tasks[i])
    ensures h <= i && HoldsPermit(tasks[h])
    ensures forall k :: 0 <= k < h ==> !HoldsPermit(tasks[k])
  {
    if k :| 0 <= k < i && HoldsPermit(tasks[k]) {
      h := FirstHolder(tasks, k);
    } else {
      h := i;
    }
  }

  // In a settled state with unfinished work, the next deadline exists and the clock may move to it.
  lemma NextDeadline(p: Policy, s: State, j: nat) returns (to: nat)
    requires Inv(p, s) && Settled(p, s) && j < |s.tasks| && HoldsGuard(s.tasks[j])
    ensures Enabled(p, s, Advance(to))
    ensures !Settled(p, Step(p, s, Advance(to)))
  {
    var plan := Plan(p, s.arrivals);
    PlanFollows(p, s.arrivals);
    NoneUnpermitted(p, s, j);
    var i := j;
    if !HasStarted(s.tasks[j]) {
      i := QueuedWaitsForHolder(p, s, j);
    }
    var h := FirstHolder(s.tasks, i);
    to := s.tasks[h].phase.start + p.slot;
    assert Keeps(p, s.now, plan[h], s.tasks[h]) && !ReleaseDue(p, s.now, s.tasks[h]);
    forall k | 0 <= k < |s.tasks| && HoldsPermit(s.tasks[k])
      ensures to <= s.tasks[k].phase.start + p.slot
    {
      assert Keeps(p, s.now, plan[k], s.tasks[k]);
      StartsAscend(p, plan, h, k);
    }
    assert ReleaseDue(p, to, s.tasks[h]);
  }

  lemma DrainingStep(p: Policy, s: State, j: nat) returns (e: Event)
    requires Inv(p, s) && j < |s.tasks| && HoldsGuard(s.tasks[j])
    ensures Unaided(e) && Step(p, s, e).arrivals == s.arrivals
    ensures var left, next := Total(Remaining, s.tasks), Step(p, s, e);
            || Total(Remaining, next.tasks) < left
            || (Total(Remaining, next.tasks) == left && Settled(p, s) && !Settled(p, next))
  {
    hide Inv, Settled;
    if Settled(p, s) {
      var to := NextDeadline(p, s, j);
      e := Advance(to);
    } else {
      e := UrgentStep(p, s);
      TotalUpdate(Remaining, s.tasks, e.i, NextTask(p, s, e));
    }
  }

  // ---------- every schedule ----------

  // The end of the last booked slot, and how far off it is.
  function LastEnd(p: Policy, plan: seq<Booking>): nat {
    if plan == [] then 0 else plan[|plan| - 1].start + p.slot
  }

  function TimeLeft(p: Policy, s: State): nat
    requires p.workers > 0
  {
    var end := LastEnd(p, Plan(p, s.arrivals));
    if s.now < end then end - s.now else 0
  }

  // The steps and the time that a state has left.
  function Measure(p: Policy, s: State): nat
    requires p.workers > 0
  {
    Total(Remaining, s.tasks) + TimeLeft(p, s)
  }

  predicate Unfinished(s: State) {
    exists j :: 0 <= j < |s.tasks| && HoldsGuard(s.tasks[j])
  }

  // With work left, the clock cannot pass the end of the last booked slot.
  lemma ClockStaysBelow(p: Policy, s: State, to: nat)
    requires Inv(p, s) && Enabled(p, s, Advance(to)) && Unfinished(s)
    ensures to <= LastEnd(p, Plan(p, s.arrivals))
  {
    hide Plan, LiveAt;
    var plan := Plan(p, s.arrivals);
    var j :| 0 <= j < |s.tasks| && HoldsGuard(s.tasks[j]);
    NoneUnpermitted(p, s, j);
    var i := j;
    if !HasStarted(s.tasks[j]) {
      i := QueuedWaitsForHolder(p, s, j);
    }
    PlanFollows(p, s.arrivals);
    assert Keeps(p, s.now, plan[i], s.tasks[i]);
    StartsAscend(p, plan, i, |plan| - 1);
  }

  // While work is left, every step of the server, a worker or the clock uses up what is left.
  lemma EveryStepHelps(p: Policy, s: State, e: Event)
    requires Inv(p, s) && Enabled(p, s, e) && Unfinished(s) && !e.Arrive? && !e.Disconnect?
    ensures Measure(p, Step(p, s, e)) < Measure(p, s)
  {
    hide Plan, LiveAt;
    if e.Advance? {
      ClockStaysBelow(p, s, e.to);
    } else {
      TotalUpdate(Remaining, s.tasks, e.i, NextTask(p, s, e));
    }
  }

  // A caller that leaves changes nothing about it.
  lemma LeavingChangesNothing(p: Policy, s: State, i: nat)
    requires p.workers > 0 && i < |s.tasks|
    ensures Measure(p, Step(p, s, Disconnect(i))) == Measure(p, s)
  {
    TotalUpdate(Remaining, s.tasks, i, s.tasks[i].(connected := false));
  }

  // Step k of the schedule is possible, neither an arrival nor a departure, and made with work left.
  ghost predicate Takes(p: Policy, events: seq<Event>, more: seq<Event>, k: nat)
    requires k < |more|
  {
    var s := Run(p, events + more[..k]);
    !more[k].Arrive? && !more[k].Disconnect? && Enabled(p, s, more[k]) && Unfinished(s)
  }

  ghost predicate Schedule(p: Policy, events: seq<Event>, more: seq<Event>) {
    forall k :: 0 <= k < |more| ==> Takes(p, events, more, k)
  }

  lemma {:induction false} ScheduleIsShort(p: Policy, events: seq<Event>, more: seq<Event>)
    requires Sensible(p) && Schedule(p, events, more)
    ensures |more| + Measure(p, Run(p, events + more)) <= Measure(p, Run(p, events))
  {
    hide Inv, Step, Enabled, Measure, Unfinished;
    if more == [] {
      assert events + more == events;
    } else {
      var last := |more| - 1;
      forall k | 0 <= k < last
        ensures Takes(p, events, more[..last], k)
      {
        assert Takes(p, events, more, k) && more[..last][..k] == more[..k];
      }
      ScheduleIsShort(p, events, more[..last]);
      RunKeeps(p, events + more[..last]);
      assert Takes(p, events, more, last);
      EveryStepHelps(p, Run(p, events + more[..last]), more[last]);
      assert (events + more)[..|events + more| - 1] == events + more[..last];
    }
  }

  // From every reachable state every schedule without arrivals works the queue off: it makes no more steps
  // than the measure allows, and as long as a run is unfinished an unaided step is possible.
  lemma EveryScheduleFinishes(p: Policy, events: seq<Event>, more: seq<Event>)
    requires Sensible(p) && Schedule(p, events, more)
    ensures |more| <= Measure(p, Run(p, events))
    ensures var s := Run(p, events + more);
            (exists e :: Unaided(e) && Enabled(p, s, e)) || forall j :: 0 <= j < |s.tasks| ==> s.tasks[j].phase.Released?
  {
    hide Inv, Step, Measure, Settled, Enabled;
    ScheduleIsShort(p, events, more);
    var s := Run(p, events + more);
    RunKeeps(p, events + more);
    if j :| 0 <= j < |s.tasks| && HoldsGuard(s.tasks[j]) {
      var e := Event.Arrive;
      if Settled(p, s) {
        var to := NextDeadline(p, s, j);
        e := Advance(to);
      } else {
        e := UrgentStep(p, s);
      }
      assert Unaided(e) && Enabled(p, s, e);
    }
  }

  // A queue is always worked off without the help of any worker or caller: from every reachable
  // state some continuation of unaided steps, with no new arrivals, releases every admitted run.
  lemma {:induction false} Drains(p: Policy, events: seq<Event>) returns (more: seq<Event>)
    requires Sensible(p)
    ensures forall e :: e in more ==> Unaided(e)
    ensures var s := Run(p, events + more);
            s.arrivals == Run(p, events).arrivals && forall j :: 0 <= j < |s.tasks| ==> s.tasks[j].phase.Released?
    decreases Total(Remaining, Run(p, events).tasks), Settled(p, Run(p, events))
  {
    hide Inv, Enabled, Settled, Step, Unaided;
    var s := Run(p, events);
    RunKeeps(p, events);
    if j :| 0 <= j < |s.tasks| && HoldsGuard(s.tasks[j]) {
      var e := DrainingStep(p, s, j);
      assert (events + [e])[..|events|] == events;
      var rest := Drains(p, events + [e]);
      more := [e] + rest;
      assert events + more == events + [e] + rest;
    } else {
      more := [];
      assert events + more == events;
    }
  }
}
