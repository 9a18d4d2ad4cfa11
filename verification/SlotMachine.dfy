// The server side of `POST /v1/run` as a timed step system.  Each event is one atomic step of a
// request handler, of its spawned slot task, of the worker process or of the clock; an event whose
// guard does not hold changes nothing, so every list of events is a run.
//
// The clock is idealised: `sleep_until` wakes at its deadline, a free permit is taken before time
// moves on, and a release that is due precedes an arrival of the same instant.
module SlotMachine {
  import opened Counting
  import opened SlotSchedule

  // How the worker process ended: by itself (well, badly or without ever starting) or by being
  // killed at the deadline.
  datatype WorkerEnd = Exited | Trapped | LaunchFailed | Killed

  datatype Phase =
    | Queued                                               // pending guard held, waiting for a permit
    | Running(start: nat)                                  // permit held, process under `timeout_at`
    | Padding(start: nat, end: WorkerEnd)                  // permit held, sleeping until the deadline
    | Unpermitted(start: nat, end: WorkerEnd)              // permit dropped, pending guard still held
    | Released(start: nat, end: WorkerEnd, at: nat)        // slot task finished

  datatype Task = Task(arrived: nat, connected: bool, phase: Phase)

  datatype State = State(
    now: nat,
    pending: nat,
    free: nat,
    arrivals: seq<nat>,
    accepted: seq<bool>,
    tasks: seq<Task>)

  datatype Event =
    | Arrive
    | Disconnect(i: nat)
    | Acquire(i: nat)
    | WorkerEnds(i: nat, end: WorkerEnd)
    | TimesOut(i: nat)
    | Wakes(i: nat)
    | DropsGuard(i: nat)
    | Advance(to: nat)

  datatype Reply = Reply(status: nat, body: string)

  const NORMALIZED := Reply(200, "{\"outcome\":\"complete\"}")
  const QUEUE_FULL := Reply(429, "run queue capacity reached")

  function Initial(p: Policy): State {
    State(0, 0, p.workers, [], [], [])
  }

  predicate HasStarted(t: Task) { !t.phase.Queued? }

  predicate HoldsPermit(t: Task) { t.phase.Running? || t.phase.Padding? }

  predicate HoldsGuard(t: Task) { !t.phase.Released? }

  // The deadline of this task has come but it still occupies the queue.
  predicate ReleaseDue(p: Policy, now: nat, t: Task) {
    HasStarted(t) && HoldsGuard(t) && t.phase.start + p.slot <= now
  }

  predicate MayAcquire(s: State, i: nat)
    requires i < |s.tasks|
  {
    && s.free > 0
    && s.tasks[i].phase.Queued?
    && (forall j :: 0 <= j < i ==> HasStarted(s.tasks[j]))
  }

  predicate NoReleaseDue(p: Policy, s: State) {
    forall i :: 0 <= i < |s.tasks| ==> !ReleaseDue(p, s.now, s.tasks[i])
  }

  // Nothing is left to do at this instant.
  predicate Settled(p: Policy, s: State) {
    NoReleaseDue(p, s) && forall i :: 0 <= i < |s.tasks| ==> !MayAcquire(s, i)
  }

  predicate Enabled(p: Policy, s: State, e: Event) {
    match e
    case Arrive => NoReleaseDue(p, s)
    case Disconnect(i) => i < |s.tasks|
    case Acquire(i) => i < |s.tasks| && MayAcquire(s, i)
    case WorkerEnds(i, end) => i < |s.tasks| && s.tasks[i].phase.Running? && end != Killed
    case TimesOut(i) => i < |s.tasks| && s.tasks[i].phase.Running? && s.tasks[i].phase.start + p.slot <= s.now
    case Wakes(i) => i < |s.tasks| && s.tasks[i].phase.Padding? && s.tasks[i].phase.start + p.slot <= s.now
    case DropsGuard(i) => i < |s.tasks| && s.tasks[i].phase.Unpermitted?
    case Advance(to) =>
      && s.now < to
      && Settled(p, s)
      && forall i :: 0 <= i < |s.tasks| && HoldsPermit(s.tasks[i]) ==> to <= s.tasks[i].phase.start + p.slot
  }

  // The task an event of task i leaves behind.
  function NextTask(p: Policy, s: State, e: Event): Task
    requires !e.Arrive? && !e.Advance? && Enabled(p, s, e)
  {
    var t := s.tasks[e.i];
    match e
    case Disconnect(i) => t.(connected := false)
    case Acquire(i) => t.(phase := Running(s.now))
    case WorkerEnds(i, end) => t.(phase := Padding(t.phase.start, end))
    case TimesOut(i) => t.(phase := Padding(t.phase.start, Killed))
    case Wakes(i) => t.(phase := Unpermitted(t.phase.start, t.phase.end))
    case DropsGuard(i) => t.(phase := Released(t.phase.start, t.phase.end, s.now))
  }

  function Step(p: Policy, s: State, e: Event): State {
    if !Enabled(p, s, e) then s
    else if e.Arrive? then
      var seen := s.(arrivals := s.arrivals + [s.now], accepted := s.accepted + [s.pending < p.pendingCap]);
      if s.pending < p.pendingCap
      then seen.(pending := s.pending + 1, tasks := s.tasks + [Task(s.now, true, Queued)])
      else seen
    else if e.Advance? then s.(now := e.to)
    else
      s.(tasks := s.tasks[e.i := NextTask(p, s, e)],
         free := if e.Acquire? then s.free - 1 else if e.Wakes? then s.free + 1 else s.free,
         pending := if e.DropsGuard? && s.pending > 0 then s.pending - 1 else s.pending)
  }

  function Run(p: Policy, events: seq<Event>): State {
    if events == [] then Initial(p)
    else Step(p, Run(p, events[..|events| - 1]), events[|events| - 1])
  }

  // What the caller of an admitted run is sent, once its slot task has finished: the same, however its
  // worker ended.
  function ReplyOf(t: Task): Reply
    requires t.phase.Released?
  {
    NORMALIZED
  }

  // ---------- the invariant ----------

  ghost predicate Keeps(p: Policy, now: nat, b: Booking, t: Task) {
    && t.arrived == b.arrived
    && match t.phase
       case Queued => now <= b.start
       case Running(start) => start == b.start <= now <= start + p.slot
       case Padding(start, end) => start == b.start <= now <= start + p.slot && (end == Killed ==> now == start + p.slot)
       case Unpermitted(start, _) => start == b.start && now == start + p.slot
       case Released(start, _, at) => start == b.start && at == start + p.slot <= now
  }

  ghost predicate Accounted(p: Policy, s: State) {
    && s.free + Tally(HoldsPermit, s.tasks) == p.workers
    && s.pending == Tally(HoldsGuard, s.tasks) <= p.pendingCap
  }

  ghost predicate OnTimetable(p: Policy, now: nat, plan: seq<Booking>, tasks: seq<Task>) {
    && |tasks| == |plan|
    && (forall j :: 0 <= j < |plan| ==> Keeps(p, now, plan[j], tasks[j]))
    && (forall i, j :: 0 <= i < j < |tasks| && HasStarted(tasks[j]) ==> HasStarted(tasks[i]))
  }

  ghost predicate Decided(p: Policy, s: State)
    requires p.workers > 0
  {
    && Ascending(s.arrivals)
    && (s.arrivals != [] ==> s.arrivals[|s.arrivals| - 1] <= s.now)
    && |s.accepted| == |s.arrivals|
    && forall i :: 0 <= i < |s.arrivals| ==> s.accepted[i] == Admits(p, s.arrivals, i)
  }

  ghost predicate Inv(p: Policy, s: State) {
    && Sensible(p)
    && Accounted(p, s)
    && Decided(p, s)
    && OnTimetable(p, s.now, Plan(p, s.arrivals), s.tasks)
  }

  // ---------- every step keeps it ----------

  lemma {:induction false} PendingIsLive(p: Policy, now: nat, plan: seq<Booking>, tasks: seq<Task>)
    requires Sensible(p) && |plan| == |tasks|
    requires forall j :: 0 <= j < |plan| ==> Keeps(p, now, plan[j], tasks[j]) && !ReleaseDue(p, now, tasks[j])
    ensures Tally(HoldsGuard, tasks) == LiveAt(p, plan, now)
  {
    if plan != [] {
      PendingIsLive(p, now, plan[..|plan| - 1], tasks[..|tasks| - 1]);
    }
  }

  lemma AdmitsExtend(p: Policy, arrivals: seq<nat>, t: nat, i: nat)
    requires p.workers > 0 && i < |arrivals|
    ensures Admits(p, arrivals + [t], i) == Admits(p, arrivals, i)
  {
    assert (arrivals + [t])[..i] == arrivals[..i];
  }

  lemma DecisionFollows(p: Policy, s: State)
    requires Inv(p, s) && NoReleaseDue(p, s)
    ensures (s.pending < p.pendingCap) == Admits(p, s.arrivals + [s.now], |s.arrivals|)
  {
    PendingIsLive(p, s.now, Plan(p, s.arrivals), s.tasks);
    assert (s.arrivals + [s.now])[..|s.arrivals|] == s.arrivals;
  }

  lemma DecisionKeeps(p: Policy, s: State)
    requires Sensible(p) && Decided(p, s)
    requires (s.pending < p.pendingCap) == Admits(p, s.arrivals + [s.now], |s.arrivals|)
    ensures Decided(p, Step(p, s, Arrive))
  {
    forall i | 0 <= i < |s.arrivals|
      ensures Admits(p, s.arrivals + [s.now], i) == s.accepted[i]
    {
      AdmitsExtend(p, s.arrivals, s.now, i);
    }
  }

  lemma ArriveKeeps(p: Policy, s: State)
    requires Inv(p, s) && Enabled(p, s, Arrive)
    ensures Inv(p, Step(p, s, Arrive))
  {
    var s' := Step(p, s, Arrive);
    DecisionFollows(p, s);
    DecisionKeeps(p, s);
    PlanExtends(p, s.arrivals, s.now);
    if s.pending < p.pendingCap {
      PlanFollows(p, s.arrivals);
      var b := Booking(s.now, NextStart(p, Plan(p, s.arrivals), s.now));
      TimetableGrows(p, s.now, Plan(p, s.arrivals), s.tasks, b, Task(s.now, true, Queued));
      assert s'.tasks[..|s.tasks|] == s.tasks;
    }
  }

  lemma TimetableGrows(p: Policy, now: nat, plan: seq<Booking>, tasks: seq<Task>, b: Booking, t: Task)
    requires OnTimetable(p, now, plan, tasks) && Keeps(p, now, b, t) && !HasStarted(t)
    ensures OnTimetable(p, now, plan + [b], tasks + [t])
  {
  }

  // A permit is free for the head of the queue exactly when its booked start has come.
  lemma HeadIsDue(p: Policy, s: State, j: nat)
    requires Inv(p, s) && j < |s.tasks| && MayAcquire(s, j)
    ensures Plan(p, s.arrivals)[j].start == s.now
  {
    hide LiveAt;
    var plan := Plan(p, s.arrivals);
    PlanFollows(p, s.arrivals);
    assert Keeps(p, s.now, plan[j], s.tasks[j]);
    assert OnTime(p, plan, j);
    if j >= p.workers {
      TallyBounds(HoldsPermit, s.tasks, j - p.workers, j);
      var i :| j - p.workers <= i < j && !HoldsPermit(s.tasks[i]);
      assert Keeps(p, s.now, plan[i], s.tasks[i]) && HasStarted(s.tasks[i]);
      StartsAscend(p, plan, j - p.workers, i);
    }
  }

  // Replacing one task by a task that keeps the same booking keeps the timetable.
  lemma MoveKeeps(p: Policy, s: State, i: nat, t: Task)
    requires Inv(p, s) && i < |s.tasks|
    requires Keeps(p, s.now, Plan(p, s.arrivals)[i], t)
    requires HasStarted(s.tasks[i]) ==> HasStarted(t)
    requires HasStarted(t) && !HasStarted(s.tasks[i]) ==> forall j :: 0 <= j < i ==> HasStarted(s.tasks[j])
    ensures OnTimetable(p, s.now, Plan(p, s.arrivals), s.tasks[i := t])
    ensures Tally(HoldsPermit, s.tasks[i := t]) ==
            Tally(HoldsPermit, s.tasks) - (if HoldsPermit(s.tasks[i]) then 1 else 0) + (if HoldsPermit(t) then 1 else 0)
    ensures Tally(HoldsGuard, s.tasks[i := t]) ==
            Tally(HoldsGuard, s.tasks) - (if HoldsGuard(s.tasks[i]) then 1 else 0) + (if HoldsGuard(t) then 1 else 0)
  {
    TallyUpdate(HoldsPermit, s.tasks, i, t);
    TallyUpdate(HoldsGuard, s.tasks, i, t);
  }

  lemma NextTaskKeeps(p: Policy, s: State, e: Event)
    requires Inv(p, s) && Enabled(p, s, e)
    requires !e.Arrive? && !e.Advance?
    ensures Keeps(p, s.now, Plan(p, s.arrivals)[e.i], NextTask(p, s, e))
  {
    assert Keeps(p, s.now, Plan(p, s.arrivals)[e.i], s.tasks[e.i]);
    if e.Acquire? {
      HeadIsDue(p, s, e.i);
    }
  }

  lemma TaskStepKeeps(p: Policy, s: State, e: Event)
    requires Inv(p, s) && Enabled(p, s, e)
    requires !e.Arrive? && !e.Advance?
    ensures Inv(p, Step(p, s, e))
  {
    var s' := Step(p, s, e);
    NextTaskKeeps(p, s, e);
    MoveKeeps(p, s, e.i, NextTask(p, s, e));
    assert s'.tasks == s.tasks[e.i := NextTask(p, s, e)];
    if e.DropsGuard? {
      TallyBounds(HoldsGuard, s.tasks, e.i, e.i + 1);
    }
  }

  // When no permit is free, the head of the queue is booked behind a run that still holds one.
  lemma HolderAhead(p: Policy, s: State, h: nat) returns (i: nat)
    requires Inv(p, s) && h < |s.tasks|
    requires s.free == 0 && !HasStarted(s.tasks[h])
    requires forall j :: 0 <= j < h ==> HasStarted(s.tasks[j])
    ensures i < h && HoldsPermit(s.tasks[i])
    ensures Plan(p, s.arrivals)[h].start >= Plan(p, s.arrivals)[i].start + p.slot
  {
    hide Plan, LiveAt, Keeps;
    PlanFollows(p, s.arrivals);
    assert forall j :: h < j < |s.tasks| ==> !HasStarted(s.tasks[j]);
    assert forall j :: 0 <= j < |s.tasks| && HoldsPermit(s.tasks[j]) ==> 0 <= j < h;
    TallyBounds(HoldsPermit, s.tasks, 0, h);
    i := EarlyHolder(s.tasks, h - p.workers + 1, h);
    SlotsApart(p, Plan(p, s.arrivals), h);
    StartsAscend(p, Plan(p, s.arrivals), i, h - p.workers);
  }

  // More holders than fit between lo and hi: one of them is before lo.
  lemma EarlyHolder(tasks: seq<Task>, lo: nat, hi: nat) returns (i: nat)
    requires lo <= hi <= |tasks|
    requires forall j :: 0 <= j < |tasks| && HoldsPermit(tasks[j]) ==> j < hi
    requires Tally(HoldsPermit, tasks) > hi - lo
    ensures i < lo && HoldsPermit(tasks[i])
  {
    TallyBounds(HoldsPermit, tasks, lo, hi);
    i :| 0 <= i < |tasks| && HoldsPermit(tasks[i]) && !(lo <= i < hi);
  }

  // The first queued task at or before j.
  lemma {:induction false} QueueHead(tasks: seq<Task>, j: nat) returns (h: nat)
    requires j < |tasks| && !HasStarted(tasks[j])
    ensures h <= j && !HasStarted(tasks[h])
    ensures forall i :: 0 <= i < h ==> HasStarted(tasks[i])
  {
    if i :| 0 <= i < j && !HasStarted(tasks[i]) {
      h := QueueHead(tasks, i);
    } else {
      h := j;
    }
  }

  // In a settled state every queued run is booked behind the deadline of a run that holds a permit.
  lemma QueuedWaitsForHolder(p: Policy, s: State, j: nat) returns (i: nat)
    requires Inv(p, s) && Settled(p, s) && j < |s.tasks| && !HasStarted(s.tasks[j])
    ensures i < j && HoldsPermit(s.tasks[i])
    ensures Plan(p, s.arrivals)[j].start >= Plan(p, s.arrivals)[i].start + p.slot
  {
    var h := QueueHead(s.tasks, j);
    assert !MayAcquire(s, h);
    i := HolderAhead(p, s, h);
    PlanFollows(p, s.arrivals);
    StartsAscend(p, Plan(p, s.arrivals), h, j);
  }

  lemma AdvanceKeeps(p: Policy, s: State, to: nat)
    requires Inv(p, s) && Enabled(p, s, Advance(to))
    ensures Inv(p, Step(p, s, Advance(to)))
  {
    var plan := Plan(p, s.arrivals);
    forall j | 0 <= j < |plan|
      ensures Keeps(p, to, plan[j], s.tasks[j])
    {
      assert Keeps(p, s.now, plan[j], s.tasks[j]) && !ReleaseDue(p, s.now, s.tasks[j]);
      if !HasStarted(s.tasks[j]) {
        var i := QueuedWaitsForHolder(p, s, j);
        assert Keeps(p, s.now, plan[i], s.tasks[i]);
      }
    }
  }

  lemma StepKeeps(p: Policy, s: State, e: Event)
    requires Inv(p, s)
    ensures Inv(p, Step(p, s, e))
  {
    if Enabled(p, s, e) {
      match e {
        case Arrive => ArriveKeeps(p, s);
        case Advance(to) => AdvanceKeeps(p, s, to);
        case _ => TaskStepKeeps(p, s, e);
      }
    }
  }

  lemma {:induction false} RunKeeps(p: Policy, events: seq<Event>)
    requires Sensible(p)
    ensures Inv(p, Run(p, events))
  {
    if events != [] {
      RunKeeps(p, events[..|events| - 1]);
      StepKeeps(p, Run(p, events[..|events| - 1]), events[|events| - 1]);
    }
  }
}
