// The lab never gets stuck: whatever has been submitted can be finished by the server alone.
module LabProgress {
  import opened Counting
  import opened LabSpec
  import opened LabMachine
  import LabGuarantees

  // Steps the server takes by itself.  A worker is not asked for help: its deadline kills it.
  predicate Unaided(e: Event) {
    !e.Submit? && !e.Abandon? && (e.RunnerEnds? ==> e.fate == IsKilled)
  }

  predicate Finished(t: Task) {
    t.phase.Done? || t.phase.Refused? || t.phase.Abandoned?
  }

  function Remaining(t: Task): nat {
    match t.phase
    case Waiting => 6
    case Entered => 5
    case Executing(_) => 4
    case Returned(_, _) => 3
    case Decided(_, _) => 2
    case Unlaned(_, _) => 1
    case _ => 0
  }

  // What the holder of the lane does next.
  function HolderStep(t: Task, i: nat): Event {
    if t.phase.Entered? then if t.request.Reset? then Clear(i) else Snapshot(i)
    else if t.phase.Executing? then RunnerEnds(i, IsKilled)
    else if t.phase.Returned? then Commit(i)
    else DropLane(i)
  }

  // What an unfinished task without the lane does next when the lane is free.
  function FreeStep(t: Task, i: nat): Event {
    if t.phase.Unlaned? then DropGuard(i) else if t.request.Read? then Look(i) else TakeLane(i)
  }

  // An event that moves task i on and changes no other.
  ghost predicate Advances(lab: Lab, s: State, e: Event, i: nat) {
    && Unaided(e) && Enabled(lab, s, e) && i < |s.tasks|
    && |Step(lab, s, e).tasks| == |s.tasks|
    && Step(lab, s, e).tasks == s.tasks[i := Step(lab, s, e).tasks[i]]
    && Remaining(Step(lab, s, e).tasks[i]) < Remaining(s.tasks[i])
  }

  lemma HolderAdvances(lab: Lab, s: State, i: nat)
    requires Inv(lab, s) && i < |s.tasks| && HoldsLane(s.tasks[i])
    ensures Advances(lab, s, HolderStep(s.tasks[i], i), i)
  {
    hide Replay, Legal, Attributed, CommitEffect;
    assert Sound(lab, s, i);
  }

  lemma FreeAdvances(lab: Lab, s: State, i: nat)
    requires Inv(lab, s) && s.laneFree && i < |s.tasks| && !Finished(s.tasks[i])
    ensures Advances(lab, s, FreeStep(s.tasks[i], i), i)
  {
    hide Replay, Legal, Attributed;
    assert Sound(lab, s, i);
  }

  // With work left, some unaided step is possible and brings the end nearer.
  lemma SomeStep(lab: Lab, s: State, j: nat) returns (e: Event)
    requires Inv(lab, s) && j < |s.tasks| && !Finished(s.tasks[j])
    ensures Unaided(e) && Enabled(lab, s, e)
    ensures |Step(lab, s, e).tasks| == |s.tasks|
    ensures Total(Remaining, Step(lab, s, e).tasks) < Total(Remaining, s.tasks)
  {
    var i := j;
    if s.laneFree {
      FreeAdvances(lab, s, j);
      e := FreeStep(s.tasks[j], j);
    } else {
      i :| 0 <= i < |s.tasks| && HoldsLane(s.tasks[i]);
      HolderAdvances(lab, s, i);
      e := HolderStep(s.tasks[i], i);
    }
    hide Inv, Step;
    assert Advances(lab, s, e, i);
    TotalUpdate(Remaining, s.tasks, i, Step(lab, s, e).tasks[i]);
  }

  // ---------- every schedule ----------

  // Whatever the server, a worker or a leaving caller does, one task moves on.
  lemma StepMovesOn(lab: Lab, s: State, e: Event)
    requires Inv(lab, s) && Enabled(lab, s, e) && !e.Submit?
    ensures |Step(lab, s, e).tasks| == |s.tasks|
    ensures Step(lab, s, e).tasks == s.tasks[e.i := Step(lab, s, e).tasks[e.i]]
    ensures Remaining(Step(lab, s, e).tasks[e.i]) < Remaining(s.tasks[e.i])
  {
    hide Replay, Legal, Attributed, CommitEffect, Current;
    assert Sound(lab, s, e.i);
  }

  lemma EveryStepHelps(lab: Lab, s: State, e: Event)
    requires Inv(lab, s) && Enabled(lab, s, e) && !e.Submit?
    ensures |Step(lab, s, e).tasks| == |s.tasks|
    ensures Total(Remaining, Step(lab, s, e).tasks) < Total(Remaining, s.tasks)
  {
    StepMovesOn(lab, s, e);
    hide Inv, Step;
    TotalUpdate(Remaining, s.tasks, e.i, Step(lab, s, e).tasks[e.i]);
  }

  // Step k of the schedule is possible and no new request.
  ghost predicate Takes(lab: Lab, events: seq<Event>, more: seq<Event>, k: nat)
    requires k < |more|
  {
    !more[k].Submit? && Enabled(lab, Run(lab, events + more[..k]), more[k])
  }

  ghost predicate Schedule(lab: Lab, events: seq<Event>, more: seq<Event>) {
    forall k :: 0 <= k < |more| ==> Takes(lab, events, more, k)
  }

  lemma {:induction false} ScheduleIsShort(lab: Lab, events: seq<Event>, more: seq<Event>)
    requires Schedule(lab, events, more)
    ensures |Run(lab, events + more).tasks| == |Run(lab, events).tasks|
    ensures |more| + Total(Remaining, Run(lab, events + more).tasks) <= Total(Remaining, Run(lab, events).tasks)
  {
    hide Inv, Step, Enabled;
    if more == [] {
      assert events + more == events;
    } else {
      var last := |more| - 1;
      forall k | 0 <= k < last
        ensures Takes(lab, events, more[..last], k)
      {
        assert Takes(lab, events, more, k) && more[..last][..k] == more[..k];
      }
      ScheduleIsShort(lab, events, more[..last]);
      RunKeeps(lab, events + more[..last]);
      assert Takes(lab, events, more, last);
      EveryStepHelps(lab, Run(lab, events + more[..last]), more[last]);
      assert (events + more)[..|events + more| - 1] == events + more[..last];
    }
  }

  // From every reachable state every schedule without new requests comes to an end, after no more steps
  // than the tasks have left, and it can only end when every chunk, turn, reset and read is finished, the
  // lane is free and nothing is pending.
  lemma EveryScheduleFinishes(lab: Lab, events: seq<Event>, more: seq<Event>)
    requires Schedule(lab, events, more)
    ensures |more| <= Total(Remaining, Run(lab, events).tasks)
    ensures var s := Run(lab, events + more);
            || (exists e :: Unaided(e) && Enabled(lab, s, e))
            || (s.laneFree && s.pending == 0 && forall i :: 0 <= i < |s.tasks| ==> Finished(s.tasks[i]))
  {
    hide Inv, Step;
    ScheduleIsShort(lab, events, more);
    var s := Run(lab, events + more);
    RunKeeps(lab, events + more);
    if j :| 0 <= j < |s.tasks| && !Finished(s.tasks[j]) {
      var e := SomeStep(lab, s, j);
    } else {
      LabGuarantees.QuiescentIsClean(lab, events + more);
    }
  }

  // From every reachable state some continuation of unaided steps finishes every chunk, turn, reset and
  // read, after which the lane is free and nothing is pending.
  lemma {:induction false} Drains(lab: Lab, events: seq<Event>) returns (more: seq<Event>)
    ensures forall e :: e in more ==> Unaided(e)
    ensures var s := Run(lab, events + more);
            && |s.tasks| == |Run(lab, events).tasks|
            && (forall i :: 0 <= i < |s.tasks| ==> Finished(s.tasks[i]))
            && s.laneFree && s.pending == 0
    decreases Total(Remaining, Run(lab, events).tasks)
  {
    hide Inv, Step, Unaided;
    var s := Run(lab, events);
    RunKeeps(lab, events);
    if j :| 0 <= j < |s.tasks| && !Finished(s.tasks[j]) {
      var e := SomeStep(lab, s, j);
      assert (events + [e])[..|events|] == events;
      var rest := Drains(lab, events + [e]);
      more := [e] + rest;
      assert events + more == events + [e] + rest;
    } else {
      more := [];
      assert events + more == events;
      LabGuarantees.QuiescentIsClean(lab, events);
    }
  }
}
