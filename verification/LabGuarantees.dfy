// What every run of the lab server guarantees, however its steps interleave.
module LabGuarantees {
  import opened Counting
  import opened LabSpec
  import opened LabMachine
  import SequentialProbe

  // ---------- linearizability ----------

  // The caller of request i was answered exactly as the entry made on its behalf says.
  ghost predicate AnswerRecorded(s: State, i: nat)
    requires i < |s.tasks|
  {
    var t := s.tasks[i];
    t.phase.Done? ==>
      t.phase.at < |s.log| && s.log[t.phase.at] == Entry(i, Op(t.request, s.log[t.phase.at].op.fate), t.phase.reply)
  }

  // Every run is explained by a legal sequential history: it ends in the same store, every answered
  // request occurs in it once with the reply its caller got, and nothing else occurs in it.
  lemma Linearizable(lab: Lab, events: seq<Event>)
    ensures var s := Run(lab, events);
            && Legal(lab, s.log)
            && s.store == Replay(lab, s.log)
            && (forall i :: 0 <= i < |s.tasks| ==> AnswerRecorded(s, i))
            && (forall k :: 0 <= k < |s.log| ==> Attributed(s, k))
  {
    RunKeeps(lab, events);
    var s := Run(lab, events);
    forall i | 0 <= i < |s.tasks|
      ensures AnswerRecorded(s, i)
    {
      assert Sound(lab, s, i);
    }
  }

  // One state is a later state of the other: nothing that was written down is ever revised.
  ghost predicate Later(s: State, u: State) {
    && s.log <= u.log
    && |s.tasks| <= |u.tasks|
    && (forall i :: 0 <= i < |s.tasks| ==> Continues(s.tasks[i], u.tasks[i]))
    && (forall i :: |s.tasks| <= i < |u.tasks| ==> u.tasks[i].invoked >= |s.log|)
  }

  ghost predicate Continues(t: Task, u: Task) {
    && t.request == u.request && t.invoked == u.invoked
    && (t.phase.Refused? ==> u.phase == t.phase)
    && (t.phase.Abandoned? ==> u.phase == t.phase)
    && (Effected(t.phase) ==> Effected(u.phase) && u.phase.at == t.phase.at && u.phase.reply == t.phase.reply)
  }

  lemma StepIsLater(lab: Lab, s: State, e: Event)
    ensures Later(s, Step(lab, s, e))
  {
    hide CommitEffect, ClearSessions, Check, Admission;
  }

  lemma {:induction false} RunIsLater(lab: Lab, events: seq<Event>, more: seq<Event>)
    ensures Later(Run(lab, events), Run(lab, events + more))
  {
    hide Step, Later;
    if more == [] {
      assert events + more == events;
      IsLaterThanItself(Run(lab, events));
    } else {
      var front, e := more[..|more| - 1], more[|more| - 1];
      RunIsLater(lab, events, front);
      assert (events + more)[..|events + more| - 1] == events + front;
      StepIsLater(lab, Run(lab, events + front), e);
      LaterIsTransitive(Run(lab, events), Run(lab, events + front), Run(lab, events + more));
    }
  }

  lemma IsLaterThanItself(s: State)
    ensures Later(s, s)
  {
  }

  lemma LaterIsTransitive(s: State, t: State, u: State)
    requires Later(s, t) && Later(t, u)
    ensures Later(s, u)
  {
    forall i | 0 <= i < |s.tasks|
      ensures Continues(s.tasks[i], u.tasks[i])
    {
      assert Continues(s.tasks[i], t.tasks[i]) && Continues(t.tasks[i], u.tasks[i]);
    }
  }

  // The history respects real time: a request answered before another is even submitted comes first.
  lemma RealTimeOrder(lab: Lab, events: seq<Event>, more: seq<Event>, a: nat, b: nat)
    requires a < |Run(lab, events).tasks| && Run(lab, events).tasks[a].phase.Done?
    requires |Run(lab, events).tasks| <= b < |Run(lab, events + more).tasks|
    requires Effected(Run(lab, events + more).tasks[b].phase)
    ensures var tasks := Run(lab, events + more).tasks;
            Effected(tasks[a].phase) && tasks[a].phase.at < tasks[b].phase.at
  {
    var s, u := Run(lab, events), Run(lab, events + more);
    RunKeeps(lab, events);
    RunKeeps(lab, events + more);
    RunIsLater(lab, events, more);
    assert Sound(lab, s, a) && Sound(lab, u, b);
    assert Continues(s.tasks[a], u.tasks[a]);
  }

  // Although the session lock is free while a worker runs, nothing moves under it: when the result
  // is about to be written, the snapshot is still the stored state and the sequence number still fits.
  lemma SnapshotStillCurrent(lab: Lab, events: seq<Event>, i: nat)
    requires i < |Run(lab, events).tasks| && Run(lab, events).tasks[i].phase.Returned?
    ensures var s := Run(lab, events);
            var t := s.tasks[i];
            && !s.laneFree
            && WellFormed(lab, t.request)
            && match t.request
               case Chunk(slot, sequence, chunk) =>
                 && s.store.sessions[slot].accumulated == t.phase.previous
                 && s.store.sessions[slot].nextSequence == sequence
               case Turn(slot, _, _) => s.store.states[slot] == t.phase.previous
               case _ => false
  {
    RunKeeps(lab, events);
    assert Sound(lab, Run(lab, events), i);
  }

  // ---------- admission ----------

  // What the handlers refuse as malformed.
  ghost predicate Malformed(lab: Lab, r: Request) {
    match r
    case Chunk(slot, _, chunk) =>
      slot >= lab.slots || |chunk| == 0 || |chunk| > 1024 || exists i :: 0 <= i < |chunk| && chunk[i] >= 128
    case Turn(slot, role, bit) => slot >= lab.slots || bit >= 2 || (role == Probe && bit == 1)
    case Reset(count) => count == 0 || count > lab.slots
    case Read(slot) => slot >= lab.slots
  }

  // Only the shape of a request and the number of live guards decide what its handler does: a malformed one
  // is a bad request, a chunk or a turn is turned away exactly while 256 guards are alive, and nothing
  // else ever is.
  lemma AdmittedBelowTheCap(lab: Lab, events: seq<Event>, r: Request)
    ensures var s, u := Run(lab, events), Run(lab, events + [Submit(r)]);
            var full := (r.Chunk? || r.Turn?) && Tally(HoldsGuard, s.tasks) == 256;
            && |u.tasks| == |s.tasks| + 1
            && u.tasks[..|s.tasks|] == s.tasks
            && u.store == s.store && u.log == s.log && u.laneFree == s.laneFree
            && var t := u.tasks[|s.tasks|];
               && t.request == r
               && t.invoked == |s.log|
               && t.phase == if Malformed(lab, r) then Refused(BadRequest)
                             else if full then Refused(TooMany)
                             else Waiting
  {
    hide Inv;
    assert (events + [Submit(r)])[..|events|] == events;
    RunKeeps(lab, events);
    GuardsAreCounted(lab, Run(lab, events));
  }

  lemma GuardsAreCounted(lab: Lab, s: State)
    requires Inv(lab, s)
    ensures s.pending == Tally(HoldsGuard, s.tasks) <= 256
  {
  }

  // ---------- leaving and getting on ----------

  // The caller of a reset or a read may leave at any moment before it takes effect: the request is dropped
  // without a trace, and with it the lane if it held it.
  lemma CallerMayLeave(lab: Lab, events: seq<Event>, i: nat)
    requires i < |Run(lab, events).tasks|
    requires var t := Run(lab, events).tasks[i];
             (t.request.Reset? || t.request.Read?) && (t.phase.Waiting? || t.phase.Entered?)
    ensures var s, u := Run(lab, events), Run(lab, events + [Abandon(i)]);
            && u.tasks == s.tasks[i := s.tasks[i].(phase := Abandoned)]
            && u.store == s.store && u.log == s.log && u.pending == s.pending
            && u.laneFree == (s.laneFree || s.tasks[i].phase.Entered?)
  {
    hide Inv, WellFormed, Shaped, Step;
    assert (events + [Abandon(i)])[..|events|] == events;
    IsWellFormed(lab, events, i);
    AbandonStep(lab, Run(lab, events), i);
  }

  lemma AbandonStep(lab: Lab, s: State, i: nat)
    requires Enabled(lab, s, Abandon(i))
    ensures Step(lab, s, Abandon(i)) == Move(s, i, Abandoned).(laneFree := s.laneFree || s.tasks[i].phase.Entered?)
  {
    hide WellFormed, Shaped;
  }

  // Whoever waits gets on, in any order: a read at once and with what its session holds then, anything else
  // as soon as the lane is free.
  lemma WaitingGetsOn(lab: Lab, events: seq<Event>, i: nat)
    requires i < |Run(lab, events).tasks| && Run(lab, events).tasks[i].phase.Waiting?
    ensures var s := Run(lab, events);
            var r := s.tasks[i].request;
            && (r.Read? ==>
                  && r.slot < |s.store.sessions|
                  && var session := s.store.sessions[r.slot];
                     Run(lab, events + [Look(i)]).tasks[i].phase
                     == Done(Report(r.slot, session.chunks, session.accumulated), |s.log|))
            && (!r.Read? && s.laneFree ==>
                  Run(lab, events + [TakeLane(i)])
                  == s.(laneFree := false, tasks := s.tasks[i := s.tasks[i].(phase := Entered)]))
  {
    hide Inv, WellFormed, TakeSnapshot, CommitEffect, ClearSessions;
    assert (events + [Look(i)])[..|events|] == events;
    assert (events + [TakeLane(i)])[..|events|] == events;
    IsWellFormed(lab, events, i);
  }

  lemma IsWellFormed(lab: Lab, events: seq<Event>, i: nat)
    requires i < |Run(lab, events).tasks| && !Run(lab, events).tasks[i].phase.Refused?
    ensures WellFormed(lab, Run(lab, events).tasks[i].request)
  {
    RunKeeps(lab, events);
    assert Sound(lab, Run(lab, events), i);
  }

  // ---------- the runner's fate ----------

  // The runner of task i ended with this fate, and the history says so once the task has taken effect.
  ghost predicate Reports(s: State, i: nat, fate: Fate) {
    && i < |s.tasks|
    && var phase := s.tasks[i].phase;
       || (phase.Returned? && phase.fate == fate)
       || (Effected(phase) && phase.at < |s.log| && s.log[phase.at].op.fate == fate)
  }

  lemma StepReports(lab: Lab, s: State, e: Event, i: nat, fate: Fate)
    requires Reports(s, i, fate)
    ensures Reports(Step(lab, s, e), i, fate)
  {
    hide CommitEffect, ClearSessions, Check, Admission, WellFormed, Shaped;
  }

  lemma {:induction false} ReportStays(lab: Lab, events: seq<Event>, more: seq<Event>, i: nat, fate: Fate)
    requires Reports(Run(lab, events), i, fate)
    ensures Reports(Run(lab, events + more), i, fate)
  {
    hide Step, Reports;
    if more == [] {
      assert events + more == events;
    } else {
      var front, e := more[..|more| - 1], more[|more| - 1];
      ReportStays(lab, events, front, i, fate);
      assert (events + more)[..|events + more| - 1] == events + front;
      StepReports(lab, Run(lab, events + front), e, i, fate);
    }
  }

  // A runner may end in any way, and whatever the server does next, the request takes effect, if it does,
  // with exactly the fate its runner had.
  lemma FateIsRecorded(lab: Lab, events: seq<Event>, i: nat, fate: Fate, more: seq<Event>)
    requires i < |Run(lab, events).tasks| && Run(lab, events).tasks[i].phase.Executing?
    ensures var ended := events + [RunnerEnds(i, fate)];
            var u := Run(lab, ended + more);
            && i < |Run(lab, ended).tasks| && i < |u.tasks|
            && Run(lab, ended).tasks[i].phase == Returned(Run(lab, events).tasks[i].phase.previous, fate)
            && (Effected(u.tasks[i].phase) ==>
                  u.tasks[i].phase.at < |u.log| && u.log[u.tasks[i].phase.at].op.fate == fate)
  {
    hide Inv;
    var ended := events + [RunnerEnds(i, fate)];
    assert ended[..|events|] == events;
    IsWellFormed(lab, events, i);
    ReportStays(lab, ended, more, i, fate);
  }

  // ---------- refinement to append logs ----------

  // Every answer follows from the append log of the slot at the point where the request took effect.
  lemma AnswersFollowTheLog(lab: Lab, events: seq<Event>, i: nat)
    requires i < |Run(lab, events).tasks| && Run(lab, events).tasks[i].phase.Done?
    ensures var s := Run(lab, events);
            var t := s.tasks[i];
            && t.phase.at < |s.log|
            && t.phase.reply == LogReply(s.log[t.phase.at].op, Accepted(s.log[..t.phase.at], SlotOf(t.request)))
  {
    hide Atomic, LogReply;
    RunKeeps(lab, events);
    var s := Run(lab, events);
    assert Sound(lab, s, i);
    RepliesFollowTheLog(lab, s.log, s.tasks[i].phase.at);
  }

  lemma StoresAreLogs(lab: Lab, events: seq<Event>, slot: nat)
    requires Served(lab) && slot < lab.slots
    ensures var s := Run(lab, events);
            && s.store.sessions[slot] == SessionOf(Accepted(s.log, slot))
            && s.store.sessions[slot].chunks == s.store.sessions[slot].nextSequence <= |s.store.sessions[slot].accumulated|
            && |s.store.sessions[slot].accumulated| <= STREAM_STATE_BYTES
            && s.store.states[slot] == SequentialProbe.Parity(SuccessfulTurns(lab, s.log, slot), lab.stateBytes)
  {
    RunKeeps(lab, events);
    var s := Run(lab, events);
    SessionsAreAppendLogs(lab, s.log, slot);
    StatesAreParities(lab, s.log, slot);
  }

  // A session changes only when a chunk for it completes or a reset covers it.
  lemma OnlyCompletionWrites(lab: Lab, events: seq<Event>, e: Event, slot: nat)
    requires slot < lab.slots
    requires Run(lab, events).store.sessions[slot] != Run(lab, events + [e]).store.sessions[slot]
    ensures e.Commit? || e.Clear?
    ensures var s := Run(lab, events + [e]);
            && e.i < |s.tasks| && s.tasks[e.i].phase.Decided?
            && match s.tasks[e.i].request
               case Chunk(n, _, _) =>
                 n == slot && s.tasks[e.i].phase.reply.Ran? && s.tasks[e.i].phase.reply.outcome == Complete
               case Reset(count) => slot < count
               case _ => false
  {
    assert (events + [e])[..|events|] == events;
    RunKeeps(lab, events);
    if !e.Submit? && e.i < |Run(lab, events).tasks| {
      assert Sound(lab, Run(lab, events), e.i);
    }
  }

  // ---------- the lane and the pending counter are never leaked ----------

  // Once no handler or slot task is in flight, the lane is free again and nothing is pending.
  lemma QuiescentIsClean(lab: Lab, events: seq<Event>)
    requires forall i :: 0 <= i < |Run(lab, events).tasks| ==>
               var p := Run(lab, events).tasks[i].phase; p.Done? || p.Refused? || p.Abandoned?
    ensures Run(lab, events).laneFree && Run(lab, events).pending == 0
  {
    RunKeeps(lab, events);
    var s := Run(lab, events);
    forall i | 0 <= i < |s.tasks|
      ensures !HoldsGuard(s.tasks[i]) && !HoldsLane(s.tasks[i])
    {
      assert Sound(lab, s, i);
    }
    TallyBounds(HoldsGuard, s.tasks, 0, 0);
  }
}
