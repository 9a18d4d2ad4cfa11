// The lab server as a step system: any number of handlers and spawned slot tasks, one single-permit
// lane, and a session lock that is released while a worker runs.  Each event is one atomic step; an
// event whose guard does not hold changes nothing, so every list of events is a run.  Whenever a
// request takes effect, the step also appends it to a history kept for the proof.
module LabMachine {
  import opened Counting
  import opened Wasm32
  import opened LabSpec

  datatype Phase =
    | Refused(reply: Reply)                            // answered by the handler, nothing queued
    | Waiting                                          // for the lane (or, for a read, the lock)
    | Entered                                          // lane held, nothing read yet
    | Executing(previous: seq<byte>)                   // snapshot taken, lock released, worker running
    | Returned(previous: seq<byte>, fate: Fate)        // worker gone, lock not yet retaken
    | Decided(reply: Reply, at: nat)                   // took effect as entry `at` of the history
    | Unlaned(reply: Reply, at: nat)                   // lane released
    | Done(reply: Reply, at: nat)                      // pending guard dropped, caller answered
    | Abandoned                                        // the caller of an unspawned handler went away

  // invoked is the length of the history when the request came in.
  datatype Task = Task(request: Request, phase: Phase, invoked: nat)

  datatype State = State(pending: nat, laneFree: bool, store: Store, tasks: seq<Task>, log: seq<Entry>)

  datatype Event =
    | Submit(request: Request)
    | TakeLane(i: nat)
    | Snapshot(i: nat)
    | RunnerEnds(i: nat, fate: Fate)
    | Commit(i: nat)
    | Clear(i: nat)
    | Look(i: nat)
    | DropLane(i: nat)
    | DropGuard(i: nat)
    | Abandon(i: nat)

  function Initial(lab: Lab): State {
    State(0, true, InitialStore(lab), [], [])
  }

  // Chunks and turns are spawned and counted as pending; resets and reads live in their handler.
  predicate Spawned(r: Request) { r.Chunk? || r.Turn? }

  predicate Effected(p: Phase) { p.Decided? || p.Unlaned? || p.Done? }

  predicate HoldsLane(t: Task) {
    t.phase.Entered? || t.phase.Executing? || t.phase.Returned? || t.phase.Decided?
  }

  predicate HoldsGuard(t: Task) {
    Spawned(t.request) && !t.phase.Refused? && !t.phase.Done?
  }

  // The first two conjuncts hold in every reachable state; they make the step total.
  predicate Enabled(lab: Lab, s: State, e: Event) {
    if e.Submit? then true
    else
      && Shaped(lab, s.store)
      && e.i < |s.tasks|
      && WellFormed(lab, s.tasks[e.i].request)
      && var t := s.tasks[e.i];
         match e
         case TakeLane(_) => t.phase.Waiting? && !t.request.Read? && s.laneFree
         case Snapshot(_) => t.phase.Entered? && Spawned(t.request)
         case RunnerEnds(_, _) => t.phase.Executing?
         case Commit(_) => t.phase.Returned? && Spawned(t.request)
         case Clear(_) => t.phase.Entered? && t.request.Reset?
         case Look(_) => t.phase.Waiting? && t.request.Read?
         case DropLane(_) => t.phase.Decided?
         case DropGuard(_) => t.phase.Unlaned?
         case Abandon(_) => !Spawned(t.request) && (t.phase.Waiting? || t.phase.Entered?)
  }

  // The handler's own answer, if the request gets no further.
  function Admission(lab: Lab, pending: nat, r: Request): Phase {
    if !WellFormed(lab, r) then Refused(BadRequest)
    else if Spawned(r) && pending >= MAX_PENDING then Refused(TooMany)
    else Waiting
  }

  function Move(s: State, i: nat, phase: Phase): State
    requires i < |s.tasks|
  {
    s.(tasks := s.tasks[i := s.tasks[i].(phase := phase)])
  }

  // Task i takes effect: new store, history entry, reply.
  function Decide(s: State, i: nat, fate: Fate, effect: (Store, Reply)): State
    requires i < |s.tasks|
  {
    var decided := if s.tasks[i].request.Read? then Done(effect.1, |s.log|) else Decided(effect.1, |s.log|);
    Move(s, i, decided).(store := effect.0, log := s.log + [Entry(i, Op(s.tasks[i].request, fate), effect.1)])
  }

  // What the server writes and answers when it retakes the lock after the worker.
  function CommitEffect(lab: Lab, store: Store, r: Request, previous: seq<byte>, fate: Fate): (Store, Reply)
    requires Spawned(r) && WellFormed(lab, r) && Shaped(lab, store)
  {
    match r
    case Chunk(slot, sequence, chunk) => CommitChunk(store, r, StreamResult(previous, chunk, fate))
    case Turn(slot, role, bit) => CommitTurn(store, slot, TurnResult(lab, previous, IterationsFor(lab, role, bit), fate))
  }

  function TakeSnapshot(lab: Lab, s: State, i: nat): State
    requires Shaped(lab, s.store) && i < |s.tasks|
    requires Spawned(s.tasks[i].request) && WellFormed(lab, s.tasks[i].request)
  {
    match s.tasks[i].request
    case Chunk(slot, sequence, chunk) =>
      var session := s.store.sessions[slot];
      var verdict := Check(session, sequence, |chunk|);
      if verdict.Refuse? then Decide(s, i, Exits, (s.store, verdict.reply))
      else Move(s, i, Executing(session.accumulated))
    case Turn(slot, _, _) => Move(s, i, Executing(s.store.states[slot]))
  }

  function Step(lab: Lab, s: State, e: Event): (s': State)
    ensures Shaped(lab, s.store) ==> Shaped(lab, s'.store)
  {
    if !Enabled(lab, s, e) then s
    else if e.Submit? then
      var phase := Admission(lab, s.pending, e.request);
      s.(pending := s.pending + if Spawned(e.request) && phase.Waiting? then 1 else 0,
         tasks := s.tasks + [Task(e.request, phase, |s.log|)])
    else
      var t := s.tasks[e.i];
      match e
      case TakeLane(i) => Move(s, i, Entered).(laneFree := false)
      case Snapshot(i) => TakeSnapshot(lab, s, i)
      case RunnerEnds(i, fate) => Move(s, i, Returned(t.phase.previous, fate))
      case Commit(i) =>
        Decide(s, i, t.phase.fate, CommitEffect(lab, s.store, t.request, t.phase.previous, t.phase.fate))
      case Clear(i) =>
        Decide(s, i, Exits, (s.store.(sessions := ClearSessions(s.store.sessions, t.request.count)), Normalized))
      case Look(i) =>
        var session := s.store.sessions[t.request.slot];
        Decide(s, i, Exits, (s.store, Report(t.request.slot, session.chunks, session.accumulated)))
      case DropLane(i) => Move(s, i, Unlaned(t.phase.reply, t.phase.at)).(laneFree := true)
      case DropGuard(i) =>
        Move(s, i, Done(t.phase.reply, t.phase.at))
          .(pending := if Spawned(t.request) && s.pending > 0 then s.pending - 1 else s.pending)
      case Abandon(i) => Move(s, i, Abandoned).(laneFree := s.laneFree || t.phase.Entered?)
  }

  function Run(lab: Lab, events: seq<Event>): (s: State)
    ensures Shaped(lab, s.store)
  {
    if events == [] then Initial(lab)
    else Step(lab, Run(lab, events[..|events| - 1]), events[|events| - 1])
  }

  // ---------- the invariant ----------

  // The task is in a phase its kind of request can reach.
  ghost predicate Proper(lab: Lab, t: Task) {
    && (!t.phase.Refused? ==> WellFormed(lab, t.request))
    && (t.phase.Refused? ==> t.phase.reply == if WellFormed(lab, t.request) then TooMany else BadRequest)
    && (t.phase.Executing? || t.phase.Returned? ==> Spawned(t.request))
    && (t.phase.Entered? || t.phase.Decided? || t.phase.Unlaned? ==> !t.request.Read?)
    && (t.phase.Abandoned? ==> !Spawned(t.request))
  }

  // What a task read before its worker ran is still what is stored.
  ghost predicate Current(lab: Lab, store: Store, t: Task)
    requires Proper(lab, t) && Shaped(lab, store)
  {
    t.phase.Executing? || t.phase.Returned? ==>
      match t.request
      case Chunk(slot, sequence, chunk) =>
        && store.sessions[slot].accumulated == t.phase.previous
        && store.sessions[slot].nextSequence == sequence
        && |t.phase.previous| + |chunk| <= STREAM_STATE_BYTES
      case Turn(slot, _, _) => store.states[slot] == t.phase.previous
  }

  // A task that took effect did so exactly as the history says, and after it was submitted.
  ghost predicate Recorded(log: seq<Entry>, i: nat, t: Task) {
    && t.invoked <= |log|
    && (Effected(t.phase) ==>
          && t.invoked <= t.phase.at < |log|
          && log[t.phase.at].id == i
          && log[t.phase.at].op.request == t.request
          && log[t.phase.at].reply == t.phase.reply)
  }

  ghost predicate Attributed(s: State, k: nat)
    requires k < |s.log|
  {
    var id := s.log[k].id;
    id < |s.tasks| && Effected(s.tasks[id].phase) && s.tasks[id].phase.at == k
  }

  ghost predicate LaneIsExclusive(s: State) {
    && (s.laneFree ==> forall i :: 0 <= i < |s.tasks| ==> !HoldsLane(s.tasks[i]))
    && (!s.laneFree ==> exists i :: 0 <= i < |s.tasks| && HoldsLane(s.tasks[i]))
    && forall i, j :: 0 <= i < |s.tasks| && 0 <= j < |s.tasks| && HoldsLane(s.tasks[i]) && HoldsLane(s.tasks[j]) ==> i == j
  }

  ghost predicate Inv(lab: Lab, s: State) {
    && Shaped(lab, s.store)
    && Legal(lab, s.log) && Replay(lab, s.log) == s.store
    && LaneIsExclusive(s)
    && s.pending == Tally(HoldsGuard, s.tasks) <= MAX_PENDING
    && (forall i :: 0 <= i < |s.tasks| ==> Sound(lab, s, i))
    && (forall k :: 0 <= k < |s.log| ==> Attributed(s, k))
  }

  ghost predicate Sound(lab: Lab, s: State, i: nat)
    requires Shaped(lab, s.store) && i < |s.tasks|
  {
    Proper(lab, s.tasks[i]) && Current(lab, s.store, s.tasks[i]) && Recorded(s.log, i, s.tasks[i])
  }

  // ---------- every step keeps it ----------

  // Task i moves to a phase that has taken effect only if it had before; store and history stay.
  lemma QuietMove(lab: Lab, s: State, i: nat, phase: Phase, s': State)
    requires Inv(lab, s) && i < |s.tasks|
    requires s'.tasks == s.tasks[i := s.tasks[i].(phase := phase)] && s'.store == s.store && s'.log == s.log
    requires Proper(lab, s'.tasks[i]) && Current(lab, s.store, s'.tasks[i])
    requires Effected(phase) <==> Effected(s.tasks[i].phase)
    requires Effected(phase) ==> phase.at == s.tasks[i].phase.at && phase.reply == s.tasks[i].phase.reply
    requires LaneIsExclusive(s')
    requires s'.pending == s.pending - (if HoldsGuard(s.tasks[i]) then 1 else 0) + (if HoldsGuard(s'.tasks[i]) then 1 else 0)
    requires HoldsGuard(s'.tasks[i]) ==> HoldsGuard(s.tasks[i])
    ensures Inv(lab, s')
  {
    TallyUpdate(HoldsGuard, s.tasks, i, s'.tasks[i]);
    forall j | 0 <= j < |s'.tasks|
      ensures Sound(lab, s', j)
    {
      assert Sound(lab, s, j);
    }
    forall k | 0 <= k < |s'.log|
      ensures Attributed(s', k)
    {
      assert Attributed(s, k);
    }
  }

  // Moving the holder of the lane, or freeing it, keeps the lane exclusive.
  lemma LaneMove(s: State, i: nat, t: Task, s': State)
    requires LaneIsExclusive(s) && i < |s.tasks|
    requires s'.tasks == s.tasks[i := t]
    requires HoldsLane(t) ==> HoldsLane(s.tasks[i]) || s.laneFree
    requires s'.laneFree == (if HoldsLane(t) then false else if HoldsLane(s.tasks[i]) then true else s.laneFree)
    ensures LaneIsExclusive(s')
  {
    if HoldsLane(t) {
      assert HoldsLane(s'.tasks[i]);
    } else if !HoldsLane(s.tasks[i]) && !s.laneFree {
      var j :| 0 <= j < |s.tasks| && HoldsLane(s.tasks[j]);
      assert HoldsLane(s'.tasks[j]);
    }
  }

  // A request that takes effect while it alone holds the lane, exactly as the atomic object would.
  lemma DecideKeeps(lab: Lab, s: State, i: nat, fate: Fate, effect: (Store, Reply))
    requires Inv(lab, s) && i < |s.tasks|
    requires WellFormed(lab, s.tasks[i].request) && !Effected(s.tasks[i].phase)
    requires s.tasks[i].request.Read? ==> s.tasks[i].phase.Waiting?
    requires HoldsLane(s.tasks[i]) || (effect.0 == s.store && s.tasks[i].request.Read?)
    requires !s.tasks[i].phase.Refused?
    requires effect == Atomic(lab, s.store, Op(s.tasks[i].request, fate))
    ensures Inv(lab, Decide(s, i, fate, effect))
  {
    hide Atomic, Replay, Answered;
    var s' := Decide(s, i, fate, effect);
    LegalExtend(lab, s.log, s'.log[|s.log|]);
    TallyUpdate(HoldsGuard, s.tasks, i, s'.tasks[i]);
    LaneMove(s, i, s'.tasks[i], s');
    forall j | 0 <= j < |s'.tasks|
      ensures Sound(lab, s', j)
    {
      assert Sound(lab, s, j);
      assert Sound(lab, s, i);
    }
    forall k | 0 <= k < |s'.log|
      ensures Attributed(s', k)
    {
      if k < |s.log| {
        assert Attributed(s, k);
      }
    }
  }

  // A new task that holds nothing but possibly its pending guard.
  lemma AppendKeeps(lab: Lab, s: State, t: Task, pending: nat)
    requires Inv(lab, s) && Proper(lab, t) && !HoldsLane(t) && !Effected(t.phase) && t.invoked == |s.log|
    requires pending == s.pending + (if HoldsGuard(t) then 1 else 0) <= MAX_PENDING
    ensures Inv(lab, s.(tasks := s.tasks + [t], pending := pending))
  {
    hide Atomic, Replay, Legal, WellFormed, Shaped;
    var s' := s.(tasks := s.tasks + [t], pending := pending);
    assert s'.tasks[..|s.tasks|] == s.tasks;
    forall j | 0 <= j < |s'.tasks|
      ensures Sound(lab, s', j)
    {
      if j < |s.tasks| {
        assert Sound(lab, s, j);
      }
    }
    forall k | 0 <= k < |s'.log|
      ensures Attributed(s', k)
    {
      assert Attributed(s, k);
    }
    if !s.laneFree {
      var j :| 0 <= j < |s.tasks| && HoldsLane(s.tasks[j]);
      assert HoldsLane(s'.tasks[j]);
    }
  }

  lemma SubmitKeeps(lab: Lab, s: State, r: Request)
    requires Inv(lab, s)
    ensures Inv(lab, Step(lab, s, Submit(r)))
  {
    hide Inv, WellFormed;
    var s' := Step(lab, s, Submit(r));
    PendingIsCapped(lab, s);
    AppendKeeps(lab, s, s'.tasks[|s.tasks|], s'.pending);
  }

  lemma PendingIsCapped(lab: Lab, s: State)
    requires Inv(lab, s)
    ensures s.pending <= MAX_PENDING
  {
  }

  lemma SnapshotKeeps(lab: Lab, s: State, i: nat)
    requires Inv(lab, s) && Enabled(lab, s, Snapshot(i))
    ensures Inv(lab, Step(lab, s, Snapshot(i)))
  {
    var s' := Step(lab, s, Snapshot(i));
    assert Sound(lab, s, i);
    var r := s.tasks[i].request;
    if r.Chunk? && Check(s.store.sessions[r.slot], r.sequence, |r.chunk|).Refuse? {
      DecideKeeps(lab, s, i, Exits, Atomic(lab, s.store, Op(r, Exits)));
    } else {
      LaneMove(s, i, s'.tasks[i], s');
      QuietMove(lab, s, i, s'.tasks[i].phase, s');
    }
  }

  // The commit of a worker's result is the atomic effect: nothing moved since the snapshot.
  lemma CommitIsAtomic(lab: Lab, s: State, i: nat)
    requires Inv(lab, s) && Enabled(lab, s, Commit(i))
    ensures var t := s.tasks[i];
            CommitEffect(lab, s.store, t.request, t.phase.previous, t.phase.fate)
            == Atomic(lab, s.store, Op(t.request, t.phase.fate))
  {
    assert Sound(lab, s, i);
  }

  lemma StepKeeps(lab: Lab, s: State, e: Event)
    requires Inv(lab, s)
    ensures Inv(lab, Step(lab, s, e))
  {
    if Enabled(lab, s, e) {
      if e.Submit? {
        SubmitKeeps(lab, s, e.request);
      } else {
        TaskStepKeeps(lab, s, e);
      }
    }
  }

  lemma TaskStepKeeps(lab: Lab, s: State, e: Event)
    requires Inv(lab, s) && Enabled(lab, s, e) && !e.Submit?
    ensures Inv(lab, Step(lab, s, e))
  {
    assert Sound(lab, s, e.i);
    var t := s.tasks[e.i];
    if e.Snapshot? {
      SnapshotKeeps(lab, s, e.i);
    } else if e.Commit? {
      CommitIsAtomic(lab, s, e.i);
      DecideKeeps(lab, s, e.i, t.phase.fate, Atomic(lab, s.store, Op(t.request, t.phase.fate)));
    } else if e.Clear? || e.Look? {
      DecideKeeps(lab, s, e.i, Exits, Atomic(lab, s.store, Op(t.request, Exits)));
    } else {
      QuietStepKeeps(lab, s, e);
    }
  }

  lemma QuietStepKeeps(lab: Lab, s: State, e: Event)
    requires Inv(lab, s) && Enabled(lab, s, e)
    requires e.TakeLane? || e.RunnerEnds? || e.DropLane? || e.DropGuard? || e.Abandon?
    ensures Inv(lab, Step(lab, s, e))
  {
    hide Atomic, Replay, Answered, CommitEffect;
    var s' := Step(lab, s, e);
    assert Sound(lab, s, e.i);
    LaneMove(s, e.i, s'.tasks[e.i], s');
    if e.DropGuard? {
      GuardIsCounted(s, e.i);
    }
    QuietMove(lab, s, e.i, s'.tasks[e.i].phase, s');
  }

  lemma GuardIsCounted(s: State, i: nat)
    requires i < |s.tasks| && s.pending == Tally(HoldsGuard, s.tasks)
    ensures HoldsGuard(s.tasks[i]) ==> s.pending > 0
  {
    TallyBounds(HoldsGuard, s.tasks, i, i + 1);
  }

  lemma {:induction false} RunKeeps(lab: Lab, events: seq<Event>)
    ensures Inv(lab, Run(lab, events))
  {
    if events != [] {
      RunKeeps(lab, events[..|events| - 1]);
      StepKeeps(lab, Run(lab, events[..|events| - 1]), events[|events| - 1]);
    }
  }
}
