// What the stored states give away of the transmitted bit: nothing, exactly when the configured iteration
// counts are all accepted by the runner or all rejected.
module LabSecrecy {
  import opened LabSpec
  import opened LabMachine
  import SequentialProbe
  import opened Wasm32

  // Requests that differ at most in what a turn transmits, its role and bit.
  function ButForRoleAndBit(): (Request, Request) -> bool {
    (a: Request, b: Request) => if a.Turn? then b.Turn? && a.slot == b.slot else a == b
  }

  // Requests that differ at most in the bit of a turn.
  function ButForBit(): (Request, Request) -> bool {
    (a: Request, b: Request) => if a.Turn? then b.Turn? && a.slot == b.slot && a.role == b.role else a == b
  }

  // Histories of such requests, with the same fates of the workers.
  ghost predicate SameRun(alike: (Request, Request) -> bool, a: seq<Entry>, b: seq<Entry>) {
    |a| == |b| && forall k :: 0 <= k < |a| ==> SameOp(alike, a[k].op, b[k].op)
  }

  predicate SameOp(alike: (Request, Request) -> bool, a: Op, b: Op) {
    a.fate == b.fate && alike(a.request, b.request)
  }

  // Legal histories that differ in no other way leave the same states behind.
  ghost predicate Hidden(lab: Lab, alike: (Request, Request) -> bool) {
    forall a: seq<Entry>, b: seq<Entry>, slot: nat ::
      Legal(lab, a) && Legal(lab, b) && SameRun(alike, a, b) && slot < lab.slots ==> SameState(lab, a, b, slot)
  }

  ghost predicate SameState(lab: Lab, a: seq<Entry>, b: seq<Entry>, slot: nat)
    requires Asked(lab, a) && Asked(lab, b) && slot < lab.slots
  {
    Replay(lab, a).states[slot] == Replay(lab, b).states[slot]
  }

  // All configured counts lie on the same side of what the runner accepts.
  predicate OneSide(lab: Lab) {
    Accepts(lab.hot) == Accepts(lab.cold) == Accepts(lab.control) == Accepts(lab.probe)
  }

  // The two requests fare alike as turns.
  predicate SameSide(lab: Lab, a: Request, b: Request) {
    a.Turn? && b.Turn? ==>
      Accepts(IterationsFor(lab, a.role, a.bit)) == Accepts(IterationsFor(lab, b.role, b.bit))
  }

  lemma {:induction false} SameSuccesses(lab: Lab, a: seq<Entry>, b: seq<Entry>, slot: nat)
    requires SameRun(ButForRoleAndBit(), a, b)
    requires forall k :: 0 <= k < |a| ==> SameSide(lab, a[k].op.request, b[k].op.request)
    ensures SuccessfulTurns(lab, a, slot) == SuccessfulTurns(lab, b, slot)
  {
    hide IterationsFor;
    if a != [] {
      var last := |a| - 1;
      assert SameOp(ButForRoleAndBit(), a[last].op, b[last].op);
      assert SameSide(lab, a[last].op.request, b[last].op.request);
      SameSuccesses(lab, a[..last], b[..last], slot);
    }
  }

  lemma SameSidesHide(lab: Lab, a: seq<Entry>, b: seq<Entry>, slot: nat)
    requires Served(lab) && Legal(lab, a) && Legal(lab, b) && slot < lab.slots
    requires SameRun(ButForRoleAndBit(), a, b)
    requires forall k :: 0 <= k < |a| ==> SameSide(lab, a[k].op.request, b[k].op.request)
    ensures SameState(lab, a, b, slot)
  {
    hide Replay, SuccessfulTurns, SameSide;
    SameSuccesses(lab, a, b, slot);
    StatesAreParities(lab, a, slot);
    StatesAreParities(lab, b, slot);
  }

  // ---------- one turn can tell ----------

  // The history of one undisturbed turn of slot 0.
  function OneTurn(role: Role, bit: nat): seq<Entry> {
    [Entry(0, Op(Turn(0, role, bit), Exits), Normalized)]
  }

  lemma OneTurnFlips(lab: Lab, role: Role, bit: nat)
    requires Served(lab) && WellFormed(lab, Turn(0, role, bit))
    ensures Legal(lab, OneTurn(role, bit))
    ensures Replay(lab, OneTurn(role, bit)).states[0] ==
            SequentialProbe.Parity(if Accepts(IterationsFor(lab, role, bit)) then 1 else 0, lab.stateBytes)
  {
    var log := OneTurn(role, bit);
    assert log[..0] == [];
    assert Answered(lab, log, 0);
    StatesAreParities(lab, log, 0);
    assert SuccessfulTurns(lab, [], 0) == 0;
  }

  lemma ParitiesDiffer(length: nat)
    requires length > 0
    ensures SequentialProbe.Parity(0, length) != SequentialProbe.Parity(1, length)
  {
    assert SequentialProbe.Parity(0, length)[0] != SequentialProbe.Parity(1, length)[0];
  }

  // Where hiding holds, no two turns that it covers fare differently.
  lemma HiddenMeansSameSide(lab: Lab, alike: (Request, Request) -> bool, a: Request, b: Request)
    requires Served(lab) && Hidden(lab, alike) && alike(a, b)
    requires WellFormed(lab, a) && WellFormed(lab, b) && a.Turn? && b.Turn? && a.slot == 0 == b.slot
    ensures SameSide(lab, a, b)
  {
    hide Replay, IterationsFor, SequentialProbe.Parity, Legal;
    var x, y := OneTurn(a.role, a.bit), OneTurn(b.role, b.bit);
    OneTurnFlips(lab, a.role, a.bit);
    OneTurnFlips(lab, b.role, b.bit);
    assert SameOp(alike, x[0].op, y[0].op);
    assert SameRun(alike, x, y);
    assert Asked(lab, x) && Asked(lab, y);
    assert SameState(lab, x, y, 0);
    ParitiesDiffer(lab.stateBytes);
  }

  // ---------- exactly when nothing is given away ----------

  // The stored states are independent of the transmitted bits if and only if the two counts that a
  // sender's bit selects are both accepted or both rejected.
  lemma BitIsHidden(lab: Lab)
    requires Served(lab)
    ensures Hidden(lab, ButForBit()) <==> (Accepts(lab.hot) <==> Accepts(lab.cold))
  {
    if Accepts(lab.hot) == Accepts(lab.cold) {
      forall a: seq<Entry>, b: seq<Entry>, slot: nat |
        Legal(lab, a) && Legal(lab, b) && SameRun(ButForBit(), a, b) && slot < lab.slots
        ensures SameState(lab, a, b, slot)
      {
        BitsOnOneSide(lab, a, b);
        SameSidesHide(lab, a, b, slot);
      }
    }
    if Hidden(lab, ButForBit()) {
      HiddenMeansSameSide(lab, ButForBit(), Turn(0, Sender, 1), Turn(0, Sender, 0));
    }
  }

  lemma BitsOnOneSide(lab: Lab, a: seq<Entry>, b: seq<Entry>)
    requires SameRun(ButForBit(), a, b) && Accepts(lab.hot) == Accepts(lab.cold)
    ensures SameRun(ButForRoleAndBit(), a, b)
    ensures forall k :: 0 <= k < |a| ==> SameSide(lab, a[k].op.request, b[k].op.request)
  {
    forall k | 0 <= k < |a|
      ensures SameOp(ButForRoleAndBit(), a[k].op, b[k].op) && SameSide(lab, a[k].op.request, b[k].op.request)
    {
      assert SameOp(ButForBit(), a[k].op, b[k].op);
    }
  }

  // They are independent of roles and bits if and only if all four counts are.
  lemma RoleAndBitAreHidden(lab: Lab)
    requires Served(lab)
    ensures Hidden(lab, ButForRoleAndBit()) <==> OneSide(lab)
  {
    if OneSide(lab) {
      forall a: seq<Entry>, b: seq<Entry>, slot: nat |
        Legal(lab, a) && Legal(lab, b) && SameRun(ButForRoleAndBit(), a, b) && slot < lab.slots
        ensures SameState(lab, a, b, slot)
      {
        SameSidesHide(lab, a, b, slot);
      }
    }
    if Hidden(lab, ButForRoleAndBit()) {
      HiddenMeansSameSide(lab, ButForRoleAndBit(), Turn(0, Sender, 1), Turn(0, Sender, 0));
      HiddenMeansSameSide(lab, ButForRoleAndBit(), Turn(0, Sender, 1), Turn(0, Control, 0));
      HiddenMeansSameSide(lab, ButForRoleAndBit(), Turn(0, Sender, 1), Turn(0, Probe, 0));
    }
  }

  // A lab that passes every start-up check and stores the bit of its sender.
  const LEAKY := Lab(64, 65536, 0x8000_0000, 1024, 65536, 131072)

  lemma LeakyLabStoresTheBit()
    ensures Served(LEAKY) && !Hidden(LEAKY, ButForBit())
    ensures Legal(LEAKY, OneTurn(Sender, 0)) && Legal(LEAKY, OneTurn(Sender, 1))
    ensures Replay(LEAKY, OneTurn(Sender, 0)).states[0] == SequentialProbe.Parity(1, 65536)
    ensures Replay(LEAKY, OneTurn(Sender, 1)).states[0] == SequentialProbe.Parity(0, 65536)
  {
    hide Replay, Legal, SequentialProbe.Parity, Hidden;
    OneTurnFlips(LEAKY, Sender, 0);
    OneTurnFlips(LEAKY, Sender, 1);
    BitIsHidden(LEAKY);
  }

  // ---------- in every run of the server ----------

  // Requests that differ at most in role and bit, fare alike and pass the same checks.
  predicate Indistinct(lab: Lab, a: Request, b: Request) {
    && ButForRoleAndBit()(a, b)
    && SameSide(lab, a, b)
    && (WellFormed(lab, a) <==> WellFormed(lab, b))
  }

  predicate TwinEvents(lab: Lab, e: Event, f: Event) {
    if e.Submit? then f.Submit? && Indistinct(lab, e.request, f.request) else e == f
  }

  predicate TwinTasks(lab: Lab, t: Task, u: Task) {
    t.phase == u.phase && t.invoked == u.invoked && Indistinct(lab, t.request, u.request)
  }

  predicate TwinEntries(a: Entry, b: Entry) {
    a.id == b.id && a.reply == b.reply && SameOp(ButForRoleAndBit(), a.op, b.op)
  }

  // States that no reply and no stored byte tells apart.
  ghost predicate Twins(lab: Lab, s: State, u: State) {
    && s.pending == u.pending && s.laneFree == u.laneFree && s.store == u.store
    && |s.tasks| == |u.tasks| && |s.log| == |u.log|
    && (forall i :: 0 <= i < |s.tasks| ==> TwinTasks(lab, s.tasks[i], u.tasks[i]))
    && (forall k :: 0 <= k < |s.log| ==> TwinEntries(s.log[k], u.log[k]))
  }

  lemma TwinResults(lab: Lab, a: Request, b: Request, previous: seq<byte>, fate: Fate)
    requires Indistinct(lab, a, b) && a.Turn?
    ensures TurnResult(lab, previous, IterationsFor(lab, a.role, a.bit), fate)
         == TurnResult(lab, previous, IterationsFor(lab, b.role, b.bit), fate)
  {
    hide IterationsFor;
  }

  lemma SubmitKeepsTwins(lab: Lab, s: State, u: State, e: Event, f: Event)
    requires Twins(lab, s, u) && TwinEvents(lab, e, f) && e.Submit?
    ensures Twins(lab, Step(lab, s, e), Step(lab, u, f))
  {
    hide WellFormed, SameSide;
  }

  // What twins have in common at task i.
  lemma TwinsAgree(lab: Lab, s: State, u: State, i: nat)
    requires Twins(lab, s, u)
    ensures s.pending == u.pending && s.laneFree == u.laneFree && s.store == u.store && |s.tasks| == |u.tasks|
    ensures i < |s.tasks| ==> TwinTasks(lab, s.tasks[i], u.tasks[i])
  {
  }

  lemma MoveKeepsTwins(lab: Lab, s: State, u: State, i: nat, phase: Phase, pending: nat, laneFree: bool)
    requires Twins(lab, s, u) && i < |s.tasks|
    ensures Twins(lab, Move(s, i, phase).(pending := pending, laneFree := laneFree),
                  Move(u, i, phase).(pending := pending, laneFree := laneFree))
  {
    hide Indistinct;
  }

  lemma DecideKeepsTwins(lab: Lab, s: State, u: State, i: nat, fate: Fate, effect: (Store, Reply))
    requires Twins(lab, s, u) && i < |s.tasks|
    ensures Twins(lab, Decide(s, i, fate, effect), Decide(u, i, fate, effect))
  {
    hide SameSide, WellFormed;
  }

  // A task's step takes twins either to the same phase or to the same effect.
  lemma TaskStepKeepsTwins(lab: Lab, s: State, u: State, e: Event)
    requires Twins(lab, s, u) && !e.Submit?
    ensures Twins(lab, Step(lab, s, e), Step(lab, u, e))
  {
    hide Twins, SameSide, WellFormed, Check, CommitEffect, ClearSessions;
    TwinsAgree(lab, s, u, e.i);
    if Enabled(lab, s, e) {
      var t, v, next := s.tasks[e.i], u.tasks[e.i], Step(lab, s, e);
      if |next.log| == |s.log| {
        MoveKeepsTwins(lab, s, u, e.i, next.tasks[e.i].phase, next.pending, next.laneFree);
      } else if e.Commit? {
        TwinEffects(lab, s.store, t.request, v.request, t.phase.previous, t.phase.fate);
        DecideKeepsTwins(lab, s, u, e.i, t.phase.fate,
                         CommitEffect(lab, s.store, t.request, t.phase.previous, t.phase.fate));
      } else {
        DecideKeepsTwins(lab, s, u, e.i, Exits, (next.store, next.log[|s.log|].reply));
      }
    }
  }

  lemma TwinEffects(lab: Lab, store: Store, a: Request, b: Request, previous: seq<byte>, fate: Fate)
    requires Indistinct(lab, a, b) && Spawned(a) && WellFormed(lab, a) && Shaped(lab, store)
    ensures CommitEffect(lab, store, a, previous, fate) == CommitEffect(lab, store, b, previous, fate)
  {
    hide SameSide, IterationsFor, TurnResult, StreamResult;
    if a.Turn? {
      TwinResults(lab, a, b, previous, fate);
    }
  }

  lemma StepKeepsTwins(lab: Lab, s: State, u: State, e: Event, f: Event)
    requires Twins(lab, s, u) && TwinEvents(lab, e, f)
    ensures Twins(lab, Step(lab, s, e), Step(lab, u, f))
  {
    hide Twins, Step;
    if e.Submit? {
      SubmitKeepsTwins(lab, s, u, e, f);
    } else {
      TaskStepKeepsTwins(lab, s, u, e);
    }
  }

  // Non-interference: runs of the server whose events differ only in roles and bits of turns that fare
  // alike have the same stores, phases and replies throughout.
  lemma {:induction false} RunsAreTwins(lab: Lab, one: seq<Event>, two: seq<Event>)
    requires |one| == |two| && forall k :: 0 <= k < |one| ==> TwinEvents(lab, one[k], two[k])
    ensures Twins(lab, Run(lab, one), Run(lab, two))
  {
    hide Step, Twins, TwinEvents;
    if one == [] {
      EqualStatesAreTwins(lab, Initial(lab));
    } else {
      var last := |one| - 1;
      RunsAreTwins(lab, one[..last], two[..last]);
      StepKeepsTwins(lab, Run(lab, one[..last]), Run(lab, two[..last]), one[last], two[last]);
    }
  }

  lemma EqualStatesAreTwins(lab: Lab, s: State)
    requires s.tasks == [] && s.log == []
    ensures Twins(lab, s, s)
  {
  }
}
