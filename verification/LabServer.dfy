// The shared state of the lab process and the bodies of its handlers, as they update it in place.
// Each method is what runs between taking and releasing the lane (or, for a read, the lock);
// LabMachine shows that interleaving these bodies adds no other behaviour.
module LabServer {
  import opened Wasm32
  import opened LabSpec
  import StreamCapitalize
  import SequentialProbe

  class Server {
    const lab: Lab
    var sessions: seq<Session>
    var states: seq<seq<byte>>
    var pending: nat
    var successfulTurns: nat
    var timedOutTurns: nat
    var failedTurns: nat
    var throttledTurns: nat

    ghost predicate Valid()
      reads this
    {
      Served(lab) && Shaped(lab, Contents()) && pending <= MAX_PENDING
    }

    function Contents(): Store
      reads this
    {
      Store(sessions, states)
    }

    function Counted(): nat
      reads this
    {
      successfulTurns + timedOutTurns + failedTurns
    }

    constructor (lab: Lab)
      requires Served(lab)
      ensures Valid() && this.lab == lab && Contents() == InitialStore(lab)
      ensures pending == Counted() == throttledTurns == 0
    {
      this.lab := lab;
      sessions := seq(lab.slots, _ => EMPTY);
      states := seq(lab.slots, _ => SequentialProbe.Parity(0, lab.stateBytes));
      pending, successfulTurns, timedOutTurns, failedTurns, throttledTurns := 0, 0, 0, 0, 0;
    }

    // The parent's side of one stream runner.
    static method ExecuteStreamProcess(previous: seq<byte>, chunk: seq<byte>, fate: Fate) returns (r: ProcessResult)
      ensures r == StreamResult(previous, chunk, fate)
      ensures fate == Exits && |previous| + |chunk| <= STREAM_STATE_BYTES ==>
                r == Success(previous + StreamCapitalize.Upper(chunk))
    {
      if fate == IsKilled {
        return TimedOut;
      }
      if fate == BreaksDown {
        return Failed;
      }
      var output := StreamCapitalize.ExecuteStream(previous, chunk, STREAM_STATE_BYTES, MAX_MEMORY_PAGES);
      if output.Accumulated? && |output.bytes| == |previous| + |chunk| && |output.bytes| <= STREAM_STATE_BYTES {
        return Success(output.bytes);
      }
      return Failed;
    }

    method ExecuteProcess(previous: seq<byte>, role: Role, bit: nat, fate: Fate) returns (r: ProcessResult)
      requires bit <= 1
      ensures r == TurnResult(lab, previous, IterationsFor(lab, role, bit), fate)
    {
      if fate == IsKilled {
        return TimedOut;
      }
      if fate == BreaksDown {
        return Failed;
      }
      var abi := match role case Sender => 0 case Probe => 1 case Control => 2;
      var output := SequentialProbe.ExecuteTurn(previous, abi, bit, IterationsFor(lab, role, bit), MAX_MEMORY_PAGES);
      if output.Next? && |output.state| == lab.stateBytes {
        return Success(output.state);
      }
      return Failed;
    }

    // `run_stream_slot`, from the lane permit to the reply.
    method RunStreamSlot(r: Request, fate: Fate) returns (reply: Reply)
      requires Valid() && r.Chunk? && WellFormed(lab, r)
      modifies this`sessions, this`successfulTurns, this`timedOutTurns, this`failedTurns
      ensures Valid()
      ensures (Contents(), reply) == Atomic(lab, old(Contents()), Op(r, fate))
      ensures reply == Conflict || reply == StateFull ==> Counted() == old(Counted())
      ensures reply.Ran? ==>
                && Counted() == old(Counted()) + 1
                && (reply.outcome == Complete <==> successfulTurns == old(successfulTurns) + 1)
                && (reply.outcome == Late <==> timedOutTurns == old(timedOutTurns) + 1)
                && (reply.outcome == Broken <==> failedTurns == old(failedTurns) + 1)
                && (reply.outcome == Late <==> fate == IsKilled)
    {
      var previous: seq<byte>;
      {
        var session := sessions[r.slot];
        if r.sequence != session.nextSequence {
          return Conflict;
        }
        if |session.accumulated| + |r.chunk| > STREAM_STATE_BYTES {
          return StateFull;
        }
        previous := session.accumulated;
      }
      var result := ExecuteStreamProcess(previous, r.chunk, fate);
      match result {
        case Success(next) =>
          var session := sessions[r.slot];
          session := session.(accumulated := next);
          session := session.(nextSequence := session.nextSequence + 1);
          session := session.(chunks := session.chunks + 1);
          sessions := sessions[r.slot := session];
          successfulTurns := successfulTurns + 1;
          reply := Ran(Complete, r.slot, r.sequence, session.chunks, |session.accumulated|);
        case TimedOut =>
          timedOutTurns := timedOutTurns + 1;
          var session := sessions[r.slot];
          reply := Ran(Late, r.slot, r.sequence, session.chunks, |session.accumulated|);
        case Failed =>
          failedTurns := failedTurns + 1;
          var session := sessions[r.slot];
          reply := Ran(Broken, r.slot, r.sequence, session.chunks, |session.accumulated|);
      }
      assert sessions == old(sessions)[r.slot := sessions[r.slot]];
    }

    // `run_slot`, from the lane permit to the reply.
    method RunSlot(r: Request, fate: Fate) returns (reply: Reply)
      requires Valid() && r.Turn? && WellFormed(lab, r)
      modifies this`states, this`successfulTurns, this`timedOutTurns, this`failedTurns
      ensures Valid()
      ensures (Contents(), reply) == Atomic(lab, old(Contents()), Op(r, fate))
      ensures Counted() == old(Counted()) + 1
      ensures timedOutTurns == old(timedOutTurns) + 1 <==> fate == IsKilled
      ensures fate == BreaksDown ==> failedTurns == old(failedTurns) + 1
      ensures TurnResult(lab, old(states[r.slot]), IterationsFor(lab, r.role, r.bit), fate).Success?
              <==> successfulTurns == old(successfulTurns) + 1
      ensures successfulTurns == old(successfulTurns) ==> states == old(states)
    {
      var previous := states[r.slot];
      var result := ExecuteProcess(previous, r.role, r.bit, fate);
      match result {
        case Success(next) =>
          states := states[r.slot := next];
          successfulTurns := successfulTurns + 1;
        case TimedOut =>
          timedOutTurns := timedOutTurns + 1;
        case Failed =>
          failedTurns := failedTurns + 1;
      }
      reply := Normalized;
    }

    // The handlers `stream_chunk` and `turn`: validation, bounded admission, the slot task.
    method Handle(r: Request, fate: Fate) returns (reply: Reply)
      requires Valid() && (r.Chunk? || r.Turn?)
      modifies this
      ensures Valid() && pending == old(pending)
      ensures !WellFormed(lab, r) <==> reply == BadRequest
      ensures WellFormed(lab, r) && old(pending) == MAX_PENDING <==> reply == TooMany
      ensures throttledTurns == old(throttledTurns) + if reply == TooMany then 1 else 0
      ensures reply == BadRequest || reply == TooMany ==> Contents() == old(Contents()) && Counted() == old(Counted())
      ensures reply != BadRequest && reply != TooMany ==>
                (Contents(), reply) == Atomic(lab, old(Contents()), Op(r, fate))
    {
      if !WellFormed(lab, r) {
        return BadRequest;
      }
      if pending >= MAX_PENDING {
        throttledTurns := throttledTurns + 1;
        return TooMany;
      }
      pending := pending + 1;
      if r.Chunk? {
        reply := RunStreamSlot(r, fate);
      } else {
        reply := RunSlot(r, fate);
      }
      pending := pending - 1;
    }

    // `stream_reset`.
    method ResetSessions(count: nat) returns (reply: Reply)
      requires Valid()
      modifies this`sessions
      ensures Valid()
      ensures !WellFormed(lab, Reset(count)) ==> reply == BadRequest && sessions == old(sessions)
      ensures WellFormed(lab, Reset(count)) ==>
                (Contents(), reply) == Atomic(lab, old(Contents()), Op(Reset(count), Exits))
    {
      if count == 0 || count > lab.slots {
        return BadRequest;
      }
      for i := 0 to count
        invariant |sessions| == |old(sessions)|
        invariant forall k :: 0 <= k < |sessions| ==> sessions[k] == if k < i then EMPTY else old(sessions)[k]
      {
        sessions := sessions[i := Session([], 0, 0)];
      }
      assert sessions == ClearSessions(old(sessions), count);
      return Normalized;
    }

    // `stream_state`.
    method ReadState(slot: nat) returns (reply: Reply)
      requires Valid()
      ensures reply == if slot >= lab.slots then BadRequest else Atomic(lab, Contents(), Op(Read(slot), Exits)).1
    {
      if slot >= lab.slots {
        return BadRequest;
      }
      return Report(slot, sessions[slot].chunks, sessions[slot].accumulated);
    }

    // The handlers one after the other: a reset, then the chunks of an input, then a look at the result,
    // which is the uppercased input however it was cut.
    method Stream(slot: nat, chunks: seq<seq<byte>>) returns (reply: Reply)
      requires Valid() && slot < lab.slots && pending < MAX_PENDING
      requires forall k :: 0 <= k < |chunks| ==> WellFormed(lab, Chunk(slot, k, chunks[k]))
      requires |StreamCapitalize.Concat(chunks)| <= STREAM_STATE_BYTES
      modifies this
      ensures Valid() && pending == old(pending) && throttledTurns == old(throttledTurns)
      ensures reply == Report(slot, |chunks|, StreamCapitalize.Upper(StreamCapitalize.Concat(chunks)))
    {
      reply := ResetSessions(lab.slots);
      for k := 0 to |chunks|
        invariant Valid() && pending == old(pending) && throttledTurns == old(throttledTurns)
        invariant sessions[slot] == SessionOf(chunks[..k])
      {
        PrefixFits(chunks, k + 1);
        assert chunks[..k + 1] == chunks[..k] + [chunks[k]];
        NextChunk(lab, Contents(), slot, chunks[..k], chunks[k]);
        reply := Handle(Chunk(slot, k, chunks[k]), Exits);
      }
      assert chunks[..|chunks|] == chunks;
      reply := ReadState(slot);
    }
  }

  lemma {:induction false} PrefixFits(chunks: seq<seq<byte>>, k: nat)
    requires k <= |chunks|
    ensures |StreamCapitalize.Concat(chunks[..k])| <= |StreamCapitalize.Concat(chunks)|
    decreases |chunks| - k
  {
    if k == |chunks| {
      assert chunks[..k] == chunks;
    } else {
      PrefixFits(chunks, k + 1);
      assert chunks[..k + 1][..k] == chunks[..k];
    }
  }

  // An undisturbed chunk in sequence appends to the log of its slot.
  lemma NextChunk(lab: Lab, store: Store, slot: nat, before: seq<seq<byte>>, chunk: seq<byte>)
    requires Shaped(lab, store) && WellFormed(lab, Chunk(slot, |before|, chunk))
    requires store.sessions[slot] == SessionOf(before)
    requires |StreamCapitalize.Concat(before + [chunk])| <= STREAM_STATE_BYTES
    ensures var (next, reply) := Atomic(lab, store, Op(Chunk(slot, |before|, chunk), Exits));
            next.sessions[slot] == SessionOf(before + [chunk]) && reply != TooMany && reply != BadRequest
  {
    AppendChunk(before, chunk);
    assert (before + [chunk])[..|before|] == before;
  }
}
