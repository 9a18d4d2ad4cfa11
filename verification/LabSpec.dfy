// The sequential lab as one atomic object: what each request would do if it ran alone, and what a
// legal history of such requests leaves behind.
module LabSpec {
  import opened Wasm32
  import StreamCapitalize
  import SequentialProbe

  const MAX_CHUNK_BYTES: nat := 1024
  const MAX_PENDING: nat := 256
  const STREAM_STATE_BYTES: nat := 16 * 65536
  const MAX_MEMORY_PAGES: nat := 129

  datatype Lab = Lab(slots: nat, stateBytes: nat, hot: u32, cold: u32, control: u32, probe: u32)

  // The start-up checks of the service.
  predicate Served(lab: Lab) {
    lab.slots >= 2 && 1 <= lab.stateBytes <= 65536
  }

  datatype Role = Sender | Probe | Control

  datatype Request =
    | Chunk(slot: nat, sequence: nat, chunk: seq<byte>)
    | Turn(slot: nat, role: Role, bit: nat)
    | Reset(count: nat)
    | Read(slot: nat)

  // What the handlers accept before anything is queued.
  predicate WellFormed(lab: Lab, r: Request) {
    match r
    case Chunk(slot, _, chunk) =>
      slot < lab.slots && 0 < |chunk| <= MAX_CHUNK_BYTES && forall i :: 0 <= i < |chunk| ==> chunk[i] < 128
    case Turn(slot, role, bit) => slot < lab.slots && bit <= 1 && !(role == Probe && bit != 0)
    case Reset(count) => 0 < count <= lab.slots
    case Read(slot) => slot < lab.slots
  }

  // How the runner process fared: it ran to its end, was killed at the cutoff, or broke down.
  datatype Fate = Exits | IsKilled | BreaksDown

  datatype ProcessResult = Success(bytes: seq<byte>) | TimedOut | Failed

  datatype Outcome = Complete | Late | Broken

  datatype Reply =
    | Ran(outcome: Outcome, slot: nat, sequence: nat, chunks: nat, size: nat)
    | Normalized
    | Report(slot: nat, chunks: nat, content: seq<byte>)   // the service sends the digest of the content
    | BadRequest
    | TooMany
    | Conflict
    | StateFull

  datatype Session = Session(accumulated: seq<byte>, nextSequence: nat, chunks: nat)

  const EMPTY := Session([], 0, 0)

  datatype Store = Store(sessions: seq<Session>, states: seq<seq<byte>>)

  function InitialStore(lab: Lab): Store {
    Store(seq(lab.slots, _ => EMPTY), seq(lab.slots, _ => SequentialProbe.Parity(0, lab.stateBytes)))
  }

  predicate Shaped(lab: Lab, store: Store) {
    |store.sessions| == lab.slots == |store.states|
  }

  function IterationsFor(lab: Lab, role: Role, bit: nat): u32 {
    match role
    case Sender => if bit == 1 then lab.hot else lab.cold
    case Control => lab.control
    case Probe => lab.probe
  }

  // The parent's classification of a stream runner.
  function StreamResult(previous: seq<byte>, chunk: seq<byte>, fate: Fate): ProcessResult {
    match fate
    case IsKilled => TimedOut
    case BreaksDown => Failed
    case Exits =>
      match StreamCapitalize.StreamStep(previous, chunk, STREAM_STATE_BYTES, MAX_MEMORY_PAGES)
      case Rejected(_) => Failed
      case Accumulated(output) =>
        if |output| == |previous| + |chunk| && |output| <= STREAM_STATE_BYTES then Success(output) else Failed
  }

  // The parent's classification of a turn runner.
  function TurnResult(lab: Lab, previous: seq<byte>, iterations: u32, fate: Fate): ProcessResult {
    match fate
    case IsKilled => TimedOut
    case BreaksDown => Failed
    case Exits =>
      match SequentialProbe.TurnStep(previous, iterations, MAX_MEMORY_PAGES)
      case Rejected(_) => Failed
      case Next(output) => if |output| == lab.stateBytes then Success(output) else Failed
  }

  // The write half of a chunk: it overwrites the bytes but counts from whatever is stored now.
  function StoreChunk(session: Session, result: ProcessResult): Session {
    if result.Success? then Session(result.bytes, session.nextSequence + 1, session.chunks + 1) else session
  }

  function OutcomeOf(result: ProcessResult): Outcome {
    match result
    case Success(_) => Complete
    case TimedOut => Late
    case Failed => Broken
  }

  function ChunkReply(r: Request, result: ProcessResult, session: Session): Reply
    requires r.Chunk?
  {
    Ran(OutcomeOf(result), r.slot, r.sequence, session.chunks, |session.accumulated|)
  }

  datatype Verdict = Proceed | Refuse(reply: Reply)

  // The checks made under the session lock before a chunk runs.
  function Check(session: Session, sequence: nat, size: nat): (v: Verdict)
    ensures v == Refuse(Conflict) <==> sequence != session.nextSequence
    ensures v == Refuse(StateFull) <==>
            sequence == session.nextSequence && |session.accumulated| + size > STREAM_STATE_BYTES
    ensures v.Refuse? ==> v.reply == Conflict || v.reply == StateFull
  {
    if sequence != session.nextSequence then Refuse(Conflict)
    else if |session.accumulated| + size > STREAM_STATE_BYTES then Refuse(StateFull)
    else Proceed
  }

  function CommitChunk(store: Store, r: Request, result: ProcessResult): (Store, Reply)
    requires r.Chunk? && r.slot < |store.sessions|
  {
    var session := StoreChunk(store.sessions[r.slot], result);
    (store.(sessions := store.sessions[r.slot := session]), ChunkReply(r, result, session))
  }

  function CommitTurn(store: Store, slot: nat, result: ProcessResult): (Store, Reply)
    requires slot < |store.states|
  {
    (if result.Success? then store.(states := store.states[slot := result.bytes]) else store, Normalized)
  }

  function ClearSessions(sessions: seq<Session>, count: nat): (r: seq<Session>)
    ensures |r| == |sessions|
    ensures forall i :: 0 <= i < |r| ==> r[i] == if i < count then EMPTY else sessions[i]
  {
    seq(|sessions|, i requires 0 <= i < |sessions| => if i < count then EMPTY else sessions[i])
  }

  datatype Op = Op(request: Request, fate: Fate)

  // The whole request in one piece.
  function Atomic(lab: Lab, store: Store, op: Op): (Store, Reply)
    requires WellFormed(lab, op.request) && Shaped(lab, store)
  {
    match op.request
    case Chunk(slot, sequence, chunk) =>
      var session := store.sessions[slot];
      var verdict := Check(session, sequence, |chunk|);
      if verdict.Refuse? then (store, verdict.reply)
      else CommitChunk(store, op.request, StreamResult(session.accumulated, chunk, op.fate))
    case Turn(slot, role, bit) =>
      CommitTurn(store, slot, TurnResult(lab, store.states[slot], IterationsFor(lab, role, bit), op.fate))
    case Reset(count) => (store.(sessions := ClearSessions(store.sessions, count)), Normalized)
    case Read(slot) => (store, Report(slot, store.sessions[slot].chunks, store.sessions[slot].accumulated))
  }

  // ---------- histories ----------

  datatype Entry = Entry(id: nat, op: Op, reply: Reply)

  ghost predicate Asked(lab: Lab, log: seq<Entry>) {
    forall k :: 0 <= k < |log| ==> WellFormed(lab, log[k].op.request)
  }

  function Replay(lab: Lab, log: seq<Entry>): (store: Store)
    requires Asked(lab, log)
    ensures Shaped(lab, store)
  {
    if log == [] then InitialStore(lab)
    else Atomic(lab, Replay(lab, log[..|log| - 1]), log[|log| - 1].op).0
  }

  // Every reply in the history is the one the atomic object gives at that point.
  ghost predicate Legal(lab: Lab, log: seq<Entry>) {
    Asked(lab, log) && forall k :: 0 <= k < |log| ==> Answered(lab, log, k)
  }

  ghost predicate Answered(lab: Lab, log: seq<Entry>, k: nat)
    requires Asked(lab, log) && k < |log|
  {
    log[k].reply == Atomic(lab, Replay(lab, log[..k]), log[k].op).1
  }

  lemma LegalExtend(lab: Lab, log: seq<Entry>, e: Entry)
    requires Legal(lab, log) && WellFormed(lab, e.op.request)
    requires e.reply == Atomic(lab, Replay(lab, log), e.op).1
    ensures Legal(lab, log + [e])
    ensures Replay(lab, log + [e]) == Atomic(lab, Replay(lab, log), e.op).0
  {
    var grown := log + [e];
    assert grown[..|log|] == log;
    forall k | 0 <= k < |grown|
      ensures Answered(lab, grown, k)
    {
      if k < |log| {
        assert Answered(lab, log, k);
        assert grown[..k] == log[..k];
      }
    }
  }

  lemma LegalPrefix(lab: Lab, log: seq<Entry>)
    requires Legal(lab, log) && log != []
    ensures Legal(lab, log[..|log| - 1]) && Answered(lab, log, |log| - 1)
  {
    var front := log[..|log| - 1];
    forall k | 0 <= k < |front|
      ensures Answered(lab, front, k)
    {
      assert Answered(lab, log, k);
      assert front[..k] == log[..k];
    }
  }

  // ---------- the append log a history stands for ----------

  // The chunks accepted on a slot since its last reset.
  function Accepted(log: seq<Entry>, slot: nat): seq<seq<byte>> {
    if log == [] then [] else AcceptedAfter(Accepted(log[..|log| - 1], slot), log[|log| - 1], slot)
  }

  function AcceptedAfter(before: seq<seq<byte>>, e: Entry, slot: nat): seq<seq<byte>> {
    var r := e.op.request;
    if r.Reset? && slot < r.count then []
    else if r.Chunk? && r.slot == slot && e.reply.Ran? && e.reply.outcome == Complete then before + [r.chunk]
    else before
  }

  // The runner's signed argument holds the count.
  predicate Accepts(count: u32) { count < 0x8000_0000 }

  // A turn of the slot that runs undisturbed with an iteration count the runner accepts.
  predicate Succeeds(lab: Lab, op: Op, slot: nat) {
    op.request.Turn? && op.request.slot == slot && op.fate == Exits
    && Accepts(IterationsFor(lab, op.request.role, op.request.bit))
  }

  function SuccessfulTurns(lab: Lab, log: seq<Entry>, slot: nat): nat {
    if log == [] then 0
    else SuccessfulTurns(lab, log[..|log| - 1], slot) + if Succeeds(lab, log[|log| - 1].op, slot) then 1 else 0
  }

  function SessionOf(chunks: seq<seq<byte>>): Session {
    Session(StreamCapitalize.Upper(StreamCapitalize.Concat(chunks)), |chunks|, |chunks|)
  }

  ghost predicate Fits(chunks: seq<seq<byte>>) {
    |chunks| <= |StreamCapitalize.Concat(chunks)| <= STREAM_STATE_BYTES
  }

  lemma AppendChunk(chunks: seq<seq<byte>>, chunk: seq<byte>)
    ensures SessionOf(chunks + [chunk]) ==
            StoreChunk(SessionOf(chunks), Success(SessionOf(chunks).accumulated + StreamCapitalize.Upper(chunk)))
  {
    var grown := chunks + [chunk];
    assert grown[..|grown| - 1] == chunks;
    StreamCapitalize.UpperConcat(StreamCapitalize.Concat(chunks), chunk);
  }

  // In every legal history each session is its append log: the uppercased concatenation of the
  // chunks accepted since the last reset, counted twice over, never beyond the capacity.  Refused,
  // timed-out and failed requests are absent from the log and so have changed nothing.
  lemma {:induction false} SessionsAreAppendLogs(lab: Lab, log: seq<Entry>, slot: nat)
    requires Legal(lab, log) && slot < lab.slots
    ensures Replay(lab, log).sessions[slot] == SessionOf(Accepted(log, slot))
    ensures Fits(Accepted(log, slot))
  {
    hide Atomic, AcceptedAfter, SessionOf;
    if log != [] {
      var front, e := log[..|log| - 1], log[|log| - 1];
      LegalPrefix(lab, log);
      SessionsAreAppendLogs(lab, front, slot);
      SessionEffect(lab, Replay(lab, front), e, slot, Accepted(front, slot));
    } else {
      assert SessionOf([]) == EMPTY by { NothingAccepted(); }
    }
  }

  lemma NothingAccepted()
    ensures SessionOf([]) == EMPTY
  {
  }

  // One request takes a session from its log to the log after it.
  lemma SessionEffect(lab: Lab, store: Store, e: Entry, slot: nat, before: seq<seq<byte>>)
    requires Shaped(lab, store) && WellFormed(lab, e.op.request) && slot < lab.slots
    requires store.sessions[slot] == SessionOf(before) && Fits(before)
    requires e.reply == Atomic(lab, store, e.op).1
    ensures Atomic(lab, store, e.op).0.sessions[slot] == SessionOf(AcceptedAfter(before, e, slot))
    ensures Fits(AcceptedAfter(before, e, slot))
  {
    if e.op.request.Chunk? && e.op.request.slot == slot {
      OwnChunkEffect(lab, store, e, before);
    } else {
      hide TurnResult, IterationsFor, StreamResult, SessionOf, Fits;
    }
  }

  lemma OwnChunkEffect(lab: Lab, store: Store, e: Entry, before: seq<seq<byte>>)
    requires Shaped(lab, store) && WellFormed(lab, e.op.request) && e.op.request.Chunk?
    requires store.sessions[e.op.request.slot] == SessionOf(before) && Fits(before)
    requires e.reply == Atomic(lab, store, e.op).1
    ensures Atomic(lab, store, e.op).0.sessions[e.op.request.slot]
         == SessionOf(AcceptedAfter(before, e, e.op.request.slot))
    ensures Fits(AcceptedAfter(before, e, e.op.request.slot))
  {
    hide StreamResult, SessionOf, Fits;
    var chunk := e.op.request.chunk;
    StreamSucceeds(SessionOf(before).accumulated, chunk, e.op.fate);
    AppendChunk(before, chunk);
    AppendFits(before, chunk);
  }

  lemma AppendFits(before: seq<seq<byte>>, chunk: seq<byte>)
    requires Fits(before) && chunk != []
    ensures |SessionOf(before).accumulated| + |chunk| <= STREAM_STATE_BYTES ==> Fits(before + [chunk])
  {
    assert (before + [chunk])[..|before|] == before;
  }

  // A stream runner succeeds when it is undisturbed and has room, and then appends the uppercased chunk.
  lemma StreamSucceeds(previous: seq<byte>, chunk: seq<byte>, fate: Fate)
    ensures var r := StreamResult(previous, chunk, fate);
            && (r.Success? <==> fate == Exits && |previous| + |chunk| <= STREAM_STATE_BYTES)
            && (r.TimedOut? <==> fate == IsKilled)
            && (r.Success? ==> r.bytes == previous + StreamCapitalize.Upper(chunk))
  {
    hide StreamCapitalize.UpperByte;
  }

  // ---------- the replies a history implies ----------

  function SlotOf(r: Request): nat { if r.Reset? then 0 else r.slot }

  // What a request is answered when the chunks in before have been accepted on its slot.
  function LogReply(op: Op, before: seq<seq<byte>>): Reply {
    match op.request
    case Chunk(slot, sequence, chunk) =>
      if sequence != |before| then Conflict
      else if |StreamCapitalize.Concat(before)| + |chunk| > STREAM_STATE_BYTES then StateFull
      else
        var size := |StreamCapitalize.Concat(before)|;
        if op.fate == Exits then Ran(Complete, slot, sequence, |before| + 1, size + |chunk|)
        else Ran(if op.fate == IsKilled then Late else Broken, slot, sequence, |before|, size)
    case Read(slot) => Report(slot, |before|, StreamCapitalize.Upper(StreamCapitalize.Concat(before)))
    case Turn(_, _, _) => Normalized
    case Reset(_) => Normalized
  }

  // In a legal history every reply is determined by the chunks accepted before it: a conflict is a wrong
  // count, a full state an overflowing length, and everything else the fate of the worker.
  lemma RepliesFollowTheLog(lab: Lab, log: seq<Entry>, k: nat)
    requires Legal(lab, log) && k < |log|
    ensures log[k].reply == LogReply(log[k].op, Accepted(log[..k], SlotOf(log[k].op.request)))
  {
    var front := log[..k];
    LegalUpTo(lab, log, k);
    assert Answered(lab, log, k);
    if !log[k].op.request.Reset? {
      SessionsAreAppendLogs(lab, front, SlotOf(log[k].op.request));
    }
  }

  lemma LegalUpTo(lab: Lab, log: seq<Entry>, k: nat)
    requires Legal(lab, log) && k <= |log|
    ensures Legal(lab, log[..k])
  {
    hide Atomic, Replay;
    forall j | 0 <= j < k
      ensures Answered(lab, log[..k], j)
    {
      assert Answered(lab, log, j);
      assert log[..k][..j] == log[..j];
    }
  }

  lemma StateEffect(lab: Lab, store: Store, op: Op, slot: nat)
    requires Served(lab) && Shaped(lab, store) && WellFormed(lab, op.request) && slot < lab.slots
    requires |store.states[slot]| == lab.stateBytes
    ensures Atomic(lab, store, op).0.states[slot] ==
            if Succeeds(lab, op, slot) then SequentialProbe.Flip(store.states[slot]) else store.states[slot]
  {
    hide StreamResult, IterationsFor, SequentialProbe.FlipByte;
  }

  // Each kind of turn has an iteration count of its own; the bytes flip if the runner ends by itself and
  // takes that count, and stay otherwise.
  lemma TurnFlips(lab: Lab, store: Store, slot: nat, role: Role, bit: nat, fate: Fate)
    requires Served(lab) && Shaped(lab, store) && WellFormed(lab, Turn(slot, role, bit))
    requires |store.states[slot]| == lab.stateBytes
    ensures var count := if role == Probe then lab.probe
                         else if role == Control then lab.control
                         else if bit == 0 then lab.cold
                         else lab.hot;
            Atomic(lab, store, Op(Turn(slot, role, bit), fate)).0.states[slot] ==
              if fate == Exits && count < 0x8000_0000 then SequentialProbe.Flip(store.states[slot])
              else store.states[slot]
  {
    hide Atomic, SequentialProbe.Flip;
    StateEffect(lab, store, Op(Turn(slot, role, bit), fate), slot);
  }

  // The other store: a slot's bytes depend on nothing but the parity of its successful turns.  Whether a
  // turn succeeds may depend on its role and bit; LabSecrecy says when that makes a difference.
  lemma {:induction false} StatesAreParities(lab: Lab, log: seq<Entry>, slot: nat)
    requires Served(lab) && Legal(lab, log) && slot < lab.slots
    ensures Replay(lab, log).states[slot] == SequentialProbe.Parity(SuccessfulTurns(lab, log, slot), lab.stateBytes)
  {
    hide Atomic, Succeeds, Answered;
    if log != [] {
      LegalPrefix(lab, log);
      StatesAreParities(lab, log[..|log| - 1], slot);
      StateEffect(lab, Replay(lab, log[..|log| - 1]), log[|log| - 1].op, slot);
      SequentialProbe.ParityStep(SuccessfulTurns(lab, log[..|log| - 1], slot), lab.stateBytes);
    }
  }
}
