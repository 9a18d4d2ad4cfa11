// Client and server together: a client that regenerates its chunks by sequence number and is the
// only writer of its slot always agrees with the server, in every interleaving of the server.
module StreamAgreement {
  import opened LabSpec
  import opened LabMachine
  import LabGuarantees
  import opened StreamCapitalize
  import opened StreamClient

  // ---------- against a sequential history ----------

  predicate Covers(e: Entry, slot: nat) {
    e.op.request.Reset? && slot < e.op.request.count
  }

  predicate WritesChunk(e: Entry, slot: nat) {
    e.op.request.Chunk? && e.op.request.slot == slot
  }

  // The chunk requests for a slot since its last reset, with their replies.
  function SlotHistory(log: seq<Entry>, slot: nat): seq<Exchange> {
    if log == [] then []
    else
      var before, e := SlotHistory(log[..|log| - 1], slot), log[|log| - 1];
      if Covers(e, slot) then []
      else if WritesChunk(e, slot) then before + [Exchange(e.op.request, e.reply)]
      else before
  }

  // The exchanges that got past admission.
  function Admitted(transcript: seq<Exchange>): seq<Exchange> {
    if transcript == [] then []
    else
      var before, x := Admitted(transcript[..|transcript| - 1]), transcript[|transcript| - 1];
      if x.reply == TooMany then before else before + [x]
  }

  lemma {:induction false} AdmittedCompletions(transcript: seq<Exchange>)
    ensures Completions(Admitted(transcript)) == Completions(transcript)
    ensures |Admitted(transcript)| <= |transcript|
  {
    if transcript != [] {
      var front, x := transcript[..|transcript| - 1], transcript[|transcript| - 1];
      AdmittedCompletions(front);
      if x.reply != TooMany {
        assert (Admitted(front) + [x])[..|Admitted(front)|] == Admitted(front);
      }
    }
  }

  lemma {:induction false} AdmittedFaithful(transcript: seq<Exchange>, slot: nat, bytes: nat)
    requires Faithful(transcript, slot, bytes)
    ensures Faithful(Admitted(transcript), slot, bytes)
  {
    if transcript != [] {
      var last := |transcript| - 1;
      var front, x := transcript[..last], transcript[last];
      FaithfulPrefix(transcript, slot, bytes, last);
      AdmittedFaithful(front, slot, bytes);
      AdmittedCompletions(front);
      assert Regenerated(transcript, slot, bytes, last);
      if x.reply != TooMany {
        FaithfulExtend(Admitted(front), slot, bytes, x);
      }
    }
  }

  lemma FaithfulPrefix(transcript: seq<Exchange>, slot: nat, bytes: nat, n: nat)
    requires Faithful(transcript, slot, bytes) && n <= |transcript|
    ensures Faithful(transcript[..n], slot, bytes)
  {
    forall j | 0 <= j < n
      ensures Regenerated(transcript[..n], slot, bytes, j)
    {
      assert Regenerated(transcript, slot, bytes, j);
      assert transcript[..n][..j] == transcript[..j];
    }
  }

  // The server state that c completed chunks of the cyclic text leave behind.
  function CyclicSession(c: nat, bytes: nat): Session {
    Session(Upper(Cyclic(c * bytes)), c, c)
  }

  ghost predicate NeverRefused(history: seq<Exchange>) {
    forall j :: 0 <= j < |history| ==> history[j].reply.Ran?
  }

  // A faithful writer that stays within the capacity is never refused, and its completions say
  // exactly what the server holds.
  lemma {:induction false} FaithfulWriterAgrees(lab: Lab, log: seq<Entry>, slot: nat, bytes: nat)
    requires Legal(lab, log) && slot < lab.slots
    requires Faithful(SlotHistory(log, slot), slot, bytes)
    requires |SlotHistory(log, slot)| * bytes <= STREAM_STATE_BYTES
    ensures Replay(lab, log).sessions[slot] == CyclicSession(Completions(SlotHistory(log, slot)), bytes)
    ensures Completions(SlotHistory(log, slot)) <= |SlotHistory(log, slot)|
    ensures NeverRefused(SlotHistory(log, slot))
  {
    hide LoremByte, LoremChunk, Window, StreamResult;
    var history := SlotHistory(log, slot);
    if log == [] {
      assert Cyclic(0) == [];
    } else {
      var front, e := log[..|log| - 1], log[|log| - 1];
      LegalPrefix(lab, log);
      if Covers(e, slot) {
        assert Cyclic(0) == [];
      } else if WritesChunk(e, slot) {
        var before := SlotHistory(front, slot);
        assert history[..|before|] == before;
        FaithfulPrefix(history, slot, bytes, |before|);
        assert |history| * bytes == |before| * bytes + bytes;
        FaithfulWriterAgrees(lab, front, slot, bytes);
        assert Regenerated(history, slot, bytes, |before|);
        FaithfulChunk(lab, Replay(lab, front), e, Completions(before), |before|, bytes);
      } else {
        FaithfulWriterAgrees(lab, front, slot, bytes);
      }
    }
  }

  // One faithful chunk against the atomic server.
  lemma FaithfulChunk(lab: Lab, store: Store, e: Entry, c: nat, sent: nat, bytes: nat)
    requires Shaped(lab, store) && WellFormed(lab, e.op.request) && e.op.request.Chunk?
    requires e.op.request == Chunk(e.op.request.slot, c, LoremChunk(c, bytes))
    requires store.sessions[e.op.request.slot] == CyclicSession(c, bytes)
    requires c <= sent && sent * bytes + bytes <= STREAM_STATE_BYTES
    ensures var (next, reply) := Atomic(lab, store, e.op);
            && reply.Ran?
            && next.sessions[e.op.request.slot] == CyclicSession(if reply.outcome == Complete then c + 1 else c, bytes)
  {
    hide LoremByte, Window, LoremChunk, Cyclic, Upper, StreamResult;
    RoomForOne(c, sent, bytes);
    FaithfulResult(c, bytes, e.op.fate);
  }

  lemma RoomForOne(c: nat, sent: nat, bytes: nat)
    requires c <= sent && sent * bytes + bytes <= STREAM_STATE_BYTES
    ensures c * bytes + bytes <= STREAM_STATE_BYTES
  {
  }

  // What the runner makes of the next chunk of the cyclic text.
  lemma FaithfulResult(c: nat, bytes: nat, fate: Fate)
    requires c * bytes + bytes <= STREAM_STATE_BYTES
    ensures |CyclicSession(c, bytes).accumulated| == c * bytes
    ensures var result := StreamResult(CyclicSession(c, bytes).accumulated, LoremChunk(c, bytes), fate);
            result.Success? ==> result.bytes == CyclicSession(c + 1, bytes).accumulated
  {
    hide LoremByte, Window, LoremChunk;
    ChunkContinues(c, bytes);
    UpperConcat(Cyclic(c * bytes), LoremChunk(c, bytes));
  }

  // ---------- against every run of the server ----------

  // The transcript is what the callers of the tasks ids were answered.
  ghost predicate Answers(s: State, ids: seq<nat>, transcript: seq<Exchange>) {
    && |ids| == |transcript|
    && forall j :: 0 <= j < |ids| ==> AnsweredAs(s, ids[j], transcript[j])
  }

  ghost predicate AnsweredAs(s: State, id: nat, x: Exchange) {
    && id < |s.tasks|
    && s.tasks[id].request == x.request
    && HasAnswer(s.tasks[id])
    && s.tasks[id].phase.reply == x.reply
  }

  predicate HasAnswer(t: Task) { t.phase.Done? || t.phase.Refused? }

  // A refusal says that the server is busy, and every other answer comes from the history.
  ghost predicate Resolves(s: State, ids: seq<nat>, transcript: seq<Exchange>) {
    && |ids| == |transcript|
    && forall j :: 0 <= j < |ids| ==> ResolvedAs(s, ids[j], transcript[j])
  }

  ghost predicate ResolvedAs(s: State, id: nat, x: Exchange) {
    && id < |s.tasks|
    && s.tasks[id].request == x.request
    && if x.reply == TooMany then s.tasks[id].phase == Refused(TooMany)
       else s.tasks[id].phase.Done? && s.tasks[id].phase.reply == x.reply
  }

  // What the client sends passes the handler's checks.
  lemma RequestsAreWellFormed(lab: Lab, slot: nat, n: nat, bytes: nat)
    requires slot < lab.slots && 0 < bytes <= MAX_CHUNK_BYTES
    ensures WellFormed(lab, Chunk(slot, n, LoremChunk(n, bytes)))
  {
    hide LoremByte;
    var chunk := LoremChunk(n, bytes);
    forall i | 0 <= i < bytes
      ensures chunk[i] < 128
    {
      WindowAt(n * bytes % LOREM_LEN, bytes, i);
    }
  }

  // An answer from the history is never the handler's.
  lemma HistoryNeverRefuses(lab: Lab, s: State, id: nat)
    requires LabMachine.Inv(lab, s) && id < |s.tasks| && s.tasks[id].phase.Done?
    ensures s.tasks[id].phase.reply != TooMany && s.tasks[id].phase.reply != BadRequest
  {
    hide Atomic, Replay;
    assert Sound(lab, s, id);
    RepliesFollowTheLog(lab, s.log, s.tasks[id].phase.at);
  }

  // So a client that regenerates its chunks is never told of a malformed request.
  lemma AnswersResolve(lab: Lab, s: State, slot: nat, bytes: nat, ids: seq<nat>, transcript: seq<Exchange>)
    requires LabMachine.Inv(lab, s) && slot < lab.slots && 0 < bytes <= MAX_CHUNK_BYTES
    requires Answers(s, ids, transcript) && Faithful(transcript, slot, bytes)
    ensures Resolves(s, ids, transcript)
  {
    hide WellFormed, Atomic, Replay, LoremChunk;
    forall j | 0 <= j < |ids|
      ensures ResolvedAs(s, ids[j], transcript[j])
    {
      assert AnsweredAs(s, ids[j], transcript[j]) && Sound(lab, s, ids[j]);
      assert Regenerated(transcript, slot, bytes, j);
      RequestsAreWellFormed(lab, slot, Completions(transcript[..j]), bytes);
      if s.tasks[ids[j]].phase.Done? {
        HistoryNeverRefuses(lab, s, ids[j]);
      }
    }
  }

  // Each request was submitted after the answers to the earlier ones.
  ghost predicate OneAtATime(s: State, ids: seq<nat>) {
    forall i, j :: 0 <= i < j < |ids| && ids[i] < |s.tasks| && ids[j] < |s.tasks| && s.tasks[ids[i]].phase.Done? ==>
      s.tasks[ids[i]].phase.at < s.tasks[ids[j]].invoked
  }

  // Entry r resets the slot, all of ids came after it, and nothing else has written the slot since.
  ghost predicate OnlyWriter(s: State, slot: nat, ids: seq<nat>, r: nat) {
    && r < |s.log| && Covers(s.log[r], slot)
    && (forall j :: 0 <= j < |ids| && ids[j] < |s.tasks| ==> s.tasks[ids[j]].invoked > r)
    && NoneElse(s, slot, ids, r)
  }

  ghost predicate NoneElse(s: State, slot: nat, ids: seq<nat>, r: nat) {
    forall k :: r < k < |s.log| ==> ClientsOwn(s, slot, ids, k)
  }

  ghost predicate ClientsOwn(s: State, slot: nat, ids: seq<nat>, k: nat)
    requires k < |s.log|
  {
    && !Covers(s.log[k], slot)
    && (WritesChunk(s.log[k], slot) ==> s.log[k].id in ids)
  }

  // The position at which exchange j took effect.
  function At(s: State, ids: seq<nat>, j: nat): nat
    requires j < |ids| && ids[j] < |s.tasks|
  {
    var p := s.tasks[ids[j]].phase;
    if p.Done? then p.at else 0
  }

  // Matching the first n entries of the history with the first m exchanges of the client.
  lemma {:induction false} HistoryIsTranscript(lab: Lab, s: State, slot: nat, bytes: nat, ids: seq<nat>,
                                               transcript: seq<Exchange>, r: nat, n: nat, m: nat)
    requires LabMachine.Inv(lab, s)
    requires Resolves(s, ids, transcript) && OneAtATime(s, ids) && OnlyWriter(s, slot, ids, r)
    requires Faithful(transcript, slot, bytes)
    requires r < n <= |s.log| && m <= |transcript|
    requires forall j :: 0 <= j < |ids| && transcript[j].reply != TooMany ==> (At(s, ids, j) < n <==> j < m)
    ensures SlotHistory(s.log[..n], slot) == Admitted(transcript[..m])
    decreases n + m
  {
    hide Replay, Atomic, LoremChunk;
    if m > 0 {
      assert transcript[..m][..m - 1] == transcript[..m - 1];
      assert ResolvedAs(s, ids[m - 1], transcript[m - 1]) && Sound(lab, s, ids[m - 1]);
      assert Regenerated(transcript, slot, bytes, m - 1);
    }
    assert s.log[..n][..n - 1] == s.log[..n - 1];
    if m > 0 && transcript[m - 1].reply == TooMany {
      HistoryIsTranscript(lab, s, slot, bytes, ids, transcript, r, n, m - 1);
    } else if n == r + 1 {
    } else if WritesChunk(s.log[n - 1], slot) {
      WriterOf(lab, s, slot, ids, transcript, r, n - 1, m);
      EarlierEntries(lab, s, ids, transcript, n, m);
      HistoryIsTranscript(lab, s, slot, bytes, ids, transcript, r, n - 1, m - 1);
    } else {
      assert ClientsOwn(s, slot, ids, n - 1);
      NotTheEntry(lab, s, slot, bytes, ids, transcript, n - 1);
      HistoryIsTranscript(lab, s, slot, bytes, ids, transcript, r, n - 1, m);
    }
  }

  // A chunk entry for the slot was made for the last of the first m exchanges.
  lemma WriterOf(lab: Lab, s: State, slot: nat, ids: seq<nat>, transcript: seq<Exchange>, r: nat, k: nat, m: nat)
    requires LabMachine.Inv(lab, s)
    requires Resolves(s, ids, transcript) && OneAtATime(s, ids) && OnlyWriter(s, slot, ids, r)
    requires r < k < |s.log| && m <= |transcript| && WritesChunk(s.log[k], slot)
    requires forall j :: 0 <= j < |ids| && transcript[j].reply != TooMany ==> (At(s, ids, j) < k + 1 <==> j < m)
    requires m > 0 ==> transcript[m - 1].reply != TooMany
    ensures m > 0 && At(s, ids, m - 1) == k && s.log[k].reply == transcript[m - 1].reply
    ensures s.log[k].op.request == transcript[m - 1].request
  {
    assert ClientsOwn(s, slot, ids, k) && Attributed(s, k);
    var j :| 0 <= j < |ids| && ids[j] == s.log[k].id;
    assert ResolvedAs(s, ids[j], transcript[j]) && Sound(lab, s, ids[j]);
    assert At(s, ids, j) == k;
    assert ResolvedAs(s, ids[m - 1], transcript[m - 1]) && Sound(lab, s, ids[m - 1]);
  }

  // The exchanges before the one that made entry n - 1 took effect before it.
  lemma EarlierEntries(lab: Lab, s: State, ids: seq<nat>, transcript: seq<Exchange>, n: nat, m: nat)
    requires LabMachine.Inv(lab, s)
    requires Resolves(s, ids, transcript) && OneAtATime(s, ids)
    requires 0 < n <= |s.log| && 0 < m <= |transcript| && transcript[m - 1].reply != TooMany
    requires At(s, ids, m - 1) == n - 1
    requires forall j :: 0 <= j < |ids| && transcript[j].reply != TooMany ==> (At(s, ids, j) < n <==> j < m)
    ensures forall j :: 0 <= j < |ids| && transcript[j].reply != TooMany ==> (At(s, ids, j) < n - 1 <==> j < m - 1)
  {
    forall j | 0 <= j < |ids| && transcript[j].reply != TooMany
      ensures At(s, ids, j) < n - 1 <==> j < m - 1
    {
      assert ResolvedAs(s, ids[j], transcript[j]) && ResolvedAs(s, ids[m - 1], transcript[m - 1]);
      assert Sound(lab, s, ids[m - 1]);
    }
  }

  // An entry that does not write the slot belongs to no exchange.
  lemma NotTheEntry(lab: Lab, s: State, slot: nat, bytes: nat, ids: seq<nat>, transcript: seq<Exchange>, k: nat)
    requires LabMachine.Inv(lab, s)
    requires Resolves(s, ids, transcript) && Faithful(transcript, slot, bytes)
    requires k < |s.log| && !WritesChunk(s.log[k], slot)
    ensures forall j :: 0 <= j < |ids| && transcript[j].reply != TooMany ==> At(s, ids, j) != k
  {
    forall j | 0 <= j < |ids| && transcript[j].reply != TooMany
      ensures At(s, ids, j) != k
    {
      assert ResolvedAs(s, ids[j], transcript[j]) && Sound(lab, s, ids[j]);
      assert Regenerated(transcript, slot, bytes, j);
    }
  }

  // ---------- the client in a run ----------

  // By the time cut events have happened, request id has been submitted and answered.
  ghost predicate AnsweredBy(lab: Lab, events: seq<Event>, cut: nat, id: nat) {
    && cut <= |events|
    && id < |Run(lab, events[..cut]).tasks|
    && HasAnswer(Run(lab, events[..cut]).tasks[id])
  }

  // By that time it has not even been submitted.
  ghost predicate NotYet(lab: Lab, events: seq<Event>, cut: nat, id: nat) {
    cut <= |events| && |Run(lab, events[..cut]).tasks| <= id
  }

  // The client waits: when its request j goes out, cuts[j] events into the run, its reset and all its
  // earlier requests have been answered.
  ghost predicate Waits(lab: Lab, events: seq<Event>, reset: nat, ids: seq<nat>, cuts: seq<nat>) {
    && |cuts| == |ids|
    && (forall j :: 0 <= j < |ids| ==> NotYet(lab, events, cuts[j], ids[j]) && AnsweredBy(lab, events, cuts[j], reset))
    && (forall i, j :: 0 <= i < j < |ids| ==> AnsweredBy(lab, events, cuts[j], ids[i]))
  }

  // The reset was carried out, and after it nobody but the client has written the slot.
  ghost predicate OwnsSlot(s: State, slot: nat, reset: nat, ids: seq<nat>) {
    && reset < |s.tasks| && s.tasks[reset].phase.Done?
    && s.tasks[reset].request.Reset? && slot < s.tasks[reset].request.count
    && NoneElse(s, slot, ids, s.tasks[reset].phase.at)
  }

  // What is answered before something is submitted precedes it in the history.
  lemma AnsweredComesFirst(lab: Lab, events: seq<Event>, cut: nat, a: nat, b: nat)
    requires AnsweredBy(lab, events, cut, a) && NotYet(lab, events, cut, b)
    requires b < |Run(lab, events).tasks| && Run(lab, events).tasks[a].phase.Done?
    ensures Run(lab, events).tasks[a].phase.at < Run(lab, events).tasks[b].invoked
  {
    hide Run, Step, Replay, Atomic;
    var early, more := events[..cut], events[cut..];
    assert early + more == events;
    LabGuarantees.RunIsLater(lab, early, more);
    LabMachine.RunKeeps(lab, early);
    var p, s := Run(lab, early), Run(lab, events);
    assert LabGuarantees.Continues(p.tasks[a], s.tasks[a]) && Sound(lab, p, a);
  }

  lemma WaitingIsOneAtATime(lab: Lab, events: seq<Event>, slot: nat, reset: nat, ids: seq<nat>, cuts: seq<nat>)
    requires Waits(lab, events, reset, ids, cuts) && OwnsSlot(Run(lab, events), slot, reset, ids)
    ensures OneAtATime(Run(lab, events), ids)
    ensures OnlyWriter(Run(lab, events), slot, ids, Run(lab, events).tasks[reset].phase.at)
  {
    hide Run, Replay, Atomic;
    LabMachine.RunKeeps(lab, events);
    var s := Run(lab, events);
    assert Sound(lab, s, reset);
    forall i, j | 0 <= i < j < |ids| && ids[i] < |s.tasks| && ids[j] < |s.tasks| && s.tasks[ids[i]].phase.Done?
      ensures s.tasks[ids[i]].phase.at < s.tasks[ids[j]].invoked
    {
      AnsweredComesFirst(lab, events, cuts[j], ids[i], ids[j]);
    }
    forall j | 0 <= j < |ids| && ids[j] < |s.tasks|
      ensures s.tasks[ids[j]].invoked > s.tasks[reset].phase.at
    {
      AnsweredComesFirst(lab, events, cuts[j], reset, ids[j]);
    }
  }

  // Whatever else the server does meanwhile: a session client that waits for its answers and is the only
  // writer of its slot since a reset is never told of a malformed request, a conflict or a full state,
  // and the bytes and counts it predicts are the ones the server holds.
  lemma AgreementInEveryRun(lab: Lab, events: seq<Event>, slot: nat, bytes: nat, reset: nat, ids: seq<nat>,
                            cuts: seq<nat>, transcript: seq<Exchange>)
    requires slot < lab.slots && 0 < bytes <= MAX_CHUNK_BYTES
    requires Waits(lab, events, reset, ids, cuts) && OwnsSlot(Run(lab, events), slot, reset, ids)
    requires Answers(Run(lab, events), ids, transcript)
    requires Faithful(transcript, slot, bytes)
    requires |transcript| <= STREAM_STATE_BYTES / bytes
    ensures forall j :: 0 <= j < |transcript| ==> Usable(transcript[j].reply)
    ensures Run(lab, events).store.sessions[slot] == CyclicSession(Completions(transcript), bytes)
  {
    hide Run;
    LabMachine.RunKeeps(lab, events);
    var s := Run(lab, events);
    WaitingIsOneAtATime(lab, events, slot, reset, ids, cuts);
    AnswersResolve(lab, s, slot, bytes, ids, transcript);
    ResolvedAgrees(lab, s, slot, bytes, ids, transcript, s.tasks[reset].phase.at);
  }

  lemma ResolvedAgrees(lab: Lab, s: State, slot: nat, bytes: nat, ids: seq<nat>, transcript: seq<Exchange>, r: nat)
    requires LabMachine.Inv(lab, s) && slot < lab.slots && 0 < bytes
    requires Resolves(s, ids, transcript) && OneAtATime(s, ids) && OnlyWriter(s, slot, ids, r)
    requires Faithful(transcript, slot, bytes)
    requires |transcript| <= STREAM_STATE_BYTES / bytes
    ensures forall j :: 0 <= j < |transcript| ==> Usable(transcript[j].reply)
    ensures s.store.sessions[slot] == CyclicSession(Completions(transcript), bytes)
  {
    hide SlotHistory, Admitted, Faithful, NeverRefused, Usable, OneAtATime, Replay, Atomic, CyclicSession, Completions;
    forall j | 0 <= j < |ids| && transcript[j].reply != TooMany
      ensures At(s, ids, j) < |s.log|
    {
      assert ResolvedAs(s, ids[j], transcript[j]) && Sound(lab, s, ids[j]);
    }
    HistoryIsTranscript(lab, s, slot, bytes, ids, transcript, r, |s.log|, |transcript|);
    assert s.log[..|s.log|] == s.log && transcript[..|transcript|] == transcript;
    AdmittedFaithful(transcript, slot, bytes);
    AdmittedCompletions(transcript);
    CapacitySuffices(|Admitted(transcript)|, bytes);
    FaithfulWriterAgrees(lab, s.log, slot, bytes);
    UsableReplies(transcript);
  }

  lemma CapacitySuffices(n: nat, bytes: nat)
    requires 0 < bytes && n <= STREAM_STATE_BYTES / bytes
    ensures n * bytes <= STREAM_STATE_BYTES
  {
    var q := STREAM_STATE_BYTES / bytes;
    assert q * bytes <= STREAM_STATE_BYTES;
    assert n * bytes <= q * bytes;
  }

  lemma {:induction false} UsableReplies(transcript: seq<Exchange>)
    requires NeverRefused(Admitted(transcript))
    ensures forall j :: 0 <= j < |transcript| ==> Usable(transcript[j].reply)
  {
    if transcript != [] {
      var last := |transcript| - 1;
      var before := Admitted(transcript[..last]);
      assert forall j :: 0 <= j < |before| ==> before[j] == Admitted(transcript)[j];
      UsableReplies(transcript[..last]);
      if transcript[last].reply != TooMany {
        assert Admitted(transcript)[|before|] == transcript[last];
      }
    }
  }
}
