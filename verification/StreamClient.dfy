// The stream benchmark's client for one session: it regenerates cyclic text by sequence number,
// retries the same sequence number until it completes, and predicts the server's state.
module StreamClient {
  import opened Division
  import opened Wasm32
  import opened LabSpec
  import opened StreamCapitalize

  const LOREM_LEN: nat := 124

  predicate Ascii(s: string) {
    forall i :: 0 <= i < |s| ==> s[i] as int < 128
  }

  function LoremFront(): string {
    "Lorem ipsum dolor sit amet, " + "consectetur adipiscing elit, "
  }

  function LoremBack(): string {
    "sed do eiusmod tempor incididunt " + "ut labore et dolore magna aliqua. "
  }

  function Lorem(): (text: string)
    ensures |text| == LOREM_LEN && Ascii(text)
  {
    AsciiFront();
    AsciiBack();
    LoremFront() + LoremBack()
  }

  lemma AsciiFront()
    ensures Ascii(LoremFront()) && |LoremFront()| == 57
  {
    assert Ascii("Lorem ipsum dolor sit amet, ");
    assert Ascii("consectetur adipiscing elit, ");
  }

  lemma AsciiBack()
    ensures Ascii(LoremBack()) && |LoremBack()| == 67
  {
    assert Ascii("sed do eiusmod tempor incididunt ");
    assert Ascii("ut labore et dolore magna aliqua. ");
  }

  // Character i of the endlessly repeated text.
  function LoremByte(i: nat): (b: byte)
    ensures b < 128
  {
    Lorem()[i % LOREM_LEN] as int
  }

  function LoremChunk(sequence: nat, bytes: nat): (chunk: seq<byte>)
    ensures |chunk| == bytes
  {
    var start := sequence * bytes % LOREM_LEN;
    Window(start, bytes)
  }

  // The given number of characters of the repeated text, from position start on.
  function Window(start: nat, bytes: nat): (text: seq<byte>)
    ensures |text| == bytes
  {
    if bytes == 0 then [] else Window(start, bytes - 1) + [LoremByte(start + bytes - 1)]
  }

  function Cyclic(n: nat): (text: seq<byte>)
    ensures |text| == n
  {
    Window(0, n)
  }

  // Repetition: the text looks the same from positions that differ by whole periods.
  lemma PeriodicByte(n: nat, i: nat)
    ensures LoremByte(n % LOREM_LEN + i) == LoremByte(n + i)
  {
    SameRemainder(n, i, LOREM_LEN);
  }

  lemma {:induction false} WindowAt(start: nat, bytes: nat, i: nat)
    requires i < bytes
    ensures Window(start, bytes)[i] == LoremByte(start + i)
  {
    hide LoremByte;
    if i < bytes - 1 {
      WindowAt(start, bytes - 1, i);
    }
  }

  lemma {:induction false} WindowShift(n: nat, bytes: nat)
    ensures Window(n % LOREM_LEN, bytes) == Window(n, bytes)
  {
    hide LoremByte;
    if bytes > 0 {
      WindowShift(n, bytes - 1);
      PeriodicByte(n, bytes - 1);
    }
  }

  lemma {:induction false} WindowJoins(n: nat, bytes: nat)
    ensures Window(0, n) + Window(n, bytes) == Window(0, n + bytes)
  {
    hide LoremByte;
    if bytes > 0 {
      WindowJoins(n, bytes - 1);
    }
  }

  lemma ChunkContinues(sequence: nat, bytes: nat)
    ensures Cyclic(sequence * bytes) + LoremChunk(sequence, bytes) == Cyclic((sequence + 1) * bytes)
  {
    hide LoremByte, Window;
    WindowShift(sequence * bytes, bytes);
    WindowJoins(sequence * bytes, bytes);
    RowAbove(sequence + 1, bytes);
  }

  lemma SameRemainder(n: nat, i: nat, k: nat)
    requires k > 0
    ensures (n % k + i) % k == (n + i) % k
  {
    var q := (n % k + i) / k;
    assert n == n / k * k + n % k;
    assert n % k + i == q * k + (n % k + i) % k;
    assert (n / k + q) * k == n / k * k + q * k;
    RemainderUnique(n + i, k, n / k + q, (n % k + i) % k);
  }

  function Chunks(n: nat, bytes: nat): seq<seq<byte>> {
    seq(n, i requires 0 <= i => LoremChunk(i, bytes))
  }

  // The regenerated chunks join without gap or overlap.
  lemma {:induction false} GapFree(n: nat, bytes: nat)
    ensures Concat(Chunks(n, bytes)) == Cyclic(n * bytes)
  {
    hide LoremByte, LoremChunk, Window, Cyclic;
    if n == 0 {
      assert Cyclic(0 * bytes) == [];
    } else {
      GapFree(n - 1, bytes);
      assert Chunks(n, bytes)[..n - 1] == Chunks(n - 1, bytes);
      ChunkContinues(n - 1, bytes);
    }
  }

  // ---------- the client ----------

  datatype Exchange = Exchange(request: Request, reply: Reply)

  // What comes back for a request: an answer at some time, or nothing usable.
  datatype Response = Answer(at: real, reply: Reply) | Lost

  datatype RecordOutcome = ClientBackpressure | ServerThrottled | Answered(outcome: LabSpec.Outcome)

  datatype Record = Record(slot: nat, sequence: nat, outcome: RecordOutcome)

  datatype SessionRun = SessionRun(
    records: seq<Record>,
    expected: seq<byte>,
    completed: nat,
    serverThrottled: nat,
    clientBackpressured: nat,
    failed: nat)

  datatype SessionResult = Finished(run: SessionRun) | Aborted

  function Completions(transcript: seq<Exchange>): nat {
    if transcript == [] then 0
    else
      var reply := transcript[|transcript| - 1].reply;
      Completions(transcript[..|transcript| - 1]) + if reply.Ran? && reply.outcome == Complete then 1 else 0
  }

  // Every request carries the number of completions so far and the chunk that belongs to it.
  ghost predicate Faithful(transcript: seq<Exchange>, slot: nat, bytes: nat) {
    forall j :: 0 <= j < |transcript| ==> Regenerated(transcript, slot, bytes, j)
  }

  ghost predicate Regenerated(transcript: seq<Exchange>, slot: nat, bytes: nat, j: nat)
    requires j < |transcript|
  {
    var n := Completions(transcript[..j]);
    transcript[j].request == Chunk(slot, n, LoremChunk(n, bytes))
  }

  lemma FaithfulExtend(transcript: seq<Exchange>, slot: nat, bytes: nat, e: Exchange)
    requires Faithful(transcript, slot, bytes)
    requires e.request == Chunk(slot, Completions(transcript), LoremChunk(Completions(transcript), bytes))
    ensures Faithful(transcript + [e], slot, bytes)
    ensures Completions(transcript + [e]) ==
            Completions(transcript) + if e.reply.Ran? && e.reply.outcome == Complete then 1 else 0
  {
    var grown := transcript + [e];
    assert grown[..|transcript|] == transcript;
    forall j | 0 <= j < |grown|
      ensures Regenerated(grown, slot, bytes, j)
    {
      if j < |transcript| {
        assert Regenerated(transcript, slot, bytes, j);
        assert grown[..j] == transcript[..j];
      }
    }
  }

  function RecordCount(records: seq<Record>, outcome: RecordOutcome): nat {
    if records == [] then 0
    else RecordCount(records[..|records| - 1], outcome) + if records[|records| - 1].outcome == outcome then 1 else 0
  }

  // The totals say what the records say, and every offered index is accounted for once.
  ghost predicate Balanced(run: SessionRun, slot: nat, offered: nat, omitted: nat) {
    && |run.records| == offered
    && (forall i :: 0 <= i < |run.records| ==> run.records[i].slot == slot)
    && run.completed == RecordCount(run.records, Answered(Complete))
    && run.failed == RecordCount(run.records, Answered(Late)) + RecordCount(run.records, Answered(Broken))
    && run.serverThrottled == RecordCount(run.records, ServerThrottled)
    && run.clientBackpressured == omitted + RecordCount(run.records, ClientBackpressure)
    && run.completed + run.failed + run.serverThrottled + run.clientBackpressured == offered + omitted
  }

  // One more record, with the total it belongs to.
  function Noted(run: SessionRun, record: Record): SessionRun {
    var noted := run.(records := run.records + [record]);
    match record.outcome
    case ClientBackpressure => noted.(clientBackpressured := run.clientBackpressured + 1)
    case ServerThrottled => noted.(serverThrottled := run.serverThrottled + 1)
    case Answered(outcome) =>
      if outcome == Complete then noted.(completed := run.completed + 1) else noted.(failed := run.failed + 1)
  }

  lemma NotedBalances(run: SessionRun, record: Record, run': SessionRun, offered: nat, omitted: nat)
    requires Balanced(run, record.slot, offered, omitted)
    requires run' == Noted(run, record).(expected := run'.expected)
    ensures Balanced(run', record.slot, offered + 1, omitted) && run'.records == run.records + [record]
  {
    var records := run.records + [record];
    assert records[..|run.records|] == run.records;
  }

  // When the client is free again after the recorded indices.
  function AvailableAt(records: seq<Record>, started: real, responses: seq<Response>): real
    requires |records| <= |responses|
  {
    if records == [] then started
    else
      var last := |records| - 1;
      if records[last].outcome == ClientBackpressure || responses[last].Lost?
      then AvailableAt(records[..last], started, responses)
      else responses[last].at
  }

  // An index is held back by the client exactly when it is due before the client is free.
  ghost predicate Punctual(records: seq<Record>, indices: seq<nat>, rate: real, started: real, responses: seq<Response>)
    requires rate > 0.0 && |records| <= |responses| == |indices|
  {
    records == [] ||
    var last := |records| - 1;
    && Punctual(records[..last], indices, rate, started, responses)
    && (records[last].outcome == ClientBackpressure <==>
          started + indices[last] as real / rate < AvailableAt(records[..last], started, responses))
  }

  lemma {:induction false} PunctualPrefix(records: seq<Record>, indices: seq<nat>, rate: real, started: real,
                                          responses: seq<Response>, k: nat)
    requires rate > 0.0 && k <= |records| <= |responses| == |indices|
    requires Punctual(records, indices, rate, started, responses)
    ensures Punctual(records[..k], indices, rate, started, responses)
  {
    if k < |records| {
      var last := |records| - 1;
      PunctualPrefix(records[..last], indices, rate, started, responses, k);
      assert records[..last][..k] == records[..k];
    } else {
      assert records[..k] == records;
    }
  }

  // While the client holds back, it stays unavailable until the answer to its last request.
  lemma {:induction false} AvailableAfter(records: seq<Record>, started: real, responses: seq<Response>, j: nat)
    requires j < |records| <= |responses| && responses[j].Answer?
    requires records[j].outcome != ClientBackpressure
    requires forall i :: j < i < |records| ==> records[i].outcome == ClientBackpressure
    ensures AvailableAt(records, started, responses) == responses[j].at
  {
    if j < |records| - 1 {
      AvailableAfter(records[..|records| - 1], started, responses, j);
    }
  }

  lemma {:induction false} AvailableFromTheStart(records: seq<Record>, started: real, responses: seq<Response>)
    requires |records| <= |responses| && forall i :: 0 <= i < |records| ==> records[i].outcome == ClientBackpressure
    ensures AvailableAt(records, started, responses) == started
  {
    if records != [] {
      AvailableFromTheStart(records[..|records| - 1], started, responses);
    }
  }

  // An index is held back exactly when it is due before the answer to the last index that was sent.
  lemma HeldBackWhileBusy(records: seq<Record>, indices: seq<nat>, rate: real, started: real,
                          responses: seq<Response>, j: nat, k: nat)
    requires rate > 0.0 && |records| <= |responses| == |indices|
    requires Punctual(records, indices, rate, started, responses)
    requires j < k < |records| && responses[j].Answer? && records[j].outcome != ClientBackpressure
    requires forall i :: j < i < k ==> records[i].outcome == ClientBackpressure
    ensures records[k].outcome == ClientBackpressure <==> started + indices[k] as real / rate < responses[j].at
  {
    hide AvailableAt;
    PunctualPrefix(records, indices, rate, started, responses, k + 1);
    assert records[..k + 1][..k] == records[..k];
    AvailableAfter(records[..k], started, responses, j);
  }

  // The first index of a session is always sent.
  lemma FirstIsSent(records: seq<Record>, indices: seq<nat>, rate: real, started: real, responses: seq<Response>)
    requires rate > 0.0 && 0 < |records| <= |responses| == |indices|
    requires Punctual(records, indices, rate, started, responses)
    ensures records[0].outcome != ClientBackpressure
  {
    hide AvailableAt;
    PunctualPrefix(records, indices, rate, started, responses, 1);
    AvailableFromTheStart([], started, responses);
    assert records[..1][..0] == [];
    DueIsNonNegative(indices[0], rate);
  }

  lemma DueIsNonNegative(index: nat, rate: real)
    requires rate > 0.0
    ensures index as real / rate >= 0.0
  {
    var due := index as real / rate;
    assert due * rate == index as real;
    assert due < 0.0 ==> due * rate < 0.0;
  }

  lemma PunctualExtends(records: seq<Record>, record: Record, indices: seq<nat>, rate: real, started: real,
                        responses: seq<Response>)
    requires rate > 0.0 && |records| < |responses| == |indices|
    requires Punctual(records, indices, rate, started, responses)
    requires record.outcome == ClientBackpressure <==>
             started + indices[|records|] as real / rate < AvailableAt(records, started, responses)
    ensures Punctual(records + [record], indices, rate, started, responses)
    ensures AvailableAt(records + [record], started, responses) ==
            if record.outcome == ClientBackpressure || responses[|records|].Lost?
            then AvailableAt(records, started, responses) else responses[|records|].at
  {
    assert (records + [record])[..|records|] == records;
  }

  // The bookkeeping of one exchange that the client can use.
  method Digest(run: SessionRun, slot: nat, bytes: nat, reply: Reply) returns (run': SessionRun, record: Record)
    requires reply.Ran? || reply == TooMany
    requires run.expected == Upper(Cyclic(run.completed * bytes))
    ensures run'.expected == Upper(Cyclic(run'.completed * bytes))
    ensures run'.completed == run.completed + if reply.Ran? && reply.outcome == Complete then 1 else 0
    ensures record == if reply == TooMany then Record(slot, run.completed, ServerThrottled)
                      else Record(slot, reply.sequence, Answered(reply.outcome))
    ensures run' == Noted(run, record).(expected := run'.expected)
  {
    hide LoremByte, LoremChunk, Window, Cyclic;
    run' := run;
    if reply == TooMany {
      run' := run'.(serverThrottled := run'.serverThrottled + 1);
      record := Record(slot, run.completed, ServerThrottled);
    } else {
      if reply.outcome == Complete {
        var chunk := LoremChunk(run.completed, bytes);
        ChunkContinues(run.completed, bytes);
        UpperConcat(Cyclic(run.completed * bytes), chunk);
        run' := run'.(expected := run'.expected + Upper(chunk));
        run' := run'.(completed := run'.completed + 1);
      } else {
        run' := run'.(failed := run'.failed + 1);
      }
      record := Record(slot, reply.sequence, Answered(reply.outcome));
    }
    run' := run'.(records := run'.records + [record]);
  }

  // A session that has just begun.
  lemma NothingYet(run: SessionRun, slot: nat, omitted: nat, bytes: nat, indices: seq<nat>, rate: real,
                   started: real, responses: seq<Response>)
    requires run == SessionRun([], [], 0, 0, omitted, 0) && rate > 0.0 && |responses| == |indices|
    ensures Balanced(run, slot, 0, omitted) && Faithful([], slot, bytes)
    ensures run.expected == Upper(Cyclic(0 * bytes))
    ensures AvailableAt(run.records, started, responses) == started
    ensures Punctual(run.records, indices, rate, started, responses)
  {
    assert 0 * bytes == 0;
  }

  // `run_session`, against arbitrary responses.  The offset of an index is index / rate seconds.
  method RunSession(slot: nat, indices: seq<nat>, omitted: nat, bytes: nat, rate: real, started: real,
                    responses: seq<Response>)
    returns (r: SessionResult, transcript: seq<Exchange>)
    requires rate > 0.0 && |responses| == |indices|
    ensures Faithful(transcript, slot, bytes) && |transcript| <= |indices|
    ensures r.Finished? ==>
              && Balanced(r.run, slot, |indices|, omitted)
              && r.run.completed == Completions(transcript)
              && r.run.expected == Upper(Cyclic(r.run.completed * bytes))
              && Punctual(r.run.records, indices, rate, started, responses)
    ensures r.Aborted? ==> Lost in responses || (transcript != [] && !Usable(transcript[|transcript| - 1].reply))
  {
    hide LoremByte, LoremChunk, Window, Cyclic, Upper, Balanced, Punctual, AvailableAt, Faithful;
    var run := SessionRun([], [], 0, 0, omitted, 0);
    transcript := [];
    NothingYet(run, slot, omitted, bytes, indices, rate, started, responses);
    var nextSequence := 0;
    var availableAt := started;
    for k := 0 to |indices|
      invariant |run.records| == k
      invariant Faithful(transcript, slot, bytes) && |transcript| <= k
      invariant nextSequence == run.completed == Completions(transcript)
      invariant run.expected == Upper(Cyclic(run.completed * bytes))
      invariant Balanced(run, slot, k, omitted)
      invariant availableAt == AvailableAt(run.records, started, responses)
      invariant Punctual(run.records, indices, rate, started, responses)
    {
      ghost var before := run;
      var scheduledAt := started + indices[k] as real / rate;
      var record := Record(slot, nextSequence, ClientBackpressure);
      if scheduledAt < availableAt {
        run := run.(clientBackpressured := run.clientBackpressured + 1, records := run.records + [record]);
        NotedBalances(before, record, run, k, omitted);
        PunctualExtends(before.records, record, indices, rate, started, responses);
        continue;
      }
      var request := Chunk(slot, nextSequence, LoremChunk(nextSequence, bytes));
      var response := responses[k];
      if response.Lost? {
        return Aborted, transcript;
      }
      availableAt := response.at;
      FaithfulExtend(transcript, slot, bytes, Exchange(request, response.reply));
      transcript := transcript + [Exchange(request, response.reply)];
      if !Usable(response.reply) {
        return Aborted, transcript;
      }
      run, record := Digest(run, slot, bytes, response.reply);
      if response.reply.Ran? && response.reply.outcome == Complete {
        nextSequence := nextSequence + 1;
      }
      NotedBalances(before, record, run, k, omitted);
      PunctualExtends(before.records, record, indices, rate, started, responses);
    }
    return Finished(run), transcript;
  }

  // Any other status, or a body of another shape, ends the session with an error.
  predicate Usable(reply: Reply) {
    reply.Ran? || reply == TooMany
  }
}
