// One scenario of the stream benchmark: the offered indices are dealt round-robin to the sessions,
// the sessions' results are added up as they finish, and every session is checked against the server.
module StreamScenario {
  import opened Division
  import opened Wasm32
  import opened LabSpec
  import opened StreamClient
  import LabMachine
  import StreamAgreement
  import StreamCapitalize

  // ---------- dealing the indices ----------

  // The indices below n that fall to a slot, in order.
  function Dealt(slot: nat, count: nat, n: nat): seq<nat>
    requires count > 0
  {
    if n == 0 then []
    else Dealt(slot, count, n - 1) + if (n - 1) % count == slot then [n - 1] else []
  }

  lemma NotCongruent(i: nat, d: nat, count: nat)
    requires 0 < d < count
    ensures (i + d) % count != i % count
  {
    var q := (i + d) / count - i / count;
    assert (i + d) == (i + d) / count * count + (i + d) % count;
    assert i == i / count * count + i % count;
    assert q * count == (i + d) / count * count - i / count * count;
    SignOfProduct(q, count);
    assert q == 0 ==> q * count == 0;
  }

  lemma {:induction false} DealtSkip(slot: nat, count: nat, i: nat, to: nat)
    requires count > 0 && i % count == slot && i < to <= i + count
    ensures Dealt(slot, count, to) == Dealt(slot, count, i) + [i]
  {
    if to > i + 1 {
      DealtSkip(slot, count, i, to - 1);
      NotCongruent(i, to - 1 - i, count);
    }
  }

  lemma {:induction false} DealtFromSlot(slot: nat, count: nat, n: nat)
    requires n <= slot < count
    ensures Dealt(slot, count, n) == []
  {
    if n > 0 {
      DealtFromSlot(slot, count, n - 1);
      SmallRemainder(n - 1, count);
    }
  }

  lemma SmallRemainder(i: nat, count: nat)
    requires i < count
    ensures i % count == i
  {
    RemainderUnique(i, count, 0, i);
  }

  // (slot..offered).step_by(count)
  method StepBy(slot: nat, count: nat, offered: nat) returns (indices: seq<nat>)
    requires slot < count
    ensures indices == Dealt(slot, count, offered)
  {
    indices := [];
    var i := slot;
    RemainderUnique(slot, count, 0, slot);
    DealtFromSlot(slot, count, if slot < offered then slot else offered);
    while i < offered
      invariant i % count == slot
      invariant indices == Dealt(slot, count, if i < offered then i else offered)
      decreases offered - i
    {
      indices := indices + [i];
      DealtSkip(slot, count, i, if i + count < offered then i + count else offered);
      NextCycle(i, count);
      i := i + count;
    }
  }

  // The number of indices below n that fall to a set of slots.
  function Claimed(slots: set<nat>, count: nat, n: nat): nat
    requires count > 0
  {
    if n == 0 then 0 else Claimed(slots, count, n - 1) + if (n - 1) % count in slots then 1 else 0
  }

  lemma {:induction false} ClaimOneMore(slots: set<nat>, slot: nat, count: nat, n: nat)
    requires count > 0 && slot !in slots
    ensures Claimed(slots + {slot}, count, n) == Claimed(slots, count, n) + |Dealt(slot, count, n)|
  {
    if n > 0 {
      ClaimOneMore(slots, slot, count, n - 1);
    }
  }

  lemma {:induction false} ClaimNone(count: nat, n: nat)
    requires count > 0
    ensures Claimed({}, count, n) == 0
  {
    if n > 0 {
      ClaimNone(count, n - 1);
    }
  }

  // All slots together claim every index exactly once.
  lemma {:induction false} ClaimAll(slots: set<nat>, count: nat, n: nat)
    requires count > 0 && forall slot :: 0 <= slot < count ==> slot in slots
    ensures Claimed(slots, count, n) == n
  {
    if n > 0 {
      ClaimAll(slots, count, n - 1);
      assert 0 <= (n - 1) % count < count;
    }
  }

  // An index is dealt to the slot it is congruent to, and to no other.
  lemma {:induction false} DealtExactly(slot: nat, count: nat, n: nat, i: nat)
    requires count > 0
    ensures i in Dealt(slot, count, n) <==> i < n && i % count == slot
  {
    if n > 0 {
      DealtExactly(slot, count, n - 1, i);
    }
  }

  lemma Successor(n: nat, count: nat)
    requires count > 0
    ensures n % count + 1 < count ==> (n + 1) / count == n / count && (n + 1) % count == n % count + 1
    ensures n % count + 1 == count ==> (n + 1) / count == n / count + 1 && (n + 1) % count == 0
  {
    assert n == n / count * count + n % count;
    if n % count + 1 < count {
      QuotientUnique(n + 1, count, n / count, n % count + 1);
      RemainderUnique(n + 1, count, n / count, n % count + 1);
    } else {
      RowAbove(n / count + 1, count);
      QuotientUnique(n + 1, count, n / count + 1, 0);
      RemainderUnique(n + 1, count, n / count + 1, 0);
    }
  }

  // Shares differ by at most one: the first n % count slots get one index more.
  lemma {:induction false} FairShares(slot: nat, count: nat, n: nat)
    requires slot < count
    ensures |Dealt(slot, count, n)| == n / count + if slot < n % count then 1 else 0
  {
    if n == 0 {
      QuotientUnique(0, count, 0, 0);
      RemainderUnique(0, count, 0, 0);
    } else {
      FairShares(slot, count, n - 1);
      Successor(n - 1, count);
    }
  }

  function Kept(slot: nat, count: nat, offered: nat, limit: nat): seq<nat>
    requires count > 0
  {
    var dealt := Dealt(slot, count, offered);
    if |dealt| <= limit then dealt else dealt[..limit]
  }

  function Omitted(slot: nat, count: nat, offered: nat, limit: nat): nat
    requires count > 0
  {
    |Dealt(slot, count, offered)| - |Kept(slot, count, offered, limit)|
  }

  // The share of one session, cut off at what its state can hold.
  method PlanSession(slot: nat, count: nat, offered: nat, limit: nat) returns (indices: seq<nat>, omitted: nat)
    requires slot < count
    ensures indices == Kept(slot, count, offered, limit) && omitted == Omitted(slot, count, offered, limit)
    ensures |indices| <= limit && (omitted > 0 ==> |indices| == limit)
    ensures |indices| + omitted == |Dealt(slot, count, offered)|
  {
    var dealt := StepBy(slot, count, offered);
    indices := if |dealt| <= limit then dealt else dealt[..limit];
    omitted := |dealt| - |indices|;
  }

  // ---------- adding up the sessions ----------

  datatype Totals = Totals(attempted: nat, completed: nat, serverThrottled: nat, clientBackpressured: nat, failed: nat)

  function CompletedFor(records: seq<Record>, slot: nat): nat {
    if records == [] then 0
    else
      var r := records[|records| - 1];
      CompletedFor(records[..|records| - 1], slot) + if r.slot == slot && r.outcome == Answered(Complete) then 1 else 0
  }

  lemma {:induction false} CompletedForConcat(a: seq<Record>, b: seq<Record>, slot: nat)
    ensures CompletedFor(a + b, slot) == CompletedFor(a, slot) + CompletedFor(b, slot)
  {
    if b == [] {
      assert a + b == a;
    } else {
      CompletedForConcat(a, b[..|b| - 1], slot);
      assert (a + b)[..|a + b| - 1] == a + b[..|b| - 1];
    }
  }

  // A session's records count for its own slot only.
  lemma {:induction false} CompletedForOwn(records: seq<Record>, own: nat, slot: nat)
    requires forall i :: 0 <= i < |records| ==> records[i].slot == own
    ensures CompletedFor(records, slot) == if slot == own then RecordCount(records, Answered(Complete)) else 0
  {
    if records != [] {
      CompletedForOwn(records[..|records| - 1], own, slot);
    }
  }

  // The records that were not held back by the client.
  method CountAttempts(records: seq<Record>) returns (n: nat)
    ensures n == |records| - RecordCount(records, ClientBackpressure)
  {
    n := 0;
    for i := 0 to |records|
      invariant n == i - RecordCount(records[..i], ClientBackpressure)
    {
      assert records[..i + 1][..i] == records[..i];
      if records[i].outcome != ClientBackpressure {
        n := n + 1;
      }
    }
    assert records[..|records|] == records;
  }

  // A finished session, with the slot it served.
  datatype Joined = Joined(slot: nat, run: SessionRun)

  ghost predicate Plausible(j: Joined, count: nat, offered: nat, limit: nat)
    requires count > 0
  {
    && j.slot < count
    && Balanced(j.run, j.slot, |Kept(j.slot, count, offered, limit)|, Omitted(j.slot, count, offered, limit))
  }

  function SlotsOf(joined: seq<Joined>): set<nat> {
    set i | 0 <= i < |joined| :: joined[i].slot
  }

  // The sessions join in any order; every offered index ends up in exactly one total.
  method Collect(joined: seq<Joined>, count: nat, offered: nat, limit: nat)
    returns (t: Totals, records: seq<Record>)
    requires count > 0
    requires forall i :: 0 <= i < |joined| ==> Plausible(joined[i], count, offered, limit)
    requires forall i, j :: 0 <= i < j < |joined| ==> joined[i].slot != joined[j].slot
    requires forall slot :: 0 <= slot < count ==> slot in SlotsOf(joined)
    ensures t.completed + t.failed + t.serverThrottled + t.clientBackpressured == offered
    ensures t.attempted == t.completed + t.failed + t.serverThrottled
    ensures forall i :: 0 <= i < |joined| ==> CompletedFor(records, joined[i].slot) == joined[i].run.completed
  {
    t, records := Totals(0, 0, 0, 0, 0), [];
    ghost var claimed: set<nat> := {};
    ClaimNone(count, offered);
    for k := 0 to |joined|
      invariant claimed == SlotsOf(joined[..k])
      invariant t.completed + t.failed + t.serverThrottled + t.clientBackpressured == Claimed(claimed, count, offered)
      invariant t.attempted == t.completed + t.failed + t.serverThrottled
      invariant forall slot :: CompletedFor(records, slot) == CompletedSoFar(joined[..k], slot)
    {
      var run := joined[k].run;
      assert Plausible(joined[k], count, offered, limit);
      var attempts := CountAttempts(run.records);
      t := Totals(t.attempted + attempts, t.completed + run.completed, t.serverThrottled + run.serverThrottled,
                  t.clientBackpressured + run.clientBackpressured, t.failed + run.failed);
      JoinOne(joined, k, records);
      ClaimOneMore(claimed, joined[k].slot, count, offered);
      claimed := claimed + {joined[k].slot};
      records := records + run.records;
    }
    assert joined[..|joined|] == joined;
    ClaimAll(claimed, count, offered);
    forall i | 0 <= i < |joined|
      ensures CompletedFor(records, joined[i].slot) == joined[i].run.completed
    {
      OneJoinPerSlot(joined, i);
    }
  }

  function CompletedSoFar(joined: seq<Joined>, slot: nat): nat {
    if joined == [] then 0
    else
      var last := joined[|joined| - 1];
      CompletedSoFar(joined[..|joined| - 1], slot) + if last.slot == slot then last.run.completed else 0
  }

  lemma JoinOne(joined: seq<Joined>, k: nat, records: seq<Record>)
    requires k < |joined|
    requires forall i, j :: 0 <= i < j < |joined| ==> joined[i].slot != joined[j].slot
    requires forall i :: 0 <= i < |joined[k].run.records| ==> joined[k].run.records[i].slot == joined[k].slot
    requires joined[k].run.completed == RecordCount(joined[k].run.records, Answered(Complete))
    requires forall slot :: CompletedFor(records, slot) == CompletedSoFar(joined[..k], slot)
    ensures joined[k].slot !in SlotsOf(joined[..k])
    ensures SlotsOf(joined[..k + 1]) == SlotsOf(joined[..k]) + {joined[k].slot}
    ensures forall slot ::
              CompletedFor(records + joined[k].run.records, slot) == CompletedSoFar(joined[..k + 1], slot)
  {
    assert joined[..k + 1][..k] == joined[..k];
    assert forall i :: 0 <= i < k ==> joined[..k + 1][i] == joined[..k][i];
    assert joined[..k + 1][k] == joined[k];
    forall slot
      ensures CompletedFor(records + joined[k].run.records, slot) == CompletedSoFar(joined[..k + 1], slot)
    {
      CompletedForConcat(records, joined[k].run.records, slot);
      CompletedForOwn(joined[k].run.records, joined[k].slot, slot);
    }
  }

  lemma {:induction false} OneJoinPerSlot(joined: seq<Joined>, i: nat)
    requires i < |joined|
    requires forall i, j :: 0 <= i < j < |joined| ==> joined[i].slot != joined[j].slot
    ensures CompletedSoFar(joined, joined[i].slot) == joined[i].run.completed
  {
    var last := |joined| - 1;
    if i < last {
      OneJoinPerSlot(joined[..last], i);
    } else {
      NoJoin(joined[..last], joined[i].slot);
    }
  }

  lemma {:induction false} NoJoin(joined: seq<Joined>, slot: nat)
    requires forall i :: 0 <= i < |joined| ==> joined[i].slot != slot
    ensures CompletedSoFar(joined, slot) == 0
  {
    if joined != [] {
      NoJoin(joined[..|joined| - 1], slot);
    }
  }

  // ---------- checking the sessions ----------

  // What the benchmark compares for one slot; digest stands for the hash function.
  predicate Matches(actual: Session, expected: seq<byte>, completed: nat, digest: seq<byte> -> string) {
    && digest(actual.accumulated) == digest(expected)
    && |actual.accumulated| == |expected|
    && actual.chunks == completed
  }

  // The slots below n whose session differs from the prediction in digest, length or number of chunks.
  ghost function Differing(actual: seq<Session>, expected: seq<seq<byte>>, records: seq<Record>,
                           digest: seq<byte> -> string, n: nat): set<nat>
    requires n <= |actual| == |expected|
  {
    set k | 0 <= k < n && (digest(actual[k].accumulated) != digest(expected[k])
                           || |actual[k].accumulated| != |expected[k]|
                           || actual[k].chunks != CompletedFor(records, k))
  }

  lemma OneMoreSlot(actual: seq<Session>, expected: seq<seq<byte>>, records: seq<Record>,
                    digest: seq<byte> -> string, n: nat)
    requires n < |actual| == |expected|
    ensures |Differing(actual, expected, records, digest, 0)| == 0
    ensures |Differing(actual, expected, records, digest, n + 1)|
         == |Differing(actual, expected, records, digest, n)|
            + if Matches(actual[n], expected[n], CompletedFor(records, n), digest) then 0 else 1
  {
    var before := Differing(actual, expected, records, digest, n);
    assert n !in before;
    assert Differing(actual, expected, records, digest, n + 1)
        == if Matches(actual[n], expected[n], CompletedFor(records, n), digest) then before else before + {n};
  }

  method Verify(actual: seq<Session>, expected: seq<seq<byte>>, records: seq<Record>, digest: seq<byte> -> string)
    returns (verified: nat, mismatches: nat)
    requires |actual| == |expected|
    ensures verified + mismatches == |expected|
    ensures mismatches == 0 <==>
            forall slot :: 0 <= slot < |expected| ==>
              Matches(actual[slot], expected[slot], CompletedFor(records, slot), digest)
    ensures mismatches == |Differing(actual, expected, records, digest, |expected|)|
  {
    verified, mismatches := 0, 0;
    for slot := 0 to |expected|
      invariant verified + mismatches == slot
      invariant mismatches == 0 <==>
                forall k :: 0 <= k < slot ==> Matches(actual[k], expected[k], CompletedFor(records, k), digest)
      invariant mismatches == |Differing(actual, expected, records, digest, slot)|
    {
      OneMoreSlot(actual, expected, records, digest, slot);
      if Matches(actual[slot], expected[slot], CompletedFor(records, slot), digest) {
        verified := verified + 1;
      } else {
        mismatches := mismatches + 1;
      }
    }
  }

  // A session that waited for its answers and was the only writer of its slot passes the check, whatever
  // the hash function and whatever the server did for the other sessions meanwhile.
  lemma SessionVerifies(lab: Lab, events: seq<LabMachine.Event>, slot: nat, bytes: nat, reset: nat, ids: seq<nat>,
                        cuts: seq<nat>, transcript: seq<Exchange>, run: SessionRun, digest: seq<byte> -> string)
    requires slot < lab.slots && 0 < bytes <= MAX_CHUNK_BYTES
    requires ServedBy(lab, events, slot, reset, ids, cuts, transcript)
    requires Faithful(transcript, slot, bytes) && |transcript| <= STREAM_STATE_BYTES / bytes
    requires run.completed == Completions(transcript)
    requires run.expected == StreamCapitalize.Upper(Cyclic(run.completed * bytes))
    ensures Matches(LabMachine.Run(lab, events).store.sessions[slot], run.expected, run.completed, digest)
  {
    StreamAgreement.AgreementInEveryRun(lab, events, slot, bytes, reset, ids, cuts, transcript);
  }

  // The server's run answered the transcript to a client that waited and owned its slot.
  ghost predicate ServedBy(lab: Lab, events: seq<LabMachine.Event>, slot: nat, reset: nat, ids: seq<nat>,
                         cuts: seq<nat>, transcript: seq<Exchange>) {
    && StreamAgreement.Waits(lab, events, reset, ids, cuts)
    && StreamAgreement.OwnsSlot(LabMachine.Run(lab, events), slot, reset, ids)
    && StreamAgreement.Answers(LabMachine.Run(lab, events), ids, transcript)
  }

  // ---------- the whole scenario ----------

  datatype ScenarioReport = ScenarioReport(totals: Totals, verified: nat, mismatches: nat)

  datatype ScenarioResult = Reported(report: ScenarioReport) | GaveUp

  // One run of the server explains everything the clients saw: a reset of all slots, one session client
  // on each, and the sessions that are read at the end.
  ghost predicate Explains(lab: Lab, events: seq<LabMachine.Event>, reset: nat, idss: seq<seq<nat>>,
                           cutss: seq<seq<nat>>, transcripts: seq<seq<Exchange>>, actual: seq<Session>) {
    && |idss| == |cutss| == |transcripts| == |actual| <= lab.slots
    && forall slot :: 0 <= slot < |actual| ==>
         && actual[slot] == LabMachine.Run(lab, events).store.sessions[slot]
         && ServedBy(lab, events, slot, reset, idss[slot], cutss[slot], transcripts[slot])
  }

  // What every session of a scenario leaves behind.
  ghost predicate AllSound(joined: seq<Joined>, transcripts: seq<seq<Exchange>>, count: nat, offered: nat, bytes: nat)
    requires count > 0 && bytes > 0
  {
    && |joined| == |transcripts|
    && forall i :: 0 <= i < |joined| ==> SoundSession(joined[i], i, transcripts[i], count, offered, bytes)
  }

  ghost predicate SoundSession(j: Joined, slot: nat, transcript: seq<Exchange>, count: nat, offered: nat, bytes: nat)
    requires count > 0 && bytes > 0
  {
    && j.slot == slot
    && Plausible(j, count, offered, STREAM_STATE_BYTES / bytes)
    && Faithful(transcript, slot, bytes) && |transcript| <= STREAM_STATE_BYTES / bytes
    && j.run.completed == Completions(transcript)
    && j.run.expected == StreamCapitalize.Upper(Cyclic(j.run.completed * bytes))
  }

  // All sessions, one after the other: each has its own slot and responses, so their order is immaterial.
  method RunSessions(count: nat, offered: nat, bytes: nat, rate: real, started: real, responses: seq<seq<Response>>)
    returns (ok: bool, joined: seq<Joined>, transcripts: seq<seq<Exchange>>)
    requires count > 0 && 0 < bytes && rate > 0.0 && |responses| == count
    requires forall slot :: 0 <= slot < count ==>
               |responses[slot]| == |Kept(slot, count, offered, STREAM_STATE_BYTES / bytes)|
    ensures ok ==> |joined| == count && AllSound(joined, transcripts, count, offered, bytes)
    ensures !ok ==> 0 < |transcripts| <= count && Broke(transcripts, responses, bytes)
  {
    joined, transcripts, ok := [], [], true;
    for slot := 0 to count
      invariant |joined| == slot && AllSound(joined, transcripts, count, offered, bytes)
    {
      var indices, omitted := PlanSession(slot, count, offered, STREAM_STATE_BYTES / bytes);
      var r, transcript := RunSession(slot, indices, omitted, bytes, rate, started, responses[slot]);
      ghost var before := transcripts;
      transcripts := transcripts + [transcript];
      if r.Aborted? {
        return false, joined, transcripts;
      }
      joined := joined + [Joined(slot, r.run)];
      forall i | 0 <= i <= slot
        ensures SoundSession(joined[i], i, transcripts[i], count, offered, bytes)
      {
        assert i < slot ==> transcripts[i] == before[i] && SoundSession(joined[i], i, before[i], count, offered, bytes);
      }
    }
  }

  // The last of these sessions gave up, for a lost response or an answer that it cannot use.
  ghost predicate Broke(transcripts: seq<seq<Exchange>>, responses: seq<seq<Response>>, bytes: nat)
    requires 0 < |transcripts| <= |responses|
  {
    var slot := |transcripts| - 1;
    && Faithful(transcripts[slot], slot, bytes)
    && |transcripts[slot]| <= |responses[slot]|
    && (Lost in responses[slot]
        || (transcripts[slot] != [] && !Usable(transcripts[slot][|transcripts[slot]| - 1].reply)))
  }

  // `run_scenario`: whatever the responses, a report accounts for every offered index exactly once and for
  // every session; and if one run of the server explains what the clients saw, no session mismatches and
  // none gives up.
  method RunScenario(count: nat, offered: nat, bytes: nat, rate: real, started: real,
                     responses: seq<seq<Response>>, actual: seq<Session>, digest: seq<byte> -> string)
    returns (r: ScenarioResult, transcripts: seq<seq<Exchange>>)
    requires 0 < count == |responses| == |actual| && 0 < bytes <= MAX_CHUNK_BYTES && rate > 0.0
    requires forall slot :: 0 <= slot < count ==>
               |responses[slot]| == |Kept(slot, count, offered, STREAM_STATE_BYTES / bytes)|
    ensures r.Reported? ==>
              var t := r.report.totals;
              && t.completed + t.failed + t.serverThrottled + t.clientBackpressured == offered
              && t.attempted == t.completed + t.failed + t.serverThrottled
              && r.report.verified + r.report.mismatches == count
    ensures r.Reported? ==> forall lab, events, reset, idss, cutss ::
              Explains(lab, events, reset, idss, cutss, transcripts, actual) ==> r.report.mismatches == 0
    ensures r.GaveUp? ==> 0 < |transcripts| <= count
    ensures r.GaveUp? ==> forall lab, events, reset, idss, cutss ::
              Explains(lab, events, reset, idss, cutss, transcripts, actual[..|transcripts|]) ==>
                Lost in responses[|transcripts| - 1]
  {
    var ok, joined, all := RunSessions(count, offered, bytes, rate, started, responses);
    transcripts := all;
    if !ok {
      forall lab, events, reset, idss, cutss |
        Explains(lab, events, reset, idss, cutss, transcripts, actual[..|transcripts|])
        ensures Lost in responses[|transcripts| - 1]
      {
        NeverBroken(lab, events, reset, idss, cutss, transcripts, actual[..|transcripts|], responses, bytes, count,
                    offered);
      }
      return GaveUp, transcripts;
    }
    AllSlots(joined, transcripts, count, offered, bytes);
    var totals, records := Collect(joined, count, offered, STREAM_STATE_BYTES / bytes);
    var expected := seq(count, slot requires 0 <= slot < |joined| => joined[slot].run.expected);
    var verified, mismatches := Verify(actual, expected, records, digest);
    forall lab, events, reset, idss, cutss | Explains(lab, events, reset, idss, cutss, transcripts, actual)
      ensures mismatches == 0
    {
      forall slot | 0 <= slot < count
        ensures Matches(actual[slot], expected[slot], CompletedFor(records, slot), digest)
      {
        assert SoundSession(joined[slot], slot, transcripts[slot], count, offered, bytes);
        SessionVerifies(lab, events, slot, bytes, reset, idss[slot], cutss[slot], transcripts[slot],
                        joined[slot].run, digest);
      }
    }
    return Reported(ScenarioReport(totals, verified, mismatches)), transcripts;
  }

  lemma AllSlots(joined: seq<Joined>, transcripts: seq<seq<Exchange>>, count: nat, offered: nat, bytes: nat)
    requires count > 0 && bytes > 0 && |joined| == count && AllSound(joined, transcripts, count, offered, bytes)
    ensures forall i :: 0 <= i < count ==> joined[i].slot == i
    ensures forall i :: 0 <= i < count ==> Plausible(joined[i], count, offered, STREAM_STATE_BYTES / bytes)
    ensures forall slot :: 0 <= slot < count ==> slot in SlotsOf(joined)
  {
    forall i | 0 <= i < count
      ensures joined[i].slot == i && Plausible(joined[i], count, offered, STREAM_STATE_BYTES / bytes)
      ensures i in SlotsOf(joined)
    {
      assert SoundSession(joined[i], i, transcripts[i], count, offered, bytes);
    }
  }

  lemma NeverBroken(lab: Lab, events: seq<LabMachine.Event>, reset: nat, idss: seq<seq<nat>>, cutss: seq<seq<nat>>,
                    transcripts: seq<seq<Exchange>>, actual: seq<Session>, responses: seq<seq<Response>>, bytes: nat,
                    count: nat, offered: nat)
    requires 0 < |transcripts| <= count == |responses| && 0 < bytes <= MAX_CHUNK_BYTES
    requires Explains(lab, events, reset, idss, cutss, transcripts, actual)
    requires Broke(transcripts, responses, bytes)
    requires forall slot :: 0 <= slot < count ==>
               |responses[slot]| == |Kept(slot, count, offered, STREAM_STATE_BYTES / bytes)|
    ensures Lost in responses[|transcripts| - 1]
  {
    var slot := |transcripts| - 1;
    assert |responses[slot]| <= STREAM_STATE_BYTES / bytes;
    assert ServedBy(lab, events, slot, reset, idss[slot], cutss[slot], transcripts[slot]);
    StreamAgreement.AgreementInEveryRun(lab, events, slot, bytes, reset, idss[slot], cutss[slot], transcripts[slot]);
  }
}
