// The stream worker: the guest function `process`, which uppercases a chunk in place behind the
// accumulated state, and the host call that lays the two out in guest memory and reads them back.
module StreamCapitalize {
  import opened Division
  import opened Wasm32

  const GUEST_PAGES: nat := 16

  function UpperByte(b: byte): byte {
    if 97 <= b <= 122 then b - 32 else b
  }

  function Upper(s: seq<byte>): (r: seq<byte>)
    ensures |r| == |s|
    ensures forall i :: 0 <= i < |s| ==> r[i] == UpperByte(s[i])
  {
    seq(|s|, i requires 0 <= i < |s| => UpperByte(s[i]))
  }

  // The 26 lower-case letters of ASCII become the capitals in the same place, every other byte stays, and
  // uppercasing once is enough.
  lemma UpperIsUppercase(s: seq<byte>)
    ensures |Upper(s)| == |s|
    ensures forall i :: 0 <= i < |s| ==> !(97 <= Upper(s)[i] <= 122)
    ensures forall i :: 0 <= i < |s| && 97 <= s[i] <= 122 ==> Upper(s)[i] == 65 + (s[i] - 97)
    ensures forall i :: 0 <= i < |s| && !(97 <= s[i] <= 122) ==> Upper(s)[i] == s[i]
    ensures Upper(Upper(s)) == Upper(s)
  {
    assert |Upper(Upper(s))| == |Upper(s)|;
  }

  lemma UpperConcat(a: seq<byte>, b: seq<byte>)
    ensures Upper(a + b) == Upper(a) + Upper(b)
  {
    assert forall i :: 0 <= i < |a + b| ==> Upper(a + b)[i] == (Upper(a) + Upper(b))[i];
  }

  // Memory with the bytes from..to uppercased and everything else as it was.
  ghost function Capitalised(memory: seq<byte>, from: nat, to: nat): seq<byte>
    requires from <= to <= |memory|
  {
    memory[..from] + Upper(memory[from..to]) + memory[to..]
  }

  // The guest refuses a sum that wraps around or exceeds the capacity.
  ghost predicate Refuses(previousLen: u32, chunkLen: u32, capacity: u32) {
    previousLen + chunkLen >= MODULUS || previousLen + chunkLen > capacity
  }

  lemma CapitalisedIs(now: seq<byte>, was: seq<byte>, from: nat, to: nat)
    requires from <= to <= |was| == |now|
    requires forall k :: 0 <= k < |now| && !(from <= k < to) ==> now[k] == was[k]
    requires forall k :: from <= k < to ==> now[k] == UpperByte(was[k])
    ensures now == Capitalised(was, from, to)
  {
  }

  method Process(memory: array<byte>, previousLen: u32, chunkLen: u32, capacity: u32) returns (r: Exec)
    modifies memory
    ensures Refuses(previousLen, chunkLen, capacity) ==>
              r == Return(0xffff_ffff) && memory[..] == old(memory[..])
    ensures !Refuses(previousLen, chunkLen, capacity) ==>
              var end := previousLen + chunkLen;
              var from, to := Least(previousLen, memory.Length), Least(end, memory.Length);
              && (r == Trap <==> chunkLen > 0 && end > memory.Length)
              && (r.Return? ==> r.value == end)
              && memory[..] == old(Capitalised(memory[..], from, to))
              && (forall k :: 0 <= k < from || to <= k < memory.Length ==> memory[k] == old(memory[k]))
              && (forall k :: from <= k < to ==> !(97 <= memory[k] <= 122))
              && (forall k :: from <= k < to && 97 <= old(memory[k]) <= 122 ==> memory[k] == 65 + (old(memory[k]) - 97))
              && (forall k :: from <= k < to && !(97 <= old(memory[k]) <= 122) ==> memory[k] == old(memory[k]))
  {
    hide Capitalised;
    var end := Add(previousLen, chunkLen);
    if end < previousLen || end > capacity {
      return Return(0xffff_ffff);
    }
    ghost var was := memory[..];
    ghost var from := Least(previousLen, memory.Length);
    var i := previousLen;
    while i < end
      invariant previousLen <= i <= end
      invariant i <= memory.Length || i == previousLen
      invariant forall k :: 0 <= k < memory.Length && !(previousLen <= k < i) ==> memory[k] == was[k]
      invariant forall k :: previousLen <= k < i && k < memory.Length ==> memory[k] == UpperByte(was[k])
    {
      if i >= memory.Length {
        CapitalisedIs(memory[..], was, from, memory.Length);
        return Trap;
      }
      var b := memory[i];
      if b >= 97 && b <= 122 {
        memory[i] := b - 32;
      }
      i := Add(i, 1);
    }
    CapitalisedIs(memory[..], was, from, Least(end, memory.Length));
    return Return(end);
  }

  datatype StreamError = ExceedsCapacity | MemoryExceedsPolicy | CapacityExceedsMemory | GuestTrapped | InvalidLength

  datatype StreamOutcome = Accumulated(bytes: seq<byte>) | Rejected(error: StreamError)

  // What one call of the host computes.
  function StreamStep(previous: seq<byte>, chunk: seq<byte>, capacity: nat, maxPages: nat): StreamOutcome {
    if |previous| + |chunk| > capacity then Rejected(ExceedsCapacity)
    else if GUEST_PAGES > maxPages then Rejected(MemoryExceedsPolicy)
    else if capacity > GUEST_PAGES * PAGE then Rejected(CapacityExceedsMemory)
    else Accumulated(previous + Upper(chunk))
  }

  // The previous bytes in front, then the chunk with its lower-case letters as capitals.
  ghost predicate ChunkCapitalised(previous: seq<byte>, chunk: seq<byte>, bytes: seq<byte>) {
    && |bytes| == |previous| + |chunk|
    && bytes[..|previous|] == previous
    && forall k :: 0 <= k < |chunk| ==>
         bytes[|previous| + k] == if 97 <= chunk[k] <= 122 then 65 + (chunk[k] - 97) else chunk[k]
  }

  lemma UpperCapitalises(previous: seq<byte>, chunk: seq<byte>)
    ensures ChunkCapitalised(previous, chunk, previous + Upper(chunk))
  {
  }

  // The host never sees the guest trap or misreport its length, and the previous bytes come back
  // untouched in front of the uppercased chunk.
  method ExecuteStream(previous: seq<byte>, chunk: seq<byte>, capacity: nat, maxPages: nat) returns (r: StreamOutcome)
    ensures r == StreamStep(previous, chunk, capacity, maxPages)
    ensures r.Rejected? ==> r.error != GuestTrapped && r.error != InvalidLength
    ensures r.Accumulated? ==> ChunkCapitalised(previous, chunk, r.bytes)
  {
    hide ChunkCapitalised;
    if |previous| + |chunk| > capacity {
      return Rejected(ExceedsCapacity);
    }
    if GUEST_PAGES > maxPages {
      return Rejected(MemoryExceedsPolicy);
    }
    var memory := new byte[GUEST_PAGES * PAGE](_ => 0);
    var combinedLen := |previous| + |chunk|;
    if capacity > memory.Length {
      return Rejected(CapacityExceedsMemory);
    }
    forall i | 0 <= i < |previous| {
      memory[i] := previous[i];
    }
    forall i | 0 <= i < |chunk| {
      memory[|previous| + i] := chunk[i];
    }
    assert memory[..|previous|] == previous && memory[|previous|..combinedLen] == chunk;
    var returned := Process(memory, |previous|, |chunk|, capacity);
    if returned.Trap? {
      return Rejected(GuestTrapped);
    }
    if Signed(returned.value) < 0 || Signed(returned.value) != combinedLen {
      return Rejected(InvalidLength);
    }
    assert memory[..combinedLen] == previous + Upper(chunk);
    var output := memory[..combinedLen];
    forall i | 0 <= i < memory.Length {
      memory[i] := 0;
    }
    UpperCapitalises(previous, chunk);
    return Accumulated(output);
  }

  // ---------- streaming equals batch ----------

  function Concat(chunks: seq<seq<byte>>): seq<byte> {
    if chunks == [] then [] else Concat(chunks[..|chunks| - 1]) + chunks[|chunks| - 1]
  }

  // The accumulated state after feeding the chunks one host call at a time, from an empty state.
  function Fold(chunks: seq<seq<byte>>, capacity: nat, maxPages: nat): StreamOutcome {
    if chunks == [] then Accumulated([])
    else
      match Fold(chunks[..|chunks| - 1], capacity, maxPages)
      case Rejected(error) => Rejected(error)
      case Accumulated(bytes) => StreamStep(bytes, chunks[|chunks| - 1], capacity, maxPages)
  }

  // However an input is split, streaming it gives the uppercased whole exactly when the whole fits.
  lemma {:induction false} StreamingEqualsBatch(chunks: seq<seq<byte>>, capacity: nat, maxPages: nat)
    requires GUEST_PAGES <= maxPages && capacity <= GUEST_PAGES * PAGE
    ensures Fold(chunks, capacity, maxPages) ==
            if |Concat(chunks)| <= capacity then Accumulated(Upper(Concat(chunks))) else Rejected(ExceedsCapacity)
  {
    if chunks != [] {
      var front, last := chunks[..|chunks| - 1], chunks[|chunks| - 1];
      StreamingEqualsBatch(front, capacity, maxPages);
      UpperConcat(Concat(front), last);
    }
  }

  // Two splits of one input cannot be told apart.
  lemma SplitIndependence(one: seq<seq<byte>>, two: seq<seq<byte>>, capacity: nat, maxPages: nat)
    requires GUEST_PAGES <= maxPages && capacity <= GUEST_PAGES * PAGE
    requires Concat(one) == Concat(two)
    ensures Fold(one, capacity, maxPages) == Fold(two, capacity, maxPages)
  {
    StreamingEqualsBatch(one, capacity, maxPages);
    StreamingEqualsBatch(two, capacity, maxPages);
  }
}
