// The worker artifact: a bounded pull of an encrypted envelope, and its opening.  The authenticated
// cipher and the digest are parameters.
module Artifact {
  import opened Wrappers

  type Bytes = seq<bv8>

  const MAGIC: Bytes := [0x49, 0x53, 0x48, 0x54, 0x41, 0x52, 0x31, 0x00]
  const NONCE_BYTES: nat := 12
  const TAG_BYTES: nat := 16
  const HEADER_BYTES: nat := 20
  const KEY_BYTES: nat := 32
  const USIZE_MAX: nat := 0xffff_ffff_ffff_ffff

  datatype LoadError = LimitOverflow | ReadFailed | TooLarge | BadEnvelope | BadKey | NotAuthentic | BadSize

  datatype PullOutcome = Loaded(wasm: Bytes, digest: string) | Refused(error: LoadError)

  // AES-256-GCM under a key and a nonce, with the magic as associated data.
  datatype Cipher = Cipher(seal: (Bytes, Bytes, Bytes) -> Bytes, open: (Bytes, Bytes, Bytes) -> Option<Bytes>) {
    // Sealing adds a tag, and exactly the sealed texts open, to what was sealed.
    ghost predicate Lawful() {
      && (forall key: Bytes, nonce: Bytes, plain: Bytes ::
            && |seal(key, nonce, plain)| == |plain| + TAG_BYTES
            && open(key, nonce, seal(key, nonce, plain)) == Some(plain))
      && (forall key: Bytes, nonce: Bytes, sealed: Bytes ::
            open(key, nonce, sealed).Some? ==> seal(key, nonce, open(key, nonce, sealed).value) == sealed)
    }
  }

  // ---------- opening ----------

  function Envelope(c: Cipher, key: Bytes, nonce: Bytes, wasm: Bytes): Bytes {
    MAGIC + nonce + c.seal(key, nonce, wasm)
  }

  function Decrypt(c: Cipher, hex: Bytes -> string, encrypted: Bytes, key: Bytes, max: nat): PullOutcome {
    if |encrypted| <= HEADER_BYTES + TAG_BYTES || encrypted[..|MAGIC|] != MAGIC then Refused(BadEnvelope)
    else if |key| != KEY_BYTES then Refused(BadKey)
    else
      var plain := c.open(key, encrypted[|MAGIC|..HEADER_BYTES], encrypted[HEADER_BYTES..]);
      if plain.None? then Refused(NotAuthentic)
      else if plain.value == [] || |plain.value| > max then Refused(BadSize)
      else Loaded(plain.value, hex(plain.value))
  }

  lemma EnvelopeParts(c: Cipher, key: Bytes, nonce: Bytes, wasm: Bytes)
    requires c.Lawful() && |nonce| == NONCE_BYTES
    ensures var e := Envelope(c, key, nonce, wasm);
            && |e| == HEADER_BYTES + TAG_BYTES + |wasm|
            && e[..|MAGIC|] == MAGIC && e[|MAGIC|..HEADER_BYTES] == nonce
            && e[HEADER_BYTES..] == c.seal(key, nonce, wasm)
  {
    assert |MAGIC + nonce| == HEADER_BYTES;
  }

  // What an envelope opens to, at every size limit.
  lemma EnvelopeOpens(c: Cipher, hex: Bytes -> string, key: Bytes, nonce: Bytes, wasm: Bytes, max: nat)
    requires c.Lawful() && |nonce| == NONCE_BYTES && |key| == KEY_BYTES
    ensures Decrypt(c, hex, Envelope(c, key, nonce, wasm), key, max) ==
            if wasm == [] then Refused(BadEnvelope)
            else if |wasm| > max then Refused(BadSize)
            else Loaded(wasm, hex(wasm))
  {
    EnvelopeParts(c, key, nonce, wasm);
  }

  // Only envelopes sealed under the same key load, and what loads is what was sealed.
  lemma OnlyEnvelopesLoad(c: Cipher, hex: Bytes -> string, encrypted: Bytes, key: Bytes, max: nat)
    requires c.Lawful()
    ensures var r := Decrypt(c, hex, encrypted, key, max);
            r.Loaded? ==>
              && |encrypted| > HEADER_BYTES && |key| == KEY_BYTES && 1 <= |r.wasm| <= max && r.digest == hex(r.wasm)
              && encrypted == Envelope(c, key, encrypted[|MAGIC|..HEADER_BYTES], r.wasm)
  {
    if |encrypted| > HEADER_BYTES {
      assert encrypted == encrypted[..|MAGIC|] + encrypted[|MAGIC|..HEADER_BYTES] + encrypted[HEADER_BYTES..];
    }
  }

  // What an envelope under another name fails with: no header or nothing inside, a key of the wrong length,
  // or a header under which nothing was sealed.
  lemma WhyNothingOpens(c: Cipher, hex: Bytes -> string, encrypted: Bytes, key: Bytes, max: nat)
    requires c.Lawful()
    ensures var r := Decrypt(c, hex, encrypted, key, max);
            && (r == Refused(BadEnvelope) <==> |encrypted| <= 36 || encrypted[..8] != MAGIC)
            && (r == Refused(BadKey) <==> |encrypted| > 36 && encrypted[..8] == MAGIC && |key| != 32)
            && (r == Refused(NotAuthentic) <==>
                  && |encrypted| > 36 && encrypted[..8] == MAGIC && |key| == 32
                  && forall wasm :: encrypted != Envelope(c, key, encrypted[8..20], wasm))
  {
    if |encrypted| > 36 && encrypted[..8] == MAGIC {
      var nonce := encrypted[8..20];
      assert encrypted == MAGIC + nonce + encrypted[20..];
      forall wasm | encrypted == Envelope(c, key, nonce, wasm)
        ensures c.open(key, nonce, encrypted[20..]) == Some(wasm)
      {
        EnvelopeParts(c, key, nonce, wasm);
      }
      var plain := c.open(key, nonce, encrypted[20..]);
      if plain.Some? {
        assert encrypted == Envelope(c, key, nonce, plain.value);
      }
    }
  }

  // ---------- pulling ----------

  // One result of reading the response body.
  datatype Item = Data(chunk: Bytes) | Failure

  datatype Body = Complete(bytes: Bytes) | Broken(error: LoadError)

  function SaturatingAdd(a: nat, b: nat): nat {
    if a + b > USIZE_MAX then USIZE_MAX else a + b
  }

  // The reading loop, from what has been read so far.
  function Accumulated(items: seq<Item>, read: Bytes, limit: nat): Body {
    if items == [] then Complete(read)
    else if items[0].Failure? then Broken(ReadFailed)
    else if SaturatingAdd(|read|, |items[0].chunk|) > limit then Broken(TooLarge)
    else Accumulated(items[1..], read + items[0].chunk, limit)
  }

  function Pulled(c: Cipher, hex: Bytes -> string, key: Bytes, max: nat,
                  declared: Option<nat>, items: seq<Item>): PullOutcome
  {
    var limit := max + HEADER_BYTES + TAG_BYTES;
    if limit > USIZE_MAX then Refused(LimitOverflow)
    else if declared.Some? && declared.value > limit then Refused(TooLarge)
    else
      var body := Accumulated(items, [], limit);
      if body.Broken? then Refused(body.error) else Decrypt(c, hex, body.bytes, key, max)
  }

  method PullAndDecrypt(c: Cipher, hex: Bytes -> string, key: Bytes, max: nat, declared: Option<nat>, items: seq<Item>)
    returns (r: PullOutcome)
    ensures r == Pulled(c, hex, key, max, declared, items)
  {
    var limit := max + (HEADER_BYTES + TAG_BYTES);
    if limit > USIZE_MAX {
      return Refused(LimitOverflow);
    }
    if declared.Some? && declared.value > limit {
      return Refused(TooLarge);
    }
    var encrypted: Bytes := [];
    for i := 0 to |items|
      invariant Accumulated(items[i..], encrypted, limit) == Accumulated(items, [], limit)
    {
      assert items[i..][0] == items[i] && items[i..][1..] == items[i + 1..];
      if items[i].Failure? {
        return Refused(ReadFailed);
      }
      if SaturatingAdd(|encrypted|, |items[i].chunk|) > limit {
        return Refused(TooLarge);
      }
      encrypted := encrypted + items[i].chunk;
    }
    r := Decrypt(c, hex, encrypted, key, max);
  }

  // The bytes that arrive before the first failure, and whether there is one.
  function Arrived(items: seq<Item>): Bytes {
    if items == [] || items[0].Failure? then [] else items[0].chunk + Arrived(items[1..])
  }

  predicate Fails(items: seq<Item>) {
    exists i :: 0 <= i < |items| && items[i].Failure?
  }

  lemma {:induction false} AccumulatedIsArrived(items: seq<Item>, read: Bytes, limit: nat)
    requires SaturatingAdd(|read|, 0) <= limit <= USIZE_MAX
    ensures Accumulated(items, read, limit) ==
            if SaturatingAdd(|read|, |Arrived(items)|) > limit then Broken(TooLarge)
            else if Fails(items) then Broken(ReadFailed)
            else Complete(read + Arrived(items))
  {
    if items == [] || items[0].Failure? {
      assert read + Arrived(items) == read;
    } else {
      var chunk, rest := items[0].chunk, items[1..];
      FailsLater(items);
      if SaturatingAdd(|read|, |chunk|) <= limit {
        AccumulatedIsArrived(rest, read + chunk, limit);
        assert read + chunk + Arrived(rest) == read + Arrived(items);
      }
    }
  }

  lemma FailsLater(items: seq<Item>)
    requires items != [] && items[0].Data?
    ensures Fails(items) <==> Fails(items[1..])
  {
    var rest := items[1..];
    if Fails(items) {
      var i :| 0 <= i < |items| && items[i].Failure?;
      assert rest[i - 1].Failure?;
    }
    assert forall i :: 0 <= i < |rest| ==> rest[i] == items[i + 1];
  }

  // Without a declared length the outcome depends on the bytes that arrive, not on how they are cut.
  lemma PullIgnoresChunking(c: Cipher, hex: Bytes -> string, key: Bytes, max: nat, a: seq<Item>, b: seq<Item>)
    requires Arrived(a) == Arrived(b) && (Fails(a) <==> Fails(b))
    ensures Pulled(c, hex, key, max, None, a) == Pulled(c, hex, key, max, None, b)
  {
    var limit := max + HEADER_BYTES + TAG_BYTES;
    if limit <= USIZE_MAX {
      AccumulatedIsArrived(a, [], limit);
      AccumulatedIsArrived(b, [], limit);
    }
  }

  // A declared length does nothing but refuse: a body that is announced longer than the largest envelope is
  // not read, and any other announcement is ignored.
  lemma DeclaredLengthOnlyRefuses(c: Cipher, hex: Bytes -> string, key: Bytes, max: nat, declared: nat, items: seq<Item>)
    ensures max + 36 > USIZE_MAX ==> Pulled(c, hex, key, max, Some(declared), items) == Refused(LimitOverflow)
    ensures max + 36 <= USIZE_MAX ==>
              Pulled(c, hex, key, max, Some(declared), items)
              == if declared > max + 36 then Refused(TooLarge) else Pulled(c, hex, key, max, None, items)
  {
  }

  // Every module within the limit survives the trip, however the envelope arrives.
  lemma RoundTrip(c: Cipher, hex: Bytes -> string, key: Bytes, nonce: Bytes, wasm: Bytes, max: nat,
                  declared: Option<nat>, items: seq<Item>)
    requires c.Lawful() && |key| == KEY_BYTES && |nonce| == NONCE_BYTES
    requires 1 <= |wasm| <= max && max + HEADER_BYTES + TAG_BYTES <= USIZE_MAX
    requires Arrived(items) == Envelope(c, key, nonce, wasm) && !Fails(items)
    requires declared.None? || declared.value == |Arrived(items)|
    ensures Pulled(c, hex, key, max, declared, items) == Loaded(wasm, hex(wasm))
  {
    var limit := max + HEADER_BYTES + TAG_BYTES;
    EnvelopeParts(c, key, nonce, wasm);
    AccumulatedIsArrived(items, [], limit);
    assert [] + Arrived(items) == Arrived(items);
    EnvelopeOpens(c, hex, key, nonce, wasm, max);
  }

  // The bound on the pulled body already bounds what is inside: the size check on the plaintext can
  // reject a text handed to it directly, but nothing that was pulled.
  lemma SizeCheckIsIdleAfterPull(c: Cipher, hex: Bytes -> string, key: Bytes, max: nat,
                                 declared: Option<nat>, items: seq<Item>)
    requires c.Lawful() && |Arrived(items)| <= USIZE_MAX
    ensures Pulled(c, hex, key, max, declared, items) != Refused(BadSize)
  {
    var limit := max + HEADER_BYTES + TAG_BYTES;
    if limit <= USIZE_MAX {
      AccumulatedIsArrived(items, [], limit);
    }
    assert [] + Arrived(items) == Arrived(items);
    var e := Arrived(items);
    if |e| > HEADER_BYTES + TAG_BYTES && |key| == KEY_BYTES {
      var nonce, sealed := e[|MAGIC|..HEADER_BYTES], e[HEADER_BYTES..];
      var plain := c.open(key, nonce, sealed);
      if plain.Some? {
        assert |c.seal(key, nonce, plain.value)| == |plain.value| + TAG_BYTES;
      }
    }
  }

  // Whatever loads arrived whole, as the envelope of what loads.
  lemma PullLoadsOnlyEnvelopes(c: Cipher, hex: Bytes -> string, key: Bytes, max: nat,
                               declared: Option<nat>, items: seq<Item>)
    requires c.Lawful()
    ensures var r := Pulled(c, hex, key, max, declared, items);
            r.Loaded? ==>
              && !Fails(items) && |Arrived(items)| > HEADER_BYTES
              && Arrived(items) == Envelope(c, key, Arrived(items)[|MAGIC|..HEADER_BYTES], r.wasm)
              && 1 <= |r.wasm| <= max && r.digest == hex(r.wasm)
  {
    var limit := max + HEADER_BYTES + TAG_BYTES;
    if limit <= USIZE_MAX {
      AccumulatedIsArrived(items, [], limit);
      assert [] + Arrived(items) == Arrived(items);
      OnlyEnvelopesLoad(c, hex, Arrived(items), key, max);
    }
  }
}
