// The sequential probe: the guest function `run`, which flips the caller's state and then sweeps
// an 8 MiB working set, and the host call around it.
module SequentialProbe {
  import Decimal
  import opened Division
  import opened Wasm32

  const GUEST_PAGES: nat := 129
  const GUEST_BYTES: nat := GUEST_PAGES * PAGE
  const KEY: byte := 90
  const MASK: u32 := 0x007f_fffc
  const SEED: u32 := 0x243f_6a88
  const LINES: nat := 131072   // 64-byte lines in 8 MiB

  // ---------- the addresses of the sweep ----------

  // The guest's address computation, in wrapping 32-bit operations.
  function Address(i: u32): u32 {
    Add(65536, AndMask(Mul(i, 64)))
  }

  function AndMask(x: u32): (r: u32)
    ensures r <= MASK
  {
    MaskForm(x);
    BitAnd(x, MASK)
  }

  lemma {:induction false} BitAndEven(a: nat, b: nat)
    ensures BitAnd(a, 2 * b) == 2 * BitAnd(a / 2, b)
  {
    BitAndStep(a, 2 * b);
  }

  lemma Pow2Of21()
    ensures Pow2(21) == 0x20_0000
  {
    assert Pow2(7) == 128;
    assert Pow2(14) == 0x4000;
  }

  lemma MaskForm(x: u32)
    ensures BitAnd(x, MASK) == 4 * (x / 4 % 0x20_0000)
  {
    BitAndEven(x, 0x3f_fffe);
    BitAndEven(x / 2, 0x1f_ffff);
    Pow2Of21();
    BitAndOnes(x / 4, 21);
    assert x / 2 / 2 == x / 4;
  }

  lemma ProductForm(i: u32)
    ensures i * 64 % MODULUS / 4 % 0x20_0000 == 16 * (i % LINES)
  {
    var q, r := i / LINES, i % LINES;
    var high, low := q / 512, q % 512;
    assert i * 64 == high * MODULUS + (low * 0x80_0000 + 64 * r);
    RemainderUnique(i * 64, MODULUS, high, low * 0x80_0000 + 64 * r);
    assert (low * 0x80_0000 + 64 * r) / 4 == low * 0x20_0000 + 16 * r;
    RemainderUnique(low * 0x20_0000 + 16 * r, 0x20_0000, low, 16 * r);
  }

  // The masked product walks the lines of the working set in order and starts over every 2^17.
  lemma AddressForm(i: u32)
    ensures Address(i) == PAGE + 64 * (i % LINES)
  {
    hide BitAnd;
    MaskForm(Mul(i, 64));
    ProductForm(i);
  }

  // Every access stays inside the 129 pages, none reaches the state page, and 128 pages would not do.
  lemma AccessInBounds(i: u32)
    ensures PAGE <= Address(i) && Address(i) + 4 <= GUEST_BYTES
    ensures Address(LINES - 1) + 4 > GUEST_BYTES - PAGE && Address(LINES - 1) + 64 == GUEST_BYTES
  {
    hide Address;
    AddressForm(i);
    AddressForm(LINES - 1);
  }

  // One sweep touches pairwise distinct lines, and every byte of the working set lies on one of them.
  lemma SweepIsExact(i: u32, a: nat)
    requires i < LINES
    requires PAGE <= a < GUEST_BYTES
    ensures Address(i) <= a < Address(i) + 64 <==> i == (a - PAGE) / 64
  {
    hide Address;
    AddressForm(i);
    LineHolds(Address(i), i, a);
  }

  lemma LineHolds(base: nat, i: nat, a: nat)
    requires i < LINES && base == PAGE + 64 * (i % LINES) && a >= PAGE
    ensures base <= a < base + 64 <==> i == (a - PAGE) / 64
  {
  }

  lemma SweepRepeats(i: u32, j: u32)
    ensures Address(i) == Address(j) <==> i % LINES == j % LINES
  {
    hide Address;
    AddressForm(i);
    AddressForm(j);
  }

  // ---------- what the guest computes ----------

  lemma Pow2Of32()
    ensures Pow2(8) == 256 && Pow2(32) == MODULUS
  {
    assert Pow2(4) == 16;
    assert Pow2(8) == 256;
    assert Pow2(16) == 65536;
    assert Pow2(24) == 0x100_0000;
  }

  function Xor32(a: u32, b: u32): u32 {
    Pow2Of32();
    BitXorWidth(a, b, 32);
    BitXor(a, b)
  }

  function FlipByte(b: byte): byte {
    Pow2Of32();
    BitXorWidth(b, KEY, 8);
    BitXor(b, KEY)
  }

  function Flip(s: seq<byte>): (r: seq<byte>)
    ensures |r| == |s|
  {
    seq(|s|, i requires 0 <= i < |s| => FlipByte(s[i]))
  }

  // One round of the working-set loop on memory and accumulator.
  ghost function Round(memory: seq<byte>, acc: u32, i: u32): (r: (seq<byte>, u32))
    requires |memory| == GUEST_BYTES
    ensures |r.0| == |memory|
  {
    AccessInBounds(i);
    var a := Address(i);
    var acc' := Xor32(acc, Load32(memory, a));
    (Store32(memory, a, Add(acc', i)), acc')
  }

  // The memory and accumulator after n rounds.
  ghost function Work(memory: seq<byte>, n: nat): (r: (seq<byte>, u32))
    requires |memory| == GUEST_BYTES && n <= MODULUS
    ensures |r.0| == |memory|
  {
    if n == 0 then (memory, SEED)
    else
      var (before, acc) := Work(memory, n - 1);
      Round(before, acc, n - 1)
  }

  lemma WorkNext(memory: seq<byte>, i: u32, before: seq<byte>, acc: u32)
    requires |memory| == GUEST_BYTES == |before|
    requires (before, acc) == Work(memory, i)
    ensures Work(memory, i + 1) == Round(before, acc, i)
  {
  }

  // No store of the working-set loop reaches the state page.
  lemma {:induction false} WorkSparesState(memory: seq<byte>, n: nat)
    requires |memory| == GUEST_BYTES && n <= MODULUS
    ensures Work(memory, n).0[..PAGE] == memory[..PAGE]
  {
    if n > 0 {
      WorkSparesState(memory, n - 1);
      AccessInBounds(n - 1);
    }
  }

  lemma LoadAfterStore(memory: seq<byte>, a: nat, value: u32)
    requires InBounds(memory, a, 4)
    ensures Load32(Store32(memory, a, value), a) == value
    ensures forall k :: 0 <= k < |memory| && !(a <= k < a + 4) ==> Store32(memory, a, value)[k] == memory[k]
  {
    Digits256(value);
  }

  lemma Digits256(v: u32)
    ensures v % 0x100 + 0x100 * (v / 0x100 % 0x100) + 0x1_0000 * (v / 0x1_0000 % 0x100) + 0x100_0000 * (v / 0x100_0000) == v
  {
    var q1 := v / 0x100;
    var q2 := q1 / 0x100;
    var q3 := q2 / 0x100;
    assert v / 0x1_0000 == q2;
    assert v / 0x100_0000 == q3;
    assert q3 < 0x100;
  }

  // Each round folds the word of its line into the accumulator and leaves there what it has accumulated
  // plus the number of the round; nothing else changes.
  lemma RoundRemembers(memory: seq<byte>, i: u32)
    requires |memory| == GUEST_BYTES
    ensures Address(i) + 4 <= GUEST_BYTES
    ensures var ((before, acc), (after, acc')) := (Work(memory, i), Work(memory, i + 1));
            && (forall n: nat :: Bit(acc', n) <==> Bit(acc, n) != Bit(Load32(before, Address(i)), n))
            && Load32(after, Address(i)) == (acc' + i) % 0x1_0000_0000
            && forall k :: 0 <= k < |memory| && !(Address(i) <= k < Address(i) + 4) ==> after[k] == before[k]
  {
    hide Address, Load32, Store32, BitXor, Bit;
    AccessInBounds(i);
    var (before, acc) := Work(memory, i);
    WorkNext(memory, i, before, acc);
    var acc' := Xor32(acc, Load32(before, Address(i)));
    LoadAfterStore(before, Address(i), Add(acc', i));
    forall n: nat
      ensures Bit(acc', n) <==> Bit(acc, n) != Bit(Load32(before, Address(i)), n)
    {
      Bitwise(acc, Load32(before, Address(i)), n);
    }
  }

  method StoreWord(memory: array<byte>, address: nat, value: u32)
    requires address + 4 <= memory.Length
    modifies memory
    ensures memory[..] == Store32(old(memory[..]), address, value)
  {
    memory[address] := value % 0x100;
    memory[address + 1] := value / 0x100 % 0x100;
    memory[address + 2] := value / 0x1_0000 % 0x100;
    memory[address + 3] := value / 0x100_0000;
  }

  method LoadWord(memory: array<byte>, address: nat) returns (value: u32)
    requires address + 4 <= memory.Length
    ensures value == Load32(memory[..], address)
  {
    value := (memory[address] as int) + 0x100 * (memory[address + 1] as int)
             + 0x1_0000 * (memory[address + 2] as int) + 0x100_0000 * (memory[address + 3] as int);
  }

  method WorkRound(memory: array<byte>, acc: u32, i: u32) returns (acc': u32)
    requires memory.Length == GUEST_BYTES
    modifies memory
    ensures (memory[..], acc') == Round(old(memory[..]), acc, i)
  {
    AccessInBounds(i);
    var address := Address(i);
    var loaded := LoadWord(memory, address);
    acc' := Xor32(acc, loaded);
    StoreWord(memory, address, Add(acc', i));
  }

  method FlipState(memory: array<byte>, stateLen: u32) returns (trapped: bool)
    modifies memory
    ensures trapped <==> stateLen > memory.Length
    ensures !trapped ==> memory[..] == old(Flip(memory[..stateLen]) + memory[stateLen..])
  {
    ghost var was := memory[..];
    var i: u32 := 0;
    while i < stateLen
      invariant i <= stateLen && i <= memory.Length
      invariant forall k :: 0 <= k < i ==> memory[k] == FlipByte(was[k])
      invariant forall k :: i <= k < memory.Length ==> memory[k] == was[k]
    {
      if i >= memory.Length {
        return true;
      }
      memory[i] := FlipByte(memory[i]);
      i := Add(i, 1);
    }
    return false;
  }

  method Sweep(memory: array<byte>, iterations: u32) returns (acc: u32)
    requires memory.Length == GUEST_BYTES
    modifies memory
    ensures (memory[..], acc) == Work(old(memory[..]), iterations)
  {
    var i: u32 := 0;
    acc := SEED;
    while i < iterations
      invariant i <= iterations
      invariant (memory[..], acc) == Work(old(memory[..]), i)
    {
      WorkNext(old(memory[..]), i, memory[..], acc);
      acc := WorkRound(memory, acc, i);
      NoWrap(i);
      i := Add(i, 1);
    }
  }

  // The guest: role and bit reach it only through the number of iterations.
  method Run(memory: array<byte>, role: u32, bit: u32, iterations: u32, stateLen: u32) returns (r: Exec)
    requires memory.Length == GUEST_BYTES
    modifies memory
    ensures r == Trap <==> stateLen > GUEST_BYTES
    ensures r.Return? ==>
              && memory[..] == Work(old(Flip(memory[..stateLen]) + memory[stateLen..]), iterations).0
              && r.value == Work(old(Flip(memory[..stateLen]) + memory[stateLen..]), iterations).1
  {
    var trapped := FlipState(memory, stateLen);
    if trapped {
      return Trap;
    }
    var acc := Sweep(memory, iterations);
    return Return(acc);
  }

  // ---------- the host ----------

  datatype TurnError = InputViolatesBounds | InvalidIterations | MemoryExceedsPolicy | StateExceedsMemory | GuestTrapped

  datatype TurnOutcome = Next(state: seq<byte>) | Rejected(error: TurnError)

  // The result of one turn of the runner process.
  function TurnStep(state: seq<byte>, iterations: u32, maxPages: nat): TurnOutcome {
    if iterations >= 0x8000_0000 then Rejected(InvalidIterations)
    else if |state| == 0 || |state| > PAGE then Rejected(InputViolatesBounds)
    else if GUEST_PAGES > maxPages then Rejected(MemoryExceedsPolicy)
    else Next(Flip(state))
  }

  // The runner: the iteration count reaches it as decimal text and is parsed as a signed 32-bit integer.
  method ExecuteTurn(state: seq<byte>, role: u32, bit: u32, iterations: u32, maxPages: nat) returns (r: TurnOutcome)
    ensures r == TurnStep(state, iterations, maxPages)
  {
    var argument := Decimal.ParseI32(Decimal.Text(iterations));
    Decimal.TextParses(iterations);
    if argument.None? {
      return Rejected(InvalidIterations);
    }
    if |state| == 0 || |state| > PAGE {
      return Rejected(InputViolatesBounds);
    }
    if GUEST_PAGES > maxPages {
      return Rejected(MemoryExceedsPolicy);
    }
    var memory := new byte[GUEST_BYTES](_ => 0);
    if |state| > memory.Length {
      return Rejected(StateExceedsMemory);
    }
    forall i | 0 <= i < |state| {
      memory[i] := state[i];
    }
    assert memory[..|state|] == state;
    ghost var flipped := Flip(memory[..|state|]) + memory[|state|..];
    var returned := Run(memory, role, bit, argument.value, |state|);
    if returned.Trap? {
      return Rejected(GuestTrapped);
    }
    WorkSparesState(flipped, iterations);
    assert memory[..|state|] == memory[..PAGE][..|state|] == flipped[..|state|];
    var output := memory[..|state|];
    forall i | 0 <= i < memory.Length {
      memory[i] := 0;
    }
    return Next(output);
  }

  // ---------- the stored state ----------

  // The state after n successful turns: all zero or all 0x5a, by parity.
  function Parity(n: nat, length: nat): seq<byte> {
    seq(length, _ => if n % 2 == 0 then 0 else KEY)
  }

  lemma FlipZero()
    ensures FlipByte(0) == KEY && FlipByte(KEY) == 0
  {
    BitXorZero(KEY);
    BitXorTwice(0, KEY);
  }

  lemma {:induction false} BitXorZero(b: nat)
    ensures BitXor(0, b) == b
  {
    if b > 0 {
      BitXorZero(b / 2);
    }
  }

  lemma ParityStep(n: nat, length: nat)
    ensures Flip(Parity(n, length)) == Parity(n + 1, length)
  {
    FlipZero();
  }
}
