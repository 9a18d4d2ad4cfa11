// 32-bit integer operations and linear memory, as far as the two guest modules use them
// (WebAssembly Core Specification 1.0, section 4.3.2).
module Wasm32 {
  import opened Division

  type byte = x: int | 0 <= x < 256
  type u32 = x: int | 0 <= x < 0x1_0000_0000

  const PAGE: nat := 65536
  const MODULUS: nat := 0x1_0000_0000

  // A call into a guest either traps or returns a value.
  datatype Exec = Trap | Return(value: u32)

  function Add(a: u32, b: u32): u32 { (a + b) % MODULUS }

  lemma NoWrap(i: u32)
    ensures i < MODULUS - 1 ==> Add(i, 1) == i + 1
  {
  }

  function Mul(a: u32, b: u32): u32 { (a * b) % MODULUS }

  // The host reads a returned i32 as signed.
  function Signed(a: u32): int {
    if a < 0x8000_0000 then a else a - MODULUS
  }

  function Pow2(n: nat): (r: nat)
    ensures r > 0
  {
    if n == 0 then 1 else 2 * Pow2(n - 1)
  }

  function BitAnd(a: nat, b: nat): nat {
    if a == 0 || b == 0 then 0
    else (if a % 2 == 1 && b % 2 == 1 then 1 else 0) + 2 * BitAnd(a / 2, b / 2)
  }

  function BitXor(a: nat, b: nat): nat
    decreases a + b
  {
    if a == 0 && b == 0 then 0
    else (if a % 2 != b % 2 then 1 else 0) + 2 * BitXor(a / 2, b / 2)
  }

  // Bit i of a number.
  predicate Bit(a: nat, i: nat) {
    if i == 0 then a % 2 == 1 else Bit(a / 2, i - 1)
  }

  // Both operations work bit by bit.
  lemma {:induction false} Bitwise(a: nat, b: nat, i: nat)
    ensures Bit(BitAnd(a, b), i) <==> Bit(a, i) && Bit(b, i)
    ensures Bit(BitXor(a, b), i) <==> Bit(a, i) != Bit(b, i)
    decreases i
  {
    hide BitAnd, BitXor, Bit;
    BitAndStep(a, b);
    BitXorStep(a, b);
    LowBit(if a % 2 == 1 && b % 2 == 1 then 1 else 0, BitAnd(a / 2, b / 2), i);
    LowBit(if a % 2 != b % 2 then 1 else 0, BitXor(a / 2, b / 2), i);
    LowBit(a % 2, a / 2, i);
    LowBit(b % 2, b / 2, i);
    if i > 0 {
      Bitwise(a / 2, b / 2, i - 1);
    }
  }

  lemma LowBit(d: nat, half: nat, i: nat)
    requires d <= 1
    ensures Bit(d + 2 * half, i) <==> if i == 0 then d == 1 else Bit(half, i - 1)
  {
    assert (d + 2 * half) / 2 == half && (d + 2 * half) % 2 == d;
  }

  lemma BitXorStep(a: nat, b: nat)
    ensures BitXor(a, b) == (if a % 2 != b % 2 then 1 else 0) + 2 * BitXor(a / 2, b / 2)
  {
  }

  lemma {:induction false} BitXorWidth(a: nat, b: nat, n: nat)
    requires a < Pow2(n) && b < Pow2(n)
    ensures BitXor(a, b) < Pow2(n)
    decreases n
  {
    if n > 0 {
      BitXorWidth(a / 2, b / 2, n - 1);
    }
  }

  // Exclusive or with the same operand undoes itself.
  lemma {:induction false} BitXorTwice(a: nat, b: nat)
    ensures BitXor(BitXor(a, b), b) == a
    decreases a + b
  {
    if a != 0 || b != 0 {
      BitXorTwice(a / 2, b / 2);
      var x := BitXor(a, b);
      assert x / 2 == BitXor(a / 2, b / 2) && x % 2 == if a % 2 != b % 2 then 1 else 0;
    }
  }

  // Masking with n ones keeps the remainder modulo 2^n.
  lemma {:induction false} BitAndOnes(a: nat, n: nat)
    ensures BitAnd(a, Pow2(n) - 1) == a % Pow2(n)
    decreases n
  {
    if n > 0 {
      BitAndOnes(a / 2, n - 1);
      MaskStep(a, Pow2(n - 1));
    }
  }

  lemma MaskStep(a: nat, m: nat)
    requires m > 0 && BitAnd(a / 2, m - 1) == a / 2 % m
    ensures BitAnd(a, 2 * m - 1) == a % (2 * m)
  {
    hide BitAnd;
    var mask := 2 * m - 1;
    BitAndStep(a, mask);
    OnesByHalves(m);
    RemainderByHalves(a, m);
    assert a % 2 == 0 || a % 2 == 1;
  }

  lemma BitAndStep(a: nat, b: nat)
    ensures BitAnd(a, b) == (if a % 2 == 1 && b % 2 == 1 then 1 else 0) + 2 * BitAnd(a / 2, b / 2)
  {
  }

  lemma OnesByHalves(m: nat)
    requires m > 0
    ensures (2 * m - 1) / 2 == m - 1 && (2 * m - 1) % 2 == 1
  {
  }

  lemma RemainderByHalves(a: nat, m: nat)
    requires m > 0
    ensures a % (2 * m) == 2 * (a / 2 % m) + a % 2
  {
    var h := a / 2;
    var q, r := h / m, 2 * (h % m) + a % 2;
    assert h == q * m + h % m;
    assert a == q * (2 * m) + r;
    RemainderUnique(a, 2 * m, q, r);
  }

  predicate InBounds(memory: seq<byte>, address: nat, width: nat) {
    address + width <= |memory|
  }

  // i32.load and i32.store are little-endian.
  function Load32(memory: seq<byte>, address: nat): u32
    requires InBounds(memory, address, 4)
  {
    var b0: int, b1: int, b2: int, b3: int :=
      memory[address], memory[address + 1], memory[address + 2], memory[address + 3];
    b0 + 0x100 * b1 + 0x1_0000 * b2 + 0x100_0000 * b3
  }

  function Store32(memory: seq<byte>, address: nat, value: u32): (r: seq<byte>)
    requires InBounds(memory, address, 4)
    ensures |r| == |memory|
  {
    memory[address := value % 0x100]
          [address + 1 := value / 0x100 % 0x100]
          [address + 2 := value / 0x1_0000 % 0x100]
          [address + 3 := value / 0x100_0000]
  }
}
