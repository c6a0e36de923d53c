/** The FNV-1a hash of the scanner on 64-bit states, and why it sees every single-byte change. */
module Fnv {
  import opened Common

  const M: int := 0x1_0000_0000_0000_0000
  const OFFSET_BASIS: U64 := 14695981039346656037
  const PRIME: int := 1099511628211
  /** The inverse of the prime modulo 2^64. */
  const INVERSE: int := 14886173955864302971

  function Pow2(width: nat): nat { if width == 0 then 1 else 2 * Pow2(width - 1) }

  /** Exclusive or, bit by bit, of two numbers of `width` bits. */
  function Xor(width: nat, a: nat, b: nat): nat {
    if width == 0 then 0 else 2 * Xor(width - 1, a / 2, b / 2) + if a % 2 == b % 2 then 0 else 1
  }

  lemma XorBits(width: nat, a: nat, b: nat)
    requires width > 0
    ensures Xor(width, a, b) / 2 == Xor(width - 1, a / 2, b / 2)
    ensures Xor(width, a, b) % 2 == if a % 2 == b % 2 then 0 else 1
  {
  }

  lemma {:induction false} XorUndone(width: nat, a: nat, b: nat)
    requires a < Pow2(width)
    ensures Xor(width, a, b) < Pow2(width)
    ensures Xor(width, Xor(width, a, b), b) == a
  {
    if width > 0 {
      var r := Xor(width, a, b);
      XorBits(width, a, b);
      XorUndone(width - 1, a / 2, b / 2);
      XorBits(width, r, b);
    }
  }

  lemma {:induction false} XorDiffers(width: nat, a: nat, x: nat, y: nat)
    requires x < Pow2(width) && y < Pow2(width) && x != y
    ensures Xor(width, a, x) != Xor(width, a, y)
  {
    if width > 0 && x / 2 != y / 2 {
      XorDiffers(width - 1, a / 2, x / 2, y / 2);
    }
  }

  lemma ByteWidth(width: nat)
    requires width == 8
    ensures Pow2(width) == 256
  {
  }

  function XorLow(low: Byte, byte: Byte): Byte {
    ByteWidth(8);
    XorUndone(8, low, byte);
    Xor(8, low, byte)
  }

  /** Exclusive or with a byte: only the low eight bits of the state take part. */
  function XorByte(hash: U64, byte: Byte): U64 {
    hash / 256 * 256 + XorLow(hash % 256, byte)
  }

  lemma XorByteUndone(hash: U64, byte: Byte)
    ensures XorByte(XorByte(hash, byte), byte) == hash
  {
    hide Xor, Pow2;
    ByteWidth(8);
    XorUndone(8, hash % 256, byte);
    var high, low := hash / 256, XorLow(hash % 256, byte);
    assert (high * 256 + low) / 256 == high && (high * 256 + low) % 256 == low;
  }

  /** One turn of the loop of `fnv1a64`. */
  function Step(hash: U64, byte: Byte): U64 { XorByte(hash, byte) * PRIME % M }

  function Unstep(hash: U64, byte: Byte): U64 { XorByte(hash * INVERSE % M, byte) }

  function Fold(hash: U64, bytes: seq<Byte>): U64
    decreases |bytes|
  {
    if bytes == [] then hash else Fold(Step(hash, bytes[0]), bytes[1..])
  }

  function Hash(bytes: seq<Byte>): U64 { Fold(OFFSET_BASIS, bytes) }

  // ---------------------------------------------------------------- each step is a bijection

  lemma Congruent(a: int, b: int, k: int)
    requires a == b + k * M && 0 <= b < M
    ensures a % M == b
  {
  }

  lemma InverseCancels(x: U64, p: int, q: int)
    requires (p == PRIME && q == INVERSE) || (p == INVERSE && q == PRIME)
    ensures (x * p % M) * q % M == x
  {
    var r, k := x * p % M, x * p / M;
    assert x * p == k * M + r;
    assert p * q == 1 + 887285111055 * M;
    calc {
      r * q;
      (x * p - k * M) * q;
      x * (p * q) - k * M * q;
      x + (x * 887285111055 - k * q) * M;
    }
    Congruent(r * q, x, x * 887285111055 - k * q);
  }

  /** Multiplying by the odd prime can be undone, and so can the exclusive or: no two states are
      mapped to the same one, and every state is reached. */
  lemma StepBijective(hash: U64, byte: Byte)
    ensures Unstep(Step(hash, byte), byte) == hash
    ensures Step(Unstep(hash, byte), byte) == hash
  {
    InverseCancels(XorByte(hash, byte), PRIME, INVERSE);
    XorByteUndone(hash, byte);
    InverseCancels(hash, INVERSE, PRIME);
    XorByteUndone(hash * INVERSE % M, byte);
  }

  lemma {:induction false} FoldInjective(a: U64, b: U64, bytes: seq<Byte>)
    requires a != b
    ensures Fold(a, bytes) != Fold(b, bytes)
    decreases |bytes|
  {
    if bytes != [] {
      StepBijective(a, bytes[0]);
      StepBijective(b, bytes[0]);
      FoldInjective(Step(a, bytes[0]), Step(b, bytes[0]), bytes[1..]);
    }
  }

  lemma {:induction false} FoldAppend(hash: U64, front: seq<Byte>, back: seq<Byte>)
    ensures Fold(hash, front + back) == Fold(Fold(hash, front), back)
    decreases |front|
  {
    if front == [] {
      assert front + back == back;
    } else {
      assert (front + back)[1..] == front[1..] + back;
      FoldAppend(Step(hash, front[0]), front[1..], back);
    }
  }

  lemma DifferentBytesStepApart(hash: U64, x: Byte, y: Byte)
    requires x != y
    ensures Step(hash, x) != Step(hash, y)
  {
    hide Xor, Pow2;
    ByteWidth(8);
    XorDiffers(8, hash % 256, x, y);
    assert XorByte(hash, x) != XorByte(hash, y);
    InverseCancels(XorByte(hash, x), PRIME, INVERSE);
    InverseCancels(XorByte(hash, y), PRIME, INVERSE);
  }

  /** Two inputs of equal length that differ in exactly one place never hash the same. */
  lemma SingleByteChangeDetected(a: seq<Byte>, b: seq<Byte>, i: nat)
    requires |a| == |b| && i < |a| && a[i] != b[i]
    requires forall j | 0 <= j < |a| && j != i :: a[j] == b[j]
    ensures Hash(a) != Hash(b)
  {
    var front, back := a[..i], a[i + 1..];
    assert a == front + ([a[i]] + back) && b == front + ([b[i]] + back);
    var hash := Fold(OFFSET_BASIS, front);
    FoldAppend(OFFSET_BASIS, front, [a[i]] + back);
    FoldAppend(OFFSET_BASIS, front, [b[i]] + back);
    assert ([a[i]] + back)[1..] == back && ([b[i]] + back)[1..] == back;
    DifferentBytesStepApart(hash, a[i], b[i]);
    FoldInjective(Step(hash, a[i]), Step(hash, b[i]), back);
  }

  method Fnv1a64(bytes: seq<Byte>) returns (hash: U64)
    ensures hash == Hash(bytes)
  {
    hash := OFFSET_BASIS;
    for i := 0 to |bytes|
      invariant Fold(hash, bytes[i..]) == Hash(bytes)
    {
      hash := XorByte(hash, bytes[i]);
      hash := hash * PRIME % M;
    }
  }

  lemma XorOfA()
    ensures Xor(8, 0x25, 0x61) == 0x44
  {
    assert Xor(2, 0, 1) == 1;
    assert Xor(4, 2, 6) == 4;
    assert Xor(6, 9, 24) == 17;
  }

  lemma StepOfA()
    ensures Step(OFFSET_BASIS, 0x61) == 0xaf63_dc4c_8601_ec8c
  {
    XorOfA();
    hide Xor;
    var mixed: nat := 0xcbf2_9ce4_8422_2344;
    assert XorByte(OFFSET_BASIS, 0x61) == mixed;
    Congruent(mixed * PRIME, 0xaf63_dc4c_8601_ec8c, 875948729822);
  }

  /** The published hashes of the empty text and of the text "a". */
  lemma KnownHashes()
    ensures Hash([]) == 0xcbf2_9ce4_8422_2325
    ensures Hash([0x61]) == 0xaf63_dc4c_8601_ec8c
  {
    StepOfA();
    hide Step;
    var text: seq<Byte> := [0x61];
    assert text[1..] == [];
    assert Fold(OFFSET_BASIS, text) == Fold(Step(OFFSET_BASIS, 0x61), text[1..]);
  }
}
