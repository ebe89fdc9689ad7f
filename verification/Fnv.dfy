/** The 32-bit FNV-1a hash that routes a diagram id to one of the bundle's route files
    (draft-eastlake-fnv, section 2), as the builder and as its browser client compute it. */
module Fnv {
  type Octet = b: nat | b < 256

  /** A text as its UTF-8 octets. */
  type Octets = seq<Octet>

  const OFFSET_BASIS: nat := 0x811C9DC5
  const PRIME: nat := 0x01000193
  const WORD: nat := 0x1_0000_0000
  const ROUTE_BUCKETS: nat := 64

  /** Exclusive or of two non-negative integers, bit by bit. */
  function Xor(a: nat, b: nat): nat {
    if a == 0 && b == 0 then 0 else (a + b) % 2 + 2 * Xor(a / 2, b / 2)
  }

  /** Bit i of a number. */
  function Bit(a: nat, i: nat): nat {
    if i == 0 then a % 2 else Bit(a / 2, i - 1)
  }

  lemma XorHalves(a: nat, b: nat)
    ensures Xor(a, b) % 2 == (if a % 2 == b % 2 then 0 else 1) && Xor(a, b) / 2 == Xor(a / 2, b / 2)
  {
    Parity(a, b, Xor(a / 2, b / 2));
  }

  lemma Parity(a: nat, b: nat, x: nat)
    ensures ((a + b) % 2 + 2 * x) % 2 == if a % 2 == b % 2 then 0 else 1
    ensures ((a + b) % 2 + 2 * x) / 2 == x
  {
  }

  lemma {:induction false} XorBits(a: nat, b: nat, i: nat)
    ensures Bit(Xor(a, b), i) == if Bit(a, i) == Bit(b, i) then 0 else 1
    decreases i
  {
    XorHalves(a, b);
    if i > 0 {
      XorBits(a / 2, b / 2, i - 1);
    }
  }

  /** One round of the builder: an unbounded product, then the low 32 bits. */
  function Step(h: nat, b: Octet): nat {
    (Xor(h, b) * PRIME) % WORD
  }

  function Hash(text: Octets): nat {
    if text == [] then OFFSET_BASIS
    else Step(Hash(text[..|text| - 1]), text[|text| - 1])
  }

  method Fnv1a32(text: Octets) returns (h: nat)
    ensures h == Hash(text)
    ensures h < WORD
  {
    h := OFFSET_BASIS;
    for i := 0 to |text|
      invariant h == Hash(text[..i])
      invariant h < WORD
    {
      assert text[..i + 1][..i] == text[..i];
      h := Xor(h, text[i]);
      h := (h * PRIME) % WORD;
    }
    assert text[..|text|] == text;
  }

  /** The signed reading of the low 32 bits of an integer. */
  function ToInt32(x: int): int {
    if x % WORD < WORD / 2 then x % WORD else x % WORD - WORD
  }

  /** One round of the browser client: a signed 32-bit operand, a signed 32-bit product, then
      an unsigned reading of it. */
  function ClientStep(h: nat, b: Octet): nat {
    ToInt32(ToInt32(Xor(h, b)) * PRIME) % WORD
  }

  function ClientHash(text: Octets): nat {
    if text == [] then OFFSET_BASIS
    else ClientStep(ClientHash(text[..|text| - 1]), text[|text| - 1])
  }

  lemma SignedProduct(x: nat)
    ensures (ToInt32(x) * PRIME) % WORD == (x * PRIME) % WORD
  {
    var q := (x - ToInt32(x)) / WORD;
    assert x == ToInt32(x) + q * WORD;
    assert x * PRIME == ToInt32(x) * PRIME + (q * PRIME) * WORD;
    ShiftedRemainder(ToInt32(x) * PRIME, q * PRIME);
  }

  lemma ShiftedRemainder(y: int, k: int)
    ensures (y + k * WORD) % WORD == y % WORD
  {
  }

  lemma StepsAgree(h: nat, b: Octet)
    ensures ClientStep(h, b) == Step(h, b)
  {
    SignedProduct(Xor(h, b));
  }

  /** The builder and its client send every id to the same route file. */
  lemma {:induction false} ClientsAgree(text: Octets)
    ensures ClientHash(text) == Hash(text)
  {
    if text != [] {
      ClientsAgree(text[..|text| - 1]);
      StepsAgree(Hash(text[..|text| - 1]), text[|text| - 1]);
    }
  }

  function Bucket(id: Octets): (b: nat)
    ensures b < ROUTE_BUCKETS
  {
    Hash(id) % ROUTE_BUCKETS
  }

  lemma {:induction false} XorZero(a: nat)
    ensures Xor(a, 0) == a
  {
    if a != 0 {
      XorZero(a / 2);
    }
  }

  /** The published reference values for the empty text and for "a"; the second one tells
      FNV-1a from the older FNV-1, which multiplies first. */
  lemma ReferenceValues()
    ensures Hash([]) == 0x811C9DC5
    ensures Hash([0x61]) == 0xE40C292C
  {
    XorZero(16922939);
    assert Xor(33845879, 1) == 33845878;
    assert Xor(67691758, 3) == 67691757;
    assert Xor(135383516, 6) == 135383514;
    assert Xor(270767032, 12) == 270767028;
    assert Xor(541534065, 24) == 541534057;
    assert Xor(1083068130, 48) == 1083068114;
    assert Xor(2166136261, 97) == 2166136228;
    assert [0x61][..0] == [];
  }
}
