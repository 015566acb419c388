/**
 * The CRC-8 the AHT20 driver checks its frames with: Zephyr's crc8() with
 * polynomial 0x31, initial value 0xFF and bits taken most significant first
 * (reversed = false), i.e. the CRC-8 of Sensirion-style humidity sensors.
 * Zephyr's routine is a double loop; it is given here as a recursive reference
 * definition over bytes (uint8_t values, as bv8).
 */
module Crc {

  const Polynomial: bv8 := 0x31
  const Initial: bv8 := 0xFF

  /** One bit step: shift left, and fold in the polynomial when the top bit falls out. */
  function Shift(c: bv8): bv8
  {
    if c & 0x80 != 0 then (c << 1) ^ Polynomial else c << 1
  }

  function Shifts(c: bv8, n: nat): bv8
    decreases n
  {
    if n == 0 then c else Shifts(Shift(c), n - 1)
  }

  /** One byte step: xor the byte in, then eight bit steps. */
  function Update(c: bv8, b: bv8): bv8
  {
    Shifts(c ^ b, 8)
  }

  function Crc8From(c: bv8, data: seq<bv8>): bv8
    decreases |data|
  {
    if data == [] then c else Crc8From(Update(c, data[0]), data[1..])
  }

  /** crc8(data, len, 0x31, 0xff, false) */
  function Crc8(data: seq<bv8>): bv8
  {
    Crc8From(Initial, data)
  }

  /** The standard check value: "123456789" gives 0xF7. */
  lemma CheckValueDigits()
    ensures Crc8([0x31, 0x32, 0x33, 0x34, 0x35, 0x36, 0x37, 0x38, 0x39]) == 0xF7
  {
    var m: seq<bv8> := [0x31, 0x32, 0x33, 0x34, 0x35, 0x36, 0x37, 0x38, 0x39];
    var crcs: seq<bv8> := [0x58, 0x60, 0x2d, 0xcb, 0x9d, 0x16, 0xb7, 0x54, 0xf7];
    DigitSteps();
    assert forall i | 0 < i < |m| :: Update(crcs[i - 1], m[i]) == crcs[i] by {
      forall i | 0 < i < |m| ensures Update(crcs[i - 1], m[i]) == crcs[i] {
        assert i in {1, 2, 3, 4, 5, 6, 7, 8};
      }
    }
    StepsReach(Initial, m, crcs);
  }

  /** The bytes BE EF give 0x92. */
  lemma CheckValueBeef()
    ensures Crc8([0xBE, 0xEF]) == 0x92
  {
    BeefSteps();
    StepsReach(Initial, [0xBE, 0xEF], [0x0c, 0x92]);
  }

  lemma DigitSteps()
    ensures Update(0xFF, 0x31) == 0x58 && Update(0x58, 0x32) == 0x60 && Update(0x60, 0x33) == 0x2d
    ensures Update(0x2d, 0x34) == 0xcb && Update(0xcb, 0x35) == 0x9d && Update(0x9d, 0x36) == 0x16
    ensures Update(0x16, 0x37) == 0xb7 && Update(0xb7, 0x38) == 0x54 && Update(0x54, 0x39) == 0xf7
  {
  }

  lemma BeefSteps()
    ensures Update(0xFF, 0xBE) == 0x0c && Update(0x0c, 0xEF) == 0x92
  {
  }

  /** The CRC of a message whose every byte step goes through the listed running values is the
      last of them. */
  lemma {:induction false} StepsReach(c: bv8, m: seq<bv8>, crcs: seq<bv8>)
    requires |m| == |crcs| > 0
    requires Update(c, m[0]) == crcs[0]
    requires forall i :: 0 < i < |m| ==> Update(crcs[i - 1], m[i]) == crcs[i]
    ensures Crc8From(c, m) == crcs[|crcs| - 1]
    decreases |m|
  {
    if |m| > 1 {
      StepsReach(crcs[0], m[1..], crcs[1..]);
    }
  }

  /** A bit step loses no information: the polynomial's low bit tells whether it was folded in. */
  lemma ShiftInjective(a: bv8, b: bv8)
    requires a != b
    ensures Shift(a) != Shift(b)
  {
  }

  lemma {:induction false} ShiftsInjective(a: bv8, b: bv8, n: nat)
    requires a != b
    ensures Shifts(a, n) != Shifts(b, n)
    decreases n
  {
    if n > 0 {
      ShiftInjective(a, b);
      ShiftsInjective(Shift(a), Shift(b), n - 1);
    }
  }

  lemma XorInjective(c: bv8, x1: bv8, x2: bv8)
    requires x1 != x2
    ensures c ^ x1 != c ^ x2 && x1 ^ c != x2 ^ c
  {
  }

  /** A byte step is injective in the running CRC ... */
  lemma UpdateInjectiveInCrc(c1: bv8, c2: bv8, b: bv8)
    requires c1 != c2
    ensures Update(c1, b) != Update(c2, b)
  {
    XorInjective(b, c1, c2);
    ShiftsInjective(c1 ^ b, c2 ^ b, 8);
  }

  /** ... and in the byte. */
  lemma UpdateInjectiveInByte(c: bv8, b1: bv8, b2: bv8)
    requires b1 != b2
    ensures Update(c, b1) != Update(c, b2)
  {
    XorInjective(c, b1, b2);
    ShiftsInjective(c ^ b1, c ^ b2, 8);
  }

  /** Different running CRCs stay different over the same bytes. */
  lemma {:induction false} Crc8FromInjective(c1: bv8, c2: bv8, data: seq<bv8>)
    requires c1 != c2
    ensures Crc8From(c1, data) != Crc8From(c2, data)
    decreases |data|
  {
    if data != [] {
      UpdateInjectiveInCrc(c1, c2, data[0]);
      Crc8FromInjective(Update(c1, data[0]), Update(c2, data[0]), data[1..]);
    }
  }

  /** The CRC of a concatenation continues from the CRC of its first part. */
  lemma {:induction false} Crc8FromAppend(c: bv8, p: seq<bv8>, s: seq<bv8>)
    ensures Crc8From(c, p + s) == Crc8From(Crc8From(c, p), s)
    decreases |p|
  {
    if p == [] {
      assert p + s == s;
    } else {
      assert (p + s)[1..] == p[1..] + s;
      Crc8FromAppend(Update(c, p[0]), p[1..], s);
    }
  }

  /** Every corruption of a single byte changes the CRC: two messages of the same length that
      differ in exactly one position have different CRCs. */
  lemma {:induction false} SingleByteErrorDetected(d: seq<bv8>, e: seq<bv8>, k: nat)
    requires |d| == |e| && k < |d|
    requires d[k] != e[k]
    requires forall i :: 0 <= i < |d| && i != k ==> d[i] == e[i]
    ensures Crc8(d) != Crc8(e)
  {
    assert d[..k] == e[..k];
    assert d[k + 1..] == e[k + 1..];
    assert d == d[..k] + ([d[k]] + d[k + 1..]);
    assert e == e[..k] + ([e[k]] + e[k + 1..]);
    var c := Crc8From(Initial, d[..k]);
    Crc8FromAppend(Initial, d[..k], [d[k]] + d[k + 1..]);
    Crc8FromAppend(Initial, e[..k], [e[k]] + e[k + 1..]);
    assert ([d[k]] + d[k + 1..])[1..] == d[k + 1..];
    assert ([e[k]] + e[k + 1..])[1..] == e[k + 1..];
    UpdateInjectiveInByte(c, d[k], e[k]);
    Crc8FromInjective(Update(c, d[k]), Update(c, e[k]), d[k + 1..]);
  }
}
