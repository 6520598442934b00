/** The fields packed into `Color::value`, and the unsigned integer they are
    packed into. The colour code only ever tests, sets and clears these
    fields one at a time, so the rest of the model works on the fields;
    `Pack` and `Unpack` are where the bit positions live. */
module ColorBits {

  /** An 8-bit colour index, as held in the foreground or background byte. */
  type Byte = n: nat | n < 256

  /** `Color::value`: bits 0-7 the foreground index (`COLOR_FG`), bits 8-15
      the background index (`COLOR_BG`), then one bit each for bright (16),
      bold (17), underline (18), 256-colour mode (19), "no foreground" (20)
      and "no background" (21). */
  datatype Packed = Packed(
    fg: Byte,
    bg: Byte,
    bright: bool,
    bold: bool,
    underline: bool,
    mode256: bool,
    noFg: bool,
    noBg: bool)

  /** `COLOR_NOFG | COLOR_NOBG`, the value every constructor but the last two starts from. */
  const Default := Packed(0, 0, false, false, false, false, true, true)

  /** The all-zero value, which `colorize` passes through untouched. */
  const Zero := Packed(0, 0, false, false, false, false, false, false)

  // ---------------------------------------------------------------------
  // Bitwise OR of two indices

  /** Bitwise OR of two naturals, one binary digit at a time. */
  function Or(a: nat, b: nat): (r: nat)
    ensures a <= r && b <= r && r <= a + b
    decreases a + b
  {
    if a == 0 then b
    else if b == 0 then a
    else 2 * Or(a / 2, b / 2) + (if a % 2 == 1 || b % 2 == 1 then 1 else 0)
  }

  predicate IsPow2(p: nat)
    decreases p
  {
    p == 1 || (p > 1 && p % 2 == 0 && IsPow2(p / 2))
  }

  /** OR does not carry: two numbers below a power of two OR to one below it. */
  lemma {:induction false} OrBelow(a: nat, b: nat, p: nat)
    requires IsPow2(p) && a < p && b < p
    ensures Or(a, b) < p
    decreases a + b
  {
    if a != 0 && b != 0 {
      OrBelow(a / 2, b / 2, p / 2);
    }
  }

  /** `index |= other`, on one colour byte. */
  function OrByte(a: Byte, b: Byte): (r: Byte)
    ensures a == 0 ==> r == b
    ensures b == 0 ==> r == a
  {
    assert IsPow2(1) && IsPow2(2) && IsPow2(4) && IsPow2(8) && IsPow2(16);
    assert IsPow2(32) && IsPow2(64) && IsPow2(128) && IsPow2(256);
    OrBelow(a, b, 256);
    Or(a, b)
  }

  /** OR keeps every binary digit of either side and adds none. */
  lemma {:induction false} OrDigits(a: nat, b: nat)
    ensures Or(a, b) % 2 == (if a % 2 == 1 || b % 2 == 1 then 1 else 0)
    ensures Or(a, b) / 2 == Or(a / 2, b / 2)
    decreases a + b
  {
  }

  function Pow2(k: nat): (p: nat)
    ensures p >= 1
  {
    if k == 0 then 1 else 2 * Pow2(k - 1)
  }

  lemma DivUnique(x: nat, m: nat, q: nat, r: nat)
    requires 0 <= r < m && x == m * q + r
    ensures x / m == q
  {
    var d := x / m - q;
    assert m * d == r - x % m;
    MulAtLeast(m, d);
  }

  lemma MulAtLeast(m: nat, d: int)
    ensures d >= 1 ==> m * d >= m
    ensures d <= -1 ==> m * d <= 0 - m
  {
  }

  lemma DivDiv(x: nat, m: nat)
    requires m >= 1
    ensures x / (2 * m) == (x / 2) / m
  {
    var n := 2 * m;
    var q, r := x / n, x % n;
    assert x == n * q + r && r < n;
    var r2, r1 := r / 2, r % 2;
    assert r == 2 * r2 + r1 && r2 < m;
    var h := m * q + r2;
    assert n * q == 2 * (m * q);
    assert x == 2 * h + r1;
    DivUnique(x, 2, h, r1);
    DivUnique(x / 2, m, q, r2);
  }

  /** `Or` is bitwise OR: binary digit `k` of the result is set exactly
      when it is set in either operand. */
  lemma {:induction false} OrBinaryDigit(a: nat, b: nat, k: nat)
    ensures (Or(a, b) / Pow2(k)) % 2 == (if (a / Pow2(k)) % 2 == 1 || (b / Pow2(k)) % 2 == 1 then 1 else 0)
  {
    OrDigits(a, b);
    if k > 0 {
      OrBinaryDigit(a / 2, b / 2, k - 1);
      DivDiv(Or(a, b), Pow2(k - 1));
      DivDiv(a, Pow2(k - 1));
      DivDiv(b, Pow2(k - 1));
    }
  }

  /** ORing an index with itself changes nothing. */
  lemma {:induction false} OrSelf(a: nat)
    ensures Or(a, a) == a
    decreases a
  {
    if a != 0 {
      OrSelf(a / 2);
    }
  }

  // ---------------------------------------------------------------------
  // The unsigned integer

  function Bit(b: bool): nat { if b then 1 else 0 }

  /** Three flags as three binary digits, the first lowest. */
  function Bits3(a: bool, b: bool, c: bool): (n: nat)
    ensures n < 8
  {
    Bit(a) + 2 * (Bit(b) + 2 * Bit(c))
  }

  /** The six flag bits, from bit 16 upwards. */
  function Flags(p: Packed): (f: nat)
    ensures f < 64
  {
    Bits3(p.bright, p.bold, p.underline) + 8 * Bits3(p.mode256, p.noFg, p.noBg)
  }

  /** The fields as the unsigned integer `Color::value`. */
  function Pack(p: Packed): (n: nat)
    ensures n < 0x40_0000
  {
    p.fg + 0x100 * (p.bg + 0x100 * Flags(p))
  }

  // The three low binary digits of a number, and the number shifted past them.
  predicate D0(x: nat) { x % 2 == 1 }
  predicate D1(x: nat) { (x / 2) % 2 == 1 }
  predicate D2(x: nat) { ((x / 2) / 2) % 2 == 1 }
  function Shift3(x: nat): nat { ((x / 2) / 2) / 2 }

  /** The fields read back out of an unsigned integer, from the low bits
      up; bits above 21 are not part of any field. */
  function Unpack(n: nat): Packed
  {
    var m := n / 0x100;
    var f := m / 0x100;
    var g := Shift3(f);
    Packed(n % 0x100, m % 0x100, D0(f), D1(f), D2(f), D0(g), D1(g), D2(g))
  }

  lemma Digit256(a: nat, x: nat)
    requires a < 0x100
    ensures (a + 0x100 * x) % 0x100 == a
    ensures (a + 0x100 * x) / 0x100 == x
  {
  }

  /** The digits of a number below 8 are not disturbed by what lies above. */
  lemma Digits3Plus(x: nat, y: nat)
    requires x < 8
    ensures D0(x + 8 * y) == D0(x) && D1(x + 8 * y) == D1(x) && D2(x + 8 * y) == D2(x)
    ensures Shift3(x + 8 * y) == y
  {
    var n := x + 8 * y;
    assert n / 2 == x / 2 + 4 * y;
    assert (n / 2) / 2 == (x / 2) / 2 + 2 * y;
  }

  lemma Digits3Bits3(a: bool, b: bool, c: bool)
    ensures var n := Bits3(a, b, c); D0(n) == a && D1(n) == b && D2(n) == c
  {
  }

  lemma PackBytes(p: Packed)
    ensures Pack(p) % 0x100 == p.fg
    ensures (Pack(p) / 0x100) % 0x100 == p.bg
    ensures (Pack(p) / 0x100) / 0x100 == Flags(p)
  {
    Digit256(p.fg, p.bg + 0x100 * Flags(p));
    Digit256(p.bg, Flags(p));
  }

  /** Reading the fields back out of their packing gives them back. */
  lemma UnpackPack(p: Packed)
    ensures Unpack(Pack(p)) == p
  {
    var lo := Bits3(p.bright, p.bold, p.underline);
    var hi := Bits3(p.mode256, p.noFg, p.noBg);
    PackBytes(p);
    Digits3Plus(lo, hi);
    Digits3Plus(hi, 0);
    Digits3Bits3(p.bright, p.bold, p.underline);
    Digits3Bits3(p.mode256, p.noFg, p.noBg);
  }

  lemma Bits3Digits(x: nat)
    ensures x == Bits3(D0(x), D1(x), D2(x)) + 8 * Shift3(x)
  {
    var x1 := x / 2;
    var x2 := x1 / 2;
    assert Bits3(D0(x), D1(x), D2(x)) == x % 2 + 2 * (x1 % 2 + 2 * (x2 % 2));
  }

  lemma ModPlus22(x: nat, k: nat)
    requires x < 0x40_0000
    ensures (x + 0x40_0000 * k) % 0x40_0000 == x
  {
  }

  lemma ModPlus20(x: nat, k: nat)
    requires x < 0x10_0000
    ensures (x + 0x10_0000 * k) % 0x10_0000 == x
  {
  }

  /** Packing the fields of an integer gives back its low 22 bits: nothing
      of a field is lost and nothing outside them is kept. */
  lemma PackUnpack(n: nat)
    ensures Pack(Unpack(n)) == n % 0x40_0000
  {
    var m := n / 0x100;
    var f := m / 0x100;
    var g := Shift3(f);
    var p := Unpack(n);
    Bits3Digits(f);
    Bits3Digits(g);
    assert f == Flags(p) + 64 * Shift3(g);
    assert n == n % 0x100 + 0x100 * (m % 0x100 + 0x100 * f);
    assert n == Pack(p) + 0x40_0000 * Shift3(g);
    ModPlus22(Pack(p), Shift3(g));
  }

  /** Bitwise AND with `0xFFFFF` (every field but the two "no colour" flags,
      so the low 20 bits), on the packed fields. */
  lemma PackLow20(p: Packed)
    ensures Pack(p.(noFg := false, noBg := false)) == Pack(p) % 0x10_0000
  {
    var q := p.(noFg := false, noBg := false);
    assert Flags(p) == Flags(q) + 16 * (Bit(p.noFg) + 2 * Bit(p.noBg));
    assert Pack(p) == Pack(q) + 0x10_0000 * (Bit(p.noFg) + 2 * Bit(p.noBg));
    assert Pack(q) < 0x10_0000;
    ModPlus20(Pack(q), Bit(p.noFg) + 2 * Bit(p.noBg));
  }

  /** Only the all-zero fields pack to 0. */
  lemma PackZero(p: Packed)
    ensures Pack(p) == 0 <==> p == Zero
  {
  }
}
