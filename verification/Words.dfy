/** Machine words of the simulator: 32-bit unsigned integers with the wrap-around of C++ `uint32_t`,
    their signed reading, shifts and the bitwise operators. Shifts and masks are defined bit by bit,
    so that every fact about them is linear. */
module Words {
  type Word = w: int | 0 <= w < 0x1_0000_0000
  type Half = h: int | 0 <= h < 0x1_0000
  type Byte = b: int | 0 <= b < 0x100

  /** Reduction modulo 2^32 (Dafny's `%` is Euclidean, so negative numbers wrap as two's complement). */
  function Wrap(x: int): Word {
    x % 0x1_0000_0000
  }

  function Add(a: Word, b: Word): Word {
    Wrap(a + b)
  }

  function Sub(a: Word, b: Word): Word {
    Wrap(a - b)
  }

  /** The `int32_t` with the same bits. */
  function Signed(w: Word): int {
    if w < 0x8000_0000 then w else w - 0x1_0000_0000
  }

  function Max(a: nat, b: nat): nat {
    if a >= b then a else b
  }

  /** Subtraction that stops at zero. */
  function Minus(a: nat, b: nat): nat {
    if a >= b then a - b else 0
  }

  function Pow2(k: nat): (p: nat)
    ensures p >= 1
  {
    if k == 0 then 1 else 2 * Pow2(k - 1)
  }

  // ---------- Shifts and masks ----------

  /** `w << k` without truncation. */
  function Shl(w: nat, k: nat): nat {
    if k == 0 then w else 2 * Shl(w, k - 1)
  }

  /** `w >> k`. */
  function Shr(w: nat, k: nat): (r: nat)
    ensures r <= w
  {
    if k == 0 then w else Shr(w / 2, k - 1)
  }

  /** `w & ((1 << k) - 1)`. */
  function Low(w: nat, k: nat): (r: nat)
    ensures r < Pow2(k)
    ensures r <= w
  {
    if k == 0 then 0 else 2 * Low(w / 2, k - 1) + w % 2
  }

  function ShiftLeft(w: Word, k: nat): Word {
    Wrap(Shl(w, k))
  }

  /** A number is its high part followed by its low part. */
  lemma {:induction false} SplitAt(w: nat, k: nat)
    ensures w == Shl(Shr(w, k), k) + Low(w, k)
  {
    if k != 0 {
      SplitAt(w / 2, k - 1);
    }
  }

  lemma {:induction false} ShrShr(w: nat, j: nat, k: nat)
    ensures Shr(Shr(w, j), k) == Shr(w, j + k)
  {
    if j != 0 {
      ShrShr(w / 2, j - 1, k);
    }
  }

  lemma {:induction false} ShlShl(w: nat, j: nat, k: nat)
    ensures Shl(Shl(w, j), k) == Shl(w, j + k)
  {
    if k != 0 {
      ShlShl(w, j, k - 1);
    }
  }

  lemma ShiftsByFour(w: nat)
    ensures Shr(w, 4) == w / 16 && Shl(w, 4) == w * 16
  {
    assert Shr(w, 4) == Shr(w / 2 / 2, 2);
    assert Shr(w / 2 / 2, 2) == Shr(w / 2 / 2 / 2, 1);
    assert Shr(w / 2 / 2 / 2, 1) == Shr(w / 2 / 2 / 2 / 2, 0);
    assert Shl(w, 1) == 2 * w;
    assert Shl(w, 3) == 2 * Shl(w, 2);
  }

  lemma ShlTwo(w: nat)
    ensures Shl(w, 2) == 4 * w
  {
    assert Shl(w, 1) == 2 * Shl(w, 0);
    assert Shl(w, 2) == 2 * Shl(w, 1);
  }

  /** Shifting by a whole number of bytes. */
  lemma ShiftsByBytes(w: nat)
    ensures Shr(w, 8) == w / 0x100 && Shr(w, 16) == w / 0x1_0000 && Shr(w, 24) == w / 0x100_0000
    ensures Shl(w, 8) == w * 0x100 && Shl(w, 16) == w * 0x1_0000 && Shl(w, 24) == w * 0x100_0000
  {
    ShiftsByByte(w);
    var r1, l1 := Shr(w, 8), Shl(w, 8);
    ShrShr(w, 8, 8);
    ShlShl(w, 8, 8);
    ShiftsByByte(r1);
    ShiftsByByte(l1);
    var r2, l2 := Shr(w, 16), Shl(w, 16);
    assert r2 == w / 0x1_0000;
    ShrShr(w, 16, 8);
    ShlShl(w, 16, 8);
    ShiftsByByte(r2);
    ShiftsByByte(l2);
  }

  lemma ShiftsByByte(w: nat)
    ensures Shr(w, 8) == w / 0x100 && Shl(w, 8) == w * 0x100
  {
    ShiftsByFour(w);
    ShrShr(w, 4, 4);
    ShiftsByFour(Shr(w, 4));
    ShlShl(w, 4, 4);
    ShiftsByFour(Shl(w, 4));
  }

  lemma {:induction false} HighBits(w: nat, k: nat)
    ensures Shr(w, k) == w / Pow2(k)
  {
    if k != 0 {
      HighBits(w / 2, k - 1);
      HalfStep(w, Pow2(k - 1));
    }
  }

  lemma {:induction false} LowBits(w: nat, k: nat)
    ensures Low(w, k) == w % Pow2(k)
  {
    if k != 0 {
      LowBits(w / 2, k - 1);
      HalfStep(w, Pow2(k - 1));
    }
  }

  /** Dividing by 2 and then by p is dividing by 2 * p. */
  lemma HalfStep(w: nat, p: nat)
    requires p >= 1
    ensures w / (2 * p) == w / 2 / p && w % (2 * p) == 2 * (w / 2 % p) + w % 2
  {
    var q := w / 2 / p;
    assert w / 2 == q * p + w / 2 % p;
    Remainder(w, 2 * p, q, 2 * (w / 2 % p) + w % 2);
  }

  lemma Remainder(x: nat, d: nat, q: nat, r: nat)
    requires r < d && x == q * d + r
    ensures x % d == r && x / d == q
  {
    var k := x / d - q;
    assert (x / d) * d + x % d == x;
    assert k * d == (x / d) * d - q * d;
    MultipleInRange(k, d);
  }

  lemma MultipleInRange(k: int, d: int)
    requires d >= 1
    requires -d < k * d < d
    ensures k == 0
  {
  }

  // ---------- Bitwise operators ----------

  datatype BitOp = And | Or | Xor

  function Bit(op: BitOp, x: nat, y: nat): (r: nat)
    requires x < 2 && y < 2
    ensures r < 2
  {
    match op
    case And => if x == 1 && y == 1 then 1 else 0
    case Or => if x == 1 || y == 1 then 1 else 0
    case Xor => if x == y then 0 else 1
  }

  /** `a op b`, bit by bit from the least significant one. */
  function Bitwise(op: BitOp, a: nat, b: nat): nat
    decreases a + b
  {
    if a == 0 && b == 0 then 0 else 2 * Bitwise(op, a / 2, b / 2) + Bit(op, a % 2, b % 2)
  }

  lemma {:induction false} BitwiseBound(op: BitOp, a: nat, b: nat, k: nat)
    requires a < Pow2(k) && b < Pow2(k)
    ensures Bitwise(op, a, b) < Pow2(k)
    decreases k
  {
    if k == 0 || (a == 0 && b == 0) {
    } else {
      BitwiseBound(op, a / 2, b / 2, k - 1);
    }
  }

  lemma {:induction false} Pow2Monotone(j: nat, k: nat)
    requires j <= k
    ensures Pow2(j) <= Pow2(k)
  {
    if j < k {
      Pow2Monotone(j, k - 1);
    }
  }

  lemma Pow2Grows(j: nat, k: nat)
    requires j < k
    ensures 2 * Pow2(j) <= Pow2(k)
  {
    Pow2Monotone(j + 1, k);
  }

  lemma Pow2Of32()
    ensures Pow2(32) == 0x1_0000_0000
  {
    Pow2Plus4(4);
    Pow2Plus4(8);
    Pow2Plus4(12);
    Pow2Plus4(16);
    Pow2Plus4(20);
    Pow2Plus4(24);
    Pow2Plus4(28);
    assert Pow2(4) == 16;
  }

  lemma Pow2Plus4(k: nat)
    ensures Pow2(k + 4) == 16 * Pow2(k)
  {
    assert Pow2(k + 3) == 2 * Pow2(k + 2);
    assert Pow2(k + 2) == 4 * Pow2(k);
  }

  function WordOp(op: BitOp, a: Word, b: Word): Word {
    Pow2Of32();
    BitwiseBound(op, a, b, 32);
    Bitwise(op, a, b)
  }

  function BitNot(a: Word): Word {
    0xffff_ffff - a
  }

  /** Bit k of a number. */
  predicate BitAt(x: nat, k: nat) {
    x / Pow2(k) % 2 == 1
  }

  /** The bitwise operators do to every bit what their names say. */
  lemma WordOpByBits(a: Word, b: Word, k: nat)
    ensures BitAt(WordOp(And, a, b), k) <==> BitAt(a, k) && BitAt(b, k)
    ensures BitAt(WordOp(Or, a, b), k) <==> BitAt(a, k) || BitAt(b, k)
    ensures BitAt(WordOp(Xor, a, b), k) <==> BitAt(a, k) != BitAt(b, k)
  {
    BitwiseByBits(And, a, b, k);
    BitwiseByBits(Or, a, b, k);
    BitwiseByBits(Xor, a, b, k);
  }

  lemma {:induction false} BitwiseByBits(op: BitOp, a: nat, b: nat, k: nat)
    ensures BitAt(Bitwise(op, a, b), k) <==>
      match op
      case And => BitAt(a, k) && BitAt(b, k)
      case Or => BitAt(a, k) || BitAt(b, k)
      case Xor => BitAt(a, k) != BitAt(b, k)
  {
    if k != 0 {
      BitwiseByBits(op, a / 2, b / 2, k - 1);
      BitOfHalf(a, k);
      BitOfHalf(b, k);
      BitOfHalf(Bitwise(op, a, b), k);
      assert Bitwise(op, a, b) / 2 == Bitwise(op, a / 2, b / 2);
    }
  }

  lemma BitOfHalf(x: nat, k: nat)
    requires k > 0
    ensures BitAt(x, k) == BitAt(x / 2, k - 1)
  {
    HalfStep(x, Pow2(k - 1));
  }

  /** The complement flips each of the 32 bits. */
  lemma BitNotByBits(a: Word, k: nat)
    requires k < 32
    ensures BitAt(BitNot(a), k) <==> !BitAt(a, k)
  {
    Pow2Of32();
    ComplementBits(a, k, 32);
  }

  lemma {:induction false} ComplementBits(a: nat, k: nat, n: nat)
    requires k < n && a < Pow2(n)
    ensures Pow2(n) - 1 - a >= 0 && (BitAt(Pow2(n) - 1 - a, k) <==> !BitAt(a, k))
  {
    hide BitAt;
    var c: nat := Pow2(n) - 1 - a;
    LowestBit(a);
    LowestBit(c);
    if k != 0 {
      ComplementBits(a / 2, k - 1, n - 1);
      BitOfHalf(a, k);
      BitOfHalf(c, k);
      HalfComplement(a, n);
    } else {
      HalfComplement(a, n);
    }
  }

  lemma LowestBit(x: nat)
    ensures BitAt(x, 0) <==> x % 2 == 1
  {
  }

  lemma HalfComplement(a: nat, n: nat)
    requires n > 0 && a < Pow2(n)
    ensures Pow2(n) - 1 - a >= 0
    ensures (Pow2(n) - 1 - a) / 2 == Pow2(n - 1) - 1 - a / 2 && (Pow2(n) - 1 - a) % 2 == 1 - a % 2
  {
  }

  /** Shifting left multiplies, shifting right divides. */
  lemma {:induction false} ShlMultiplies(w: nat, k: nat)
    ensures Shl(w, k) == w * Pow2(k)
  {
    if k != 0 {
      ShlMultiplies(w, k - 1);
      TwiceProduct(w, Pow2(k - 1));
    }
  }

  lemma TwiceProduct(w: nat, p: nat)
    ensures 2 * (w * p) == w * (2 * p)
  {
  }

  /** Numbers without a common bit are joined by OR and by XOR exactly as by addition:
      the first has its low k bits clear, the second uses only those. */
  lemma {:induction false} JoinDisjoint(op: BitOp, q: nat, low: nat, k: nat)
    requires op != And && low < Pow2(k)
    ensures Bitwise(op, Shl(q, k), low) == Shl(q, k) + low
    decreases k, q
  {
    if k != 0 {
      JoinDisjoint(op, q, low / 2, k - 1);
    } else if q != 0 {
      JoinDisjoint(op, q / 2, 0, 0);
    }
  }

  /** Masking with a mask whose low k bits are clear masks the number shifted right by k. */
  lemma {:induction false} AndShifted(a: nat, q: nat, k: nat)
    ensures Bitwise(And, a, Shl(q, k)) == Shl(Bitwise(And, Shr(a, k), q), k)
    decreases k
  {
    if k != 0 {
      AndShifted(a / 2, q, k - 1);
    }
  }
}
