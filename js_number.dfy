// The slice of JavaScript number semantics that the assembler and the
// emulator rely on: integers that never wrap, NaN (which also stands for
// `undefined`), the ToInt32 / ToUint32 / ToUint8 conversions and the 32-bit
// bitwise operators `&`, `|`, `^`, `<<` and `>>`.

module Wrappers {
  datatype Option<T> = None | Some(value: T)
  datatype Result<T, E> = Success(value: T) | Failure(error: E)
}

module JsNumber {

  /** A value a Uint8Array cell can hold. */
  type Byte = x: int | 0 <= x < 256

  /** A JavaScript number as the core uses it: every value it computes is an
      integer or NaN. `undefined` (reading past the end of a Uint8Array) is
      represented by NaN, because the core's operations treat the two values
      alike: arithmetic yields NaN, bitwise operators read 0, `===` fails and
      storing either into a Uint8Array writes 0. Used as an index they differ:
      a store at `undefined` adds an ordinary property, which `Write` in
      `CpuState` does not model. */
  datatype Num = Int(i: int) | NaN

  function Pow2(k: nat): (r: nat)
    ensures r >= 1
  {
    if k == 0 then 1 else 2 * Pow2(k - 1)
  }

  const TWO32: int := 0x1_0000_0000

  lemma {:induction false} Pow2Add(a: nat, b: nat)
    ensures Pow2(a + b) == Pow2(a) * Pow2(b)
  {
    if a > 0 {
      Pow2Add(a - 1, b);
    }
  }

  lemma Pow2Values()
    ensures Pow2(1) == 2 && Pow2(7) == 128 && Pow2(8) == 256
    ensures Pow2(31) == 0x8000_0000 && Pow2(32) == TWO32
  {
    Pow2Add(8, 8);
    Pow2Add(16, 8);
    Pow2Add(24, 7);
    Pow2Add(31, 1);
  }

  // ---- conversions (ECMAScript ToUint32, ToInt32, ToUint8) ----

  function ToUint32(n: Num): (r: nat)
    ensures r < TWO32
    ensures n.Int? ==> r % TWO32 == n.i % TWO32
  {
    match n
    case NaN => 0
    case Int(i) => i % TWO32
  }

  function Signed32(u: nat): int
    requires u < TWO32
  {
    if u < 0x8000_0000 then u else u - TWO32
  }

  function ToInt32(n: Num): (r: int)
    ensures -0x8000_0000 <= r < 0x8000_0000
    ensures (r - ToUint32(n)) % TWO32 == 0
  {
    Signed32(ToUint32(n))
  }

  /** The conversion a Uint8Array store applies. */
  function ToUint8(n: Num): (r: Byte)
    ensures n.Int? && 0 <= n.i < 256 ==> r == n.i
    ensures n.NaN? ==> r == 0
  {
    match n
    case NaN => 0
    case Int(i) => i % 256
  }

  // ---- arithmetic: JavaScript numbers do not wrap ----

  function Add(x: Num, y: Num): (r: Num)
    ensures r.Int? <==> x.Int? && y.Int?
  {
    if x.Int? && y.Int? then Int(x.i + y.i) else NaN
  }

  function Sub(x: Num, y: Num): (r: Num)
    ensures r.Int? <==> x.Int? && y.Int?
  {
    if x.Int? && y.Int? then Int(x.i - y.i) else NaN
  }

  /** `x >= 0`: false for NaN. */
  predicate NonNegative(x: Num) {
    x.Int? && x.i >= 0
  }

  /** ToNumber of a boolean, used where the source's `a & b === c` compares
      before it masks. */
  function FromBool(b: bool): Num {
    Int(if b then 1 else 0)
  }

  /** JavaScript truthiness of a number. */
  predicate Truthy(x: Num) {
    x.Int? && x.i != 0
  }

  // ---- bitwise operations on the w low bits of natural numbers ----

  function AndBits(a: nat, b: nat, w: nat): (r: nat)
    ensures r < Pow2(w)
  {
    if w == 0 then 0
    else 2 * AndBits(a / 2, b / 2, w - 1) + (if a % 2 == 1 && b % 2 == 1 then 1 else 0)
  }

  function OrBits(a: nat, b: nat, w: nat): (r: nat)
    ensures r < Pow2(w)
  {
    if w == 0 then 0
    else 2 * OrBits(a / 2, b / 2, w - 1) + (if a % 2 == 1 || b % 2 == 1 then 1 else 0)
  }

  function XorBits(a: nat, b: nat, w: nat): (r: nat)
    ensures r < Pow2(w)
  {
    if w == 0 then 0
    else 2 * XorBits(a / 2, b / 2, w - 1) + (if a % 2 != b % 2 then 1 else 0)
  }

  // ---- the JavaScript operators ----

  function BitAnd(x: Num, y: Num): (r: Num)
    ensures r.Int?
  {
    Pow2Values();
    Int(Signed32(AndBits(ToUint32(x), ToUint32(y), 32)))
  }

  function BitOr(x: Num, y: Num): (r: Num)
    ensures r.Int?
  {
    Pow2Values();
    Int(Signed32(OrBits(ToUint32(x), ToUint32(y), 32)))
  }

  function BitXor(x: Num, y: Num): (r: Num)
    ensures r.Int?
  {
    Pow2Values();
    Int(Signed32(XorBits(ToUint32(x), ToUint32(y), 32)))
  }

  /** `x << k` */
  function ShiftLeft(x: Num, k: nat): (r: Num)
    requires k < 32
    ensures r.Int?
  {
    Int(Signed32((ToUint32(x) * Pow2(k)) % TWO32))
  }

  /** `x >> k` (sign-propagating) */
  function ShiftRight(x: Num, k: nat): (r: Num)
    requires k < 32
    ensures r.Int?
  {
    Int(ToInt32(x) / Pow2(k))
  }

  // ---- facts about the bit operations ----

  lemma {:induction false} MulAtLeast(d: int, k: int)
    requires d > 0 && k >= 1
    ensures d * k >= d
  {
    if k > 1 {
      MulAtLeast(d, k - 1);
      assert d * k == d * (k - 1) + d;
    }
  }

  /** Euclidean division is determined by its defining equation. */
  lemma DivModUnique(a: int, d: int, q: int, r: int)
    requires d > 0 && a == d * q + r && 0 <= r < d
    ensures q == a / d && r == a % d
  {
    var k := q - a / d;
    assert a == d * (a / d) + a % d;
    assert d * k == a % d - r by {
      assert d * q == d * (a / d) + d * k;
    }
    if k >= 1 {
      MulAtLeast(d, k);
    } else if k <= -1 {
      MulAtLeast(d, -k);
    }
  }

  lemma DivDiv(a: nat, p: nat)
    requires p >= 1
    ensures a / 2 / p == a / (2 * p)
    ensures a % (2 * p) == 2 * ((a / 2) % p) + a % 2
  {
    var q, r := a / (2 * p), a % (2 * p);
    assert a == (2 * p) * q + r;
    var h := a / 2;
    assert a == 2 * h + a % 2;
    assert 2 * h + a % 2 == 2 * (p * q) + r by {
      assert (2 * p) * q == 2 * (p * q);
    }
    assert h == p * q + r / 2;
    DivModUnique(h, p, q, r / 2);
  }

  lemma {:induction false} Pow2Mono(k: nat, n: nat)
    requires k < n
    ensures 2 * Pow2(k) <= Pow2(n)
  {
    if k + 1 < n {
      Pow2Mono(k, n - 1);
    }
  }

  lemma {:induction false} AndZero(a: nat, w: nat)
    ensures AndBits(a, 0, w) == 0
  {
    if w > 0 {
      AndZero(a / 2, w - 1);
    }
  }

  lemma {:induction false} AndZeroLeft(b: nat, w: nat)
    ensures AndBits(0, b, w) == 0
  {
    if w > 0 {
      AndZeroLeft(b / 2, w - 1);
    }
  }

  lemma {:induction false} OrZero(b: nat, w: nat)
    requires b < Pow2(w)
    ensures OrBits(0, b, w) == b
  {
    if w > 0 {
      OrZero(b / 2, w - 1);
    }
  }

  /** `a & (2^k - 1)` keeps the k low bits. */
  lemma {:induction false} LowMask(a: nat, k: nat, w: nat)
    requires k <= w
    ensures AndBits(a, Pow2(k) - 1, w) == a % Pow2(k)
  {
    if k == 0 {
      AndZero(a, w);
    } else {
      LowMask(a / 2, k - 1, w - 1);
      LowMaskStep(a, k, w);
    }
  }

  /** One more mask bit keeps one more low bit. */
  lemma LowMaskStep(a: nat, k: nat, w: nat)
    requires 0 < k <= w && AndBits(a / 2, Pow2(k - 1) - 1, w - 1) == (a / 2) % Pow2(k - 1)
    ensures AndBits(a, Pow2(k) - 1, w) == a % Pow2(k)
  {
    var p := Pow2(k - 1);
    MaskHalf(k);
    DivDiv(a, p);
  }

  /** The low-bit mask 2^k - 1 halves to 2^(k-1) - 1 and is odd. */
  lemma MaskHalf(k: nat)
    requires k > 0
    ensures Pow2(k) == 2 * Pow2(k - 1)
    ensures (Pow2(k) - 1) / 2 == Pow2(k - 1) - 1 && (Pow2(k) - 1) % 2 == 1
  {
  }

  /** `a & 2^k` isolates bit k. */
  lemma {:induction false} SingleBit(a: nat, k: nat, w: nat)
    requires k < w
    ensures AndBits(a, Pow2(k), w) == if Bit(a, k) == 1 then Pow2(k) else 0
  {
    if k == 0 {
      AndZero(a / 2, w - 1);
    } else {
      var p := Pow2(k - 1);
      assert Pow2(k) == 2 * p;
      SingleBit(a / 2, k - 1, w - 1);
      assert AndBits(a, Pow2(k), w) == 2 * AndBits(a / 2, p, w - 1);
    }
  }

  /** `a | b` is `a + b` when a lives below bit k and b above it. */
  lemma {:induction false} OrDisjoint(a: nat, b: nat, k: nat, w: nat)
    requires k <= w && a < Pow2(k) && b % Pow2(k) == 0 && a + b < Pow2(w)
    ensures OrBits(a, b, w) == a + b
  {
    if k == 0 {
      OrZero(b, w);
    } else {
      DivDiv(b, Pow2(k - 1));
      DivDiv(a + b, Pow2(w - 1));
      OrDisjoint(a / 2, b / 2, k - 1, w - 1);
    }
  }

  lemma {:induction false} OrIdem(a: nat, w: nat)
    requires a < Pow2(w)
    ensures OrBits(a, 0, w) == a
  {
    if w > 0 {
      DivDiv(a, Pow2(w - 1));
      OrIdem(a / 2, w - 1);
    }
  }

  /** Operating on values below 2^k, bits from k upwards are all zero. */
  lemma {:induction false} AndNarrow(a: nat, b: nat, k: nat, w: nat)
    requires k <= w && a < Pow2(k) && b < Pow2(k)
    ensures AndBits(a, b, w) == AndBits(a, b, k)
    ensures OrBits(a, b, w) == OrBits(a, b, k)
    ensures XorBits(a, b, w) == XorBits(a, b, k)
  {
    if k == 0 {
      AndZero(0, w);
      OrZero(0, w);
      XorZero(w);
    } else {
      AndNarrow(a / 2, b / 2, k - 1, w - 1);
    }
  }

  lemma {:induction false} XorZero(w: nat)
    ensures XorBits(0, 0, w) == 0
  {
    if w > 0 {
      XorZero(w - 1);
    }
  }

  lemma {:induction false} AndAssoc(a: nat, b: nat, c: nat, w: nat)
    ensures AndBits(AndBits(a, b, w), c, w) == AndBits(a, AndBits(b, c, w), w)
  {
    if w > 0 {
      AndAssoc(a / 2, b / 2, c / 2, w - 1);
    }
  }

  /** A value already below the divisor is its own remainder. */
  lemma ModBelow(x: int, d: int)
    requires 0 <= x < d
    ensures x % d == x
  {
  }

  lemma ModOfMod(x: int, p: nat, q: nat)
    requires p >= 1 && q >= 1
    ensures (x % (p * q)) % p == x % p
  {
    var m := x % (p * q);
    var d := x / (p * q);
    assert x == (p * q) * d + m;
    assert (p * q) * d == p * (q * d);
    MulMod(q * d, m, p);
  }

  lemma MulMod(k: int, m: int, p: nat)
    requires p >= 1
    ensures (p * k + m) % p == m % p
  {
    var b := m / p;
    assert m == p * b + m % p;
    assert p * k + m == p * (k + b) + m % p;
    DivModUnique(p * k + m, p, k + b, m % p);
  }

  // ---- individual bits ----

  /** Bit j of a (0 or 1). */
  function Bit(a: nat, j: nat): (r: nat)
    ensures r < 2
  {
    if j == 0 then a % 2 else Bit(a / 2, j - 1)
  }

  lemma BitHalf(a: nat, j: nat)
    requires j > 0
    ensures Bit(a, j) == Bit(a / 2, j - 1)
  {
  }

  /** Bit j is the remainder of a divided by 2^j. */
  lemma {:induction false} BitDiv(a: nat, j: nat)
    ensures Bit(a, j) == a / Pow2(j) % 2
  {
    if j > 0 {
      BitDiv(a / 2, j - 1);
      DivDiv(a, Pow2(j - 1));
    }
  }

  lemma {:induction false} AndBitsBit(a: nat, b: nat, w: nat, j: nat)
    requires j < w
    ensures Bit(AndBits(a, b, w), j) == (if Bit(a, j) == 1 && Bit(b, j) == 1 then 1 else 0)
  {
    var r := AndBits(a, b, w);
    if j > 0 {
      BitHalf(r, j);
      BitHalf(a, j);
      BitHalf(b, j);
      AndBitsBit(a / 2, b / 2, w - 1, j - 1);
    }
  }

  lemma {:induction false} OrBitsBit(a: nat, b: nat, w: nat, j: nat)
    requires j < w
    ensures Bit(OrBits(a, b, w), j) == (if Bit(a, j) == 1 || Bit(b, j) == 1 then 1 else 0)
  {
    var r := OrBits(a, b, w);
    if j > 0 {
      BitHalf(r, j);
      BitHalf(a, j);
      BitHalf(b, j);
      OrBitsBit(a / 2, b / 2, w - 1, j - 1);
    }
  }

  lemma {:induction false} XorBitsBit(a: nat, b: nat, w: nat, j: nat)
    requires j < w
    ensures Bit(XorBits(a, b, w), j) == (if Bit(a, j) != Bit(b, j) then 1 else 0)
  {
    var r := XorBits(a, b, w);
    if j > 0 {
      BitHalf(r, j);
      BitHalf(a, j);
      BitHalf(b, j);
      XorBitsBit(a / 2, b / 2, w - 1, j - 1);
    }
  }

  /** 2^k has exactly bit k set. */
  lemma {:induction false} PowBit(k: nat, j: nat)
    ensures Bit(Pow2(k), j) == (if j == k then 1 else 0)
  {
    if j > 0 {
      BitHalf(Pow2(k), j);
      if k > 0 {
        PowBit(k - 1, j - 1);
      } else {
        assert Pow2(k) / 2 == 0;
        ZeroBit(j - 1);
      }
    }
  }

  lemma {:induction false} ZeroBit(j: nat)
    ensures Bit(0, j) == 0
  {
    if j > 0 {
      ZeroBit(j - 1);
    }
  }

  /** 2^n - 1 has its n low bits set. */
  lemma {:induction false} AllOnesBit(n: nat, j: nat)
    requires j < n
    ensures Bit(Pow2(n) - 1, j) == 1
  {
    if j > 0 {
      BitHalf(Pow2(n) - 1, j);
      AllOnesBit(n - 1, j - 1);
    }
  }

  /** 2^n - 1 - 2^k has its n low bits set except bit k. */
  lemma {:induction false} ComplementBit(n: nat, k: nat, j: nat)
    requires k < n && j < n
    ensures Pow2(k) < Pow2(n)
    ensures Bit(Pow2(n) - 1 - Pow2(k), j) == (if j == k then 0 else 1)
  {
    Pow2Mono(k, n);
    var m := Pow2(n) - 1 - Pow2(k);
    var h := Pow2(n - 1);
    assert Pow2(n) == 2 * h;
    if k > 0 {
      var g := Pow2(k - 1);
      assert Pow2(k) == 2 * g;
      assert m == 2 * (h - 1 - g) + 1;
      if j > 0 {
        BitHalf(m, j);
        ComplementBit(n - 1, k - 1, j - 1);
      }
    } else {
      assert m == 2 * (h - 1);
      if j > 0 {
        BitHalf(m, j);
        AllOnesBit(n - 1, j - 1);
      }
    }
  }

  // ---- consequences for the JavaScript operators ----

  lemma Pow2Below31(k: nat)
    requires k <= 31
    ensures Pow2(k) <= 0x8000_0000
  {
    Pow2Values();
    if k < 31 {
      Pow2Mono(k, 31);
    }
  }

  /** Reducing modulo 2^32 keeps the k low bits. */
  lemma Uint32LowBits(x: int, k: nat)
    requires k <= 32
    ensures ToUint32(Int(x)) % Pow2(k) == x % Pow2(k)
  {
    Pow2Values();
    Pow2Add(k, 32 - k);
    ModOfMod(x, Pow2(k), Pow2(32 - k));
  }

  /** `x & m` for a mask below 2^31 whose 32-bit conjunction is p. */
  lemma AndWithMask(x: int, m: nat, p: nat)
    requires m < 0x8000_0000
    requires AndBits(ToUint32(Int(x)), m, 32) == p && p < 0x8000_0000
    ensures BitAnd(Int(x), Int(m)) == Int(p)
  {
    SmallUint32(m);
    assert Signed32(p) == p;
  }

  lemma LowMaskBelow31(u: nat, k: nat)
    requires k <= 31 && u < TWO32
    ensures AndBits(u, Pow2(k) - 1, 32) == u % Pow2(k) < 0x8000_0000
  {
    Pow2Below31(k);
    LowMask(u, k, 32);
  }

  /** `x & (2^k - 1)` is x modulo 2^k, also for negative x. */
  lemma MaskLow(x: int, k: nat)
    requires k <= 31
    ensures BitAnd(Int(x), Int(Pow2(k) - 1)) == Int(x % Pow2(k))
  {
    Pow2Below31(k);
    LowMaskBelow31(ToUint32(Int(x)), k);
    Uint32LowBits(x, k);
    AndWithMask(x, Pow2(k) - 1, x % Pow2(k));
  }

  lemma MaskBelow(x: int, k: nat, m: nat)
    requires k <= 31 && m + 1 == Pow2(k)
    ensures BitAnd(Int(x), Int(m)) == Int(x % (m + 1))
  {
    MaskLow(x, k);
  }

  /** `x & 0xFF` is x modulo 256. */
  lemma MaskByte(x: int)
    ensures BitAnd(Int(x), Int(0xFF)) == Int(x % 256)
  {
    Pow2Values();
    MaskBelow(x, 8, 0xFF);
  }

  /** `x & 0x7F` is x modulo 128. */
  lemma MaskSeven(x: int)
    ensures BitAnd(Int(x), Int(0x7F)) == Int(x % 128)
  {
    Pow2Values();
    MaskBelow(x, 7, 0x7F);
  }

  /** `x & 1` is x modulo 2. */
  lemma MaskOne(x: int)
    ensures BitAnd(Int(x), Int(1)) == Int(x % 2)
  {
    Pow2Values();
    MaskBelow(x, 1, 1);
  }

  /** For a byte x, `x & 2^k` tests bit k. */
  lemma MaskBit(x: Byte, k: nat)
    requires k < 8
    ensures Pow2(k) < 256
    ensures BitAnd(Int(x), Int(Pow2(k))) == Int((x / Pow2(k) % 2) * Pow2(k))
  {
    Pow2Values();
    Pow2Mono(k, 8);
    ByteOps(x, Pow2(k));
    SingleBit(x, k, 8);
    BitDiv(x, k);
    BitTimes(x / Pow2(k) % 2, Pow2(k));
  }

  lemma BitTimes(b: nat, p: nat)
    requires b < 2
    ensures b * p == if b == 1 then p else 0
  {
  }

  /** NaN and `undefined` read as 0 under `&`. */
  lemma AndNaN(y: Num)
    ensures BitAnd(NaN, y) == Int(0)
  {
    AndZeroLeft(ToUint32(y), 32);
  }

  /** The bitwise operators only see ToUint32 of their operands. */
  lemma Uint32View(x: Num)
    ensures ToUint32(Int(ToUint32(x))) == ToUint32(x)
    ensures forall y :: BitOr(x, y) == BitOr(Int(ToUint32(x)), y)
    ensures forall y :: BitAnd(x, y) == BitAnd(Int(ToUint32(x)), y)
    ensures forall k :: 0 <= k < 32 ==> ShiftLeft(x, k) == ShiftLeft(Int(ToUint32(x)), k)
  {
  }

  /** Two non-overlapping non-negative fields combine by addition. */
  lemma OrFields(a: nat, b: nat, k: nat)
    requires k <= 31 && a < Pow2(k) && b % Pow2(k) == 0 && a + b < 0x8000_0000
    ensures BitOr(Int(a), Int(b)) == Int(a + b)
    ensures BitOr(Int(b), Int(a)) == Int(a + b)
  {
    OrFieldsInOrder(a, b, k);
    BitOrCommutes(Int(a), Int(b));
  }

  lemma OrFieldsInOrder(a: nat, b: nat, k: nat)
    requires k <= 31 && a < Pow2(k) && b % Pow2(k) == 0 && a + b < 0x8000_0000
    ensures BitOr(Int(a), Int(b)) == Int(a + b)
  {
    SmallUint32(a);
    SmallUint32(b);
    OrBelow(a, b, k);
  }

  lemma OrBelow(a: nat, b: nat, k: nat)
    requires k <= 31 && a < Pow2(k) && b % Pow2(k) == 0 && a + b < 0x8000_0000
    ensures OrBits(a, b, 32) == a + b && Signed32(a + b) == a + b
  {
    Pow2Values();
    OrDisjoint(a, b, k, 32);
  }

  lemma BitOrCommutes(x: Num, y: Num)
    ensures BitOr(x, y) == BitOr(y, x)
  {
    OrBitsCommute(ToUint32(x), ToUint32(y), 32);
  }

  lemma {:induction false} OrBitsCommute(a: nat, b: nat, w: nat)
    ensures OrBits(a, b, w) == OrBits(b, a, w)
  {
    if w > 0 {
      OrBitsCommute(a / 2, b / 2, w - 1);
    }
  }

  /** Exclusive or with the same value twice gives the low bits back. */
  lemma {:induction false} XorBitsTwice(a: nat, b: nat, w: nat)
    ensures XorBits(XorBits(a, b, w), b, w) == a % Pow2(w)
  {
    if w > 0 {
      XorBitsTwice(a / 2, b / 2, w - 1);
      DivDiv(a, Pow2(w - 1));
    }
  }

  /** `x << k` for a small non-negative x is multiplication. */
  lemma ShiftLeftSmall(x: nat, k: nat)
    requires k < 32 && x * Pow2(k) < 0x8000_0000
    ensures ShiftLeft(Int(x), k) == Int(x * Pow2(k))
  {
    var p := x * Pow2(k);
    assert x <= p by {
      if x > 0 {
        MulAtLeast(x, Pow2(k));
      }
    }
    assert ToUint32(Int(x)) == x;
    assert p % TWO32 == p;
  }

  /** `x >> k` for a non-negative x below 2^31 is division. */
  lemma ShiftRightSmall(x: nat, k: nat)
    requires k < 32 && x < 0x8000_0000
    ensures ShiftRight(Int(x), k) == Int(x / Pow2(k))
  {
    SmallUint32(x);
    assert ToInt32(Int(x)) == x;
  }

  /** On bytes the 32-bit operators stay within a byte. */
  lemma ByteOps(a: Byte, b: Byte)
    ensures BitAnd(Int(a), Int(b)) == Int(AndBits(a, b, 8))
    ensures BitOr(Int(a), Int(b)) == Int(OrBits(a, b, 8))
    ensures BitXor(Int(a), Int(b)) == Int(XorBits(a, b, 8))
  {
    assert ToUint32(Int(a)) == a;
    assert ToUint32(Int(b)) == b;
    AndNarrow(a, b, 8, 32);
    assert AndBits(a, b, 8) < 256 && OrBits(a, b, 8) < 256 && XorBits(a, b, 8) < 256;
  }

  // ---- the operators bit by bit ----

  lemma Uint32OfSigned32(u: nat)
    requires u < TWO32
    ensures ToUint32(Int(Signed32(u))) == u
  {
  }

  lemma {:induction false} AndBitsAtMost(a: nat, b: nat, w: nat)
    ensures AndBits(a, b, w) <= b
  {
    if w > 0 {
      AndBitsAtMost(a / 2, b / 2, w - 1);
    }
  }

  /** Bit j of `x & y` is set iff it is set in both. */
  lemma AndBit(x: Num, y: Num, j: nat)
    requires j < 32
    ensures Bit(ToUint32(BitAnd(x, y)), j)
         == (if Bit(ToUint32(x), j) == 1 && Bit(ToUint32(y), j) == 1 then 1 else 0)
  {
    Pow2Values();
    Uint32OfSigned32(AndBits(ToUint32(x), ToUint32(y), 32));
    AndBitsBit(ToUint32(x), ToUint32(y), 32, j);
  }

  /** Bit j of `x | y` is set iff it is set in either. */
  lemma OrBit(x: Num, y: Num, j: nat)
    requires j < 32
    ensures Bit(ToUint32(BitOr(x, y)), j)
         == (if Bit(ToUint32(x), j) == 1 || Bit(ToUint32(y), j) == 1 then 1 else 0)
  {
    Pow2Values();
    Uint32OfSigned32(OrBits(ToUint32(x), ToUint32(y), 32));
    OrBitsBit(ToUint32(x), ToUint32(y), 32, j);
  }

  /** `x & c` for a non-negative c below 2^31 lies in 0..c. */
  lemma AndRange(x: Num, c: nat)
    requires c < 0x8000_0000
    ensures BitAnd(x, Int(c)).i <= c && BitAnd(x, Int(c)).i >= 0
  {
    SmallUint32(c);
    AndBelow(ToUint32(x), c);
  }

  /** A number in 0..2^31 - 1 converts to itself. */
  lemma SmallUint32(c: nat)
    requires c < 0x8000_0000
    ensures ToUint32(Int(c)) == c
  {
  }

  lemma AndBelow(u: nat, c: nat)
    requires c < 0x8000_0000
    ensures AndBits(u, c, 32) <= c && Signed32(AndBits(u, c, 32)) == AndBits(u, c, 32)
  {
    AndBitsAtMost(u, c, 32);
  }

  /** `x | b` for x a byte or NaN and b a byte is a byte. */
  lemma OrRange(x: Num, b: Byte)
    requires x.NaN? || 0 <= x.i < 256
    ensures 0 <= BitOr(x, Int(b)).i < 256
  {
    var u: Byte := ToUint32(x);
    Uint32View(x);
    assert BitOr(x, Int(b)) == BitOr(Int(u), Int(b));
    ByteOps(u, b);
  }

  /** The bits of a single-bit mask 2^k and of its byte complement. */
  lemma ByteMaskBits(k: nat, j: nat)
    requires k < 8 && j < 8
    ensures Pow2(k) < 256
    ensures Bit(Pow2(k), j) == (if j == k then 1 else 0)
    ensures Bit(255 - Pow2(k), j) == (if j == k then 0 else 1)
  {
    Pow2Values();
    PowBit(k, j);
    ComplementBit(8, k, j);
  }
}
