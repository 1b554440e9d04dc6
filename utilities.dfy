/**
 * Helpers shared by the renderer (utilities.h): the floor quad, the instance
 * buffer constants, and the `aligned` rounding of a device offset.
 *
 * `aligned` is computed with 64-bit unsigned bit operations. Here `&` and `~`
 * on uint64 are modelled on naturals (BitAnd, BitNot64) so that its results can
 * be related to ordinary rounding arithmetic.
 */
module Utilities {
  import opened Vulkan

  /** The floor quad: 4 vertices of 3 floats each, Y up, front face clockwise. */
  const QuadVert: seq<real> := [-1.0, -1.0, 0.0,
                                -1.0,  1.0, 0.0,
                                 1.0, -1.0, 0.0,
                                 1.0,  1.0, 0.0]

  const FLOAT_SIZE: nat := 4

  const MAX_INSTANCES: nat := 16384

  /** instTranslate (vec3) followed by instDiffuseAdjust (vec3). */
  const PER_INSTANCE_DATA_SIZE: nat := 6 * FLOAT_SIZE

  /** sizeof(quadVert). */
  function QuadVertByteSize(): (n: nat)
    ensures n == 48
  {
    |QuadVert| * FLOAT_SIZE
  }

  /** The floor pipeline's vertex binding: position only, 3 floats. */
  const FLOOR_VERTEX_STRIDE: nat := 3 * FLOAT_SIZE

  /** The floor is drawn as a 4-vertex triangle strip. */
  const FLOOR_VERTEX_COUNT: nat := 4

  // ---------------------------------------------------------------------------
  // Bit operations on unsigned integers

  function Pow2(n: nat): (p: nat)
    ensures p >= 1
  {
    if n == 0 then 1 else 2 * Pow2(n - 1)
  }

  predicate IsPowerOfTwo(a: nat)
    decreases a
  {
    a == 1 || (a >= 2 && a % 2 == 0 && IsPowerOfTwo(a / 2))
  }

  /** Bitwise AND of two naturals, bit by bit from the least significant one. */
  function BitAnd(x: nat, y: nat): (r: nat)
    ensures r <= x && r <= y
    decreases x
  {
    if x == 0 || y == 0 then 0
    else 2 * BitAnd(x / 2, y / 2) + (if x % 2 == 1 && y % 2 == 1 then 1 else 0)
  }

  /** `~x` on uint64. */
  function BitNot64(x: DeviceSize): DeviceSize
  {
    U64_LIMIT - 1 - x
  }

  /**
   * utilities.h `aligned`: `(v + byteAlign - 1) & ~(byteAlign - 1)`, every
   * operation on uint64.
   */
  function Aligned(v: DeviceSize, byteAlign: DeviceSize): DeviceSize
  {
    BitAnd(Wrap64(v + byteAlign - 1), BitNot64(Wrap64(byteAlign - 1)))
  }

  /** The least multiple of a that is at least v: the intended meaning of Aligned. */
  function RoundUp(v: nat, a: nat): (r: nat)
    requires a >= 1
    ensures r % a == 0 && v <= r < v + a
  {
    var y := v + a - 1;
    DivModUnique(y - y % a, a, y / a, 0);
    RoundDown(y, a)
  }

  /** The greatest multiple of a that is at most y. */
  function RoundDown(y: nat, a: nat): nat
    requires a >= 1
  {
    y - y % a
  }

  // ---------------------------------------------------------------------------
  // Arithmetic helpers

  /** Euclidean division is unique. */
  lemma DivModUnique(y: int, a: int, q: int, r: int)
    requires a > 0 && y == q * a + r && 0 <= r < a
    ensures y / a == q && y % a == r
  {
    var q', r' := y / a, y % a;
    assert y == q' * a + r';
    if q' > q {
      assert (q' - q) * a == r - r';
      MulAtLeast(a, q' - q);
    } else if q' < q {
      assert (q - q') * a == r' - r;
      MulAtLeast(a, q - q');
    }
  }

  lemma MulAtLeast(a: int, k: int)
    requires a > 0 && k >= 1
    ensures k * a >= a
  {
  }

  lemma MulMonotone(x: int, y: int, a: int)
    requires 0 <= a && x <= y
    ensures x * a <= y * a
  {
    assert y * a - x * a == (y - x) * a;
  }

  // ---------------------------------------------------------------------------
  // Lemmas about powers of two and masks

  lemma {:induction false} Pow2Add(m: nat, n: nat)
    ensures Pow2(m + n) == Pow2(m) * Pow2(n)
  {
    if m > 0 {
      Pow2Add(m - 1, n);
      assert Pow2(m + n) == 2 * Pow2(m - 1 + n);
    }
  }

  lemma Pow2Of64()
    ensures Pow2(64) == U64_LIMIT
  {
    assert Pow2(2) == 4;
    Pow2Add(2, 2);
    Pow2Add(4, 4);
    Pow2Add(8, 8);
    assert Pow2(16) == 0x1_0000;
    Pow2Add(16, 16);
    assert Pow2(32) == 0x1_0000_0000;
    Pow2Add(32, 32);
  }

  /** Halving a power of two a >= 2 that is at most 2^n gives one at most 2^(n-1). */
  lemma PowerOfTwoHalf(a: nat, n: nat)
    requires IsPowerOfTwo(a) && a >= 2 && a <= Pow2(n)
    ensures n >= 1 && a / 2 <= Pow2(n - 1) && IsPowerOfTwo(a / 2) && a == 2 * (a / 2)
  {
  }

  /** A power of two divides every power of two that is at least as large. */
  lemma {:induction false} PowerOfTwoDividesPow2(a: nat, n: nat)
    requires IsPowerOfTwo(a) && a <= Pow2(n)
    ensures Pow2(n) % a == 0
    decreases a
  {
    if a == 1 {
      DivModUnique(Pow2(n), 1, Pow2(n), 0);
    } else {
      PowerOfTwoHalf(a, n);
      var h := a / 2;
      PowerOfTwoDividesPow2(h, n - 1);
      var q := Pow2(n - 1) / h;
      assert Pow2(n - 1) == q * h by {
        assert Pow2(n - 1) == (Pow2(n - 1) / h) * h + Pow2(n - 1) % h;
      }
      assert Pow2(n) == q * a by {
        assert Pow2(n) == 2 * (q * h);
        assert q * a == q * (2 * h) == 2 * (q * h);
      }
      DivModUnique(Pow2(n), a, q, 0);
    }
  }

  /** Masking with 2^n - 1 keeps every bit of a value below 2^n. */
  lemma {:induction false} BitAndAllOnes(y: nat, n: nat)
    requires y < Pow2(n)
    ensures BitAnd(y, Pow2(n) - 1) == y
  {
    if y != 0 {
      assert n >= 1;
      assert (Pow2(n) - 1) / 2 == Pow2(n - 1) - 1;
      assert (Pow2(n) - 1) % 2 == 1;
      BitAndAllOnes(y / 2, n - 1);
    }
  }

  /** Remainder by an even modulus, expressed through halving. */
  lemma ModByEven(y: nat, a: nat)
    requires a >= 2 && a % 2 == 0
    ensures y % a == 2 * ((y / 2) % (a / 2)) + y % 2
  {
    var h, q, b := a / 2, y / 2, y % 2;
    var t, r := q / h, q % h;
    assert q == t * h + r;
    assert y == t * a + (2 * r + b) by {
      assert y == 2 * q + b;
      assert t * a == t * (2 * h) == 2 * (t * h);
    }
    DivModUnique(y, a, t, 2 * r + b);
  }

  /**
   * For a power of two a <= 2^n, clearing the low bits of y < 2^n with the
   * mask 2^n - a rounds y down to a multiple of a.
   */
  lemma {:induction false} BitAndHighMask(y: nat, n: nat, a: nat)
    requires y < Pow2(n) && IsPowerOfTwo(a) && a <= Pow2(n)
    ensures BitAnd(y, Pow2(n) - a) == y - y % a
    decreases a
  {
    if a == 1 {
      BitAndAllOnes(y, n);
      DivModUnique(y, 1, y, 0);
    } else {
      PowerOfTwoHalf(a, n);
      var m := Pow2(n) - a;
      if y == 0 {
        DivModUnique(0, a, 0, 0);
      } else if m == 0 {
        DivModUnique(y, a, 0, y);
      } else {
        assert m % 2 == 0 && m / 2 == Pow2(n - 1) - a / 2;
        BitAndHighMask(y / 2, n - 1, a / 2);
        ModByEven(y, a);
      }
    }
  }

  // ---------------------------------------------------------------------------
  // Lemmas about Aligned

  /** For a power-of-two alignment, Aligned rounds (v + a - 1), taken mod 2^64, down to a multiple of a. */
  lemma AlignedRoundsDown(v: DeviceSize, a: DeviceSize)
    requires IsPowerOfTwo(a)
    ensures Aligned(v, a) == RoundDown(Wrap64(v + a - 1), a)
  {
    var y, m := Wrap64(v + a - 1), BitNot64(Wrap64(a - 1));
    assert m == U64_LIMIT - a by {
      assert a >= 1;
      WrapSmall(a - 1);
    }
    BitAndHighMask64(y, a);
  }

  /** BitAndHighMask for uint64 values. */
  lemma BitAndHighMask64(y: DeviceSize, a: DeviceSize)
    requires IsPowerOfTwo(a)
    ensures BitAnd(y, U64_LIMIT - a) == RoundDown(y, a)
  {
    Pow2Of64();
    BitAndHighMask(y, 64, a);
  }

  /** For a power-of-two alignment, Aligned(v, a) is a multiple of a, even if v + a - 1 wraps around. */
  lemma AlignedIsMultiple(v: DeviceSize, a: DeviceSize)
    requires IsPowerOfTwo(a)
    ensures Aligned(v, a) % a == 0
  {
    var y: nat := Wrap64(v + a - 1);
    var r: nat := Aligned(v, a);
    AlignedRoundsDown(v, a);
    RoundedDownIsMultiple(y, a);
  }

  lemma RoundedDownIsMultiple(y: nat, a: nat)
    requires a >= 1
    ensures (y - y % a) % a == 0
  {
    DivModUnique(y - y % a, a, y / a, 0);
  }

  /**
   * Without 64-bit overflow, Aligned(v, a) is the least multiple of a that is
   * at least v; in particular v <= Aligned(v, a) < v + a.
   */
  lemma AlignedIsRoundUp(v: DeviceSize, a: DeviceSize)
    requires IsPowerOfTwo(a)
    requires v + a - 1 < U64_LIMIT
    ensures Aligned(v, a) == RoundUp(v, a)
  {
    AlignedWithoutWrap(v, a);
  }

  lemma AlignedWithoutWrap(v: DeviceSize, a: DeviceSize)
    requires IsPowerOfTwo(a)
    requires v + a - 1 < U64_LIMIT
    ensures Aligned(v, a) == RoundDown(v + a - 1, a)
  {
    WrapSmall(v + a - 1);
    AlignedRoundsDown(v, a);
  }

  /** Wrap64 leaves a value that fits in 64 bits unchanged. */
  lemma WrapSmall(x: int)
    requires 0 <= x < U64_LIMIT
    ensures Wrap64(x) == x
  {
    DivModUnique(x, U64_LIMIT, 0, x);
  }

  /** The bounds of AlignedIsRoundUp, stated without RoundUp: the least multiple of a at or above v. */
  lemma AlignedBounds(v: DeviceSize, a: DeviceSize)
    requires IsPowerOfTwo(a)
    requires v + a - 1 < U64_LIMIT
    ensures v <= Aligned(v, a) < v + a
    ensures Aligned(v, a) % a == 0
  {
    AlignedIsRoundUp(v, a);
    var r := RoundUp(v, a);
    assert v <= r < v + a && r % a == 0;
  }

  /** An offset that is already aligned is left unchanged, whatever its size. */
  lemma AlignedOfMultiple(v: DeviceSize, a: DeviceSize)
    requires IsPowerOfTwo(a) && v % a == 0
    ensures Aligned(v, a) == v
  {
    Pow2Of64();
    PowerOfTwoDividesPow2(a, 64);
    MultipleBelowMultiple(v, U64_LIMIT, a);
    AlignedIsRoundUp(v, a);
    RoundUpOfMultiple(v, a);
  }

  /** Two multiples of a differ by at least a. */
  lemma MultipleBelowMultiple(v: nat, l: nat, a: nat)
    requires a >= 1 && v % a == 0 && l % a == 0 && v < l
    ensures v + a <= l
  {
    var q, p := v / a, l / a;
    assert v == q * a && l == p * a;
    assert q < p by {
      if q >= p {
        MulMonotone(p, q, a);
      }
    }
    assert q * a <= (p - 1) * a == l - a by {
      MulMonotone(q, p - 1, a);
    }
  }

  lemma RoundUpOfMultiple(v: nat, a: nat)
    requires a >= 1 && v % a == 0
    ensures RoundUp(v, a) == v
  {
    DivModUnique(v + a - 1, a, v / a, a - 1) by {
      assert v == (v / a) * a;
    }
  }

  /** RoundUp(v, a) is the only multiple of a in [v, v + a). */
  lemma RoundUpUnique(v: nat, a: nat, r: nat)
    requires a >= 1 && r % a == 0 && v <= r < v + a
    ensures RoundUp(v, a) == r
  {
    var u := RoundUp(v, a);
    if u < r {
      MultipleBelowMultiple(u, r, a);
    } else if r < u {
      MultipleBelowMultiple(r, u, a);
    }
  }

  /** Aligning twice is aligning once. */
  lemma AlignedIdempotent(v: DeviceSize, a: DeviceSize)
    requires IsPowerOfTwo(a)
    ensures Aligned(Aligned(v, a), a) == Aligned(v, a)
  {
    AlignedIsMultiple(v, a);
    AlignedOfMultiple(Aligned(v, a), a);
  }

  // Worked example: concrete values for the constants of utilities.h.

  /** The instance buffer holds MAX_INSTANCES records of 24 bytes: 393216 bytes. */
  lemma InstanceCapacity()
    ensures PER_INSTANCE_DATA_SIZE == 24
    ensures MAX_INSTANCES * PER_INSTANCE_DATA_SIZE == 393216
  {
  }

  /** The floor quad's 48 bytes are exactly 4 vertices at the floor binding's 12-byte stride. */
  lemma QuadVertMatchesFloorDraw()
    ensures QuadVertByteSize() == FLOOR_VERTEX_COUNT * FLOOR_VERTEX_STRIDE
    ensures |QuadVert| == FLOOR_VERTEX_COUNT * 3
  {
  }
}
