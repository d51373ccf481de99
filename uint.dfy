/**
 * Fixed-width unsigned integer cells (uint.ts). The source has one subclass per
 * width and overflow policy; here one class carries the width and the policy
 * as data. A cell's value is a number that every operation re-normalises:
 * floor it, then clamp it into [0, 2^w - 1] or wrap it into that range by
 * repeated subtraction or addition of 2^w.
 */
module Uint {
  import opened Outcomes
  import opened Buffers

  function Pow2(n: nat): (r: nat)
    ensures r >= 1
  {
    if n == 0 then 1 else 2 * Pow2(n - 1)
  }

  /** maxInt(bitNum): the capacity 2^bitNum - 1 of a cell of that width. */
  function MaxInt(bitNum: nat): (r: nat)
    ensures r < Pow2(bitNum) <= r + 1
  {
    Pow2(bitNum) - 1
  }

  lemma {:induction false} Pow2Add(a: nat, b: nat)
    ensures Pow2(a + b) == Pow2(a) * Pow2(b)
  {
    if a > 0 {
      Pow2Add(a - 1, b);
    }
  }

  /** Pow2Add with the two factors already known. */
  lemma Pow2Of(a: nat, b: nat, pa: nat, pb: nat)
    requires Pow2(a) == pa && Pow2(b) == pb
    ensures Pow2(a + b) == pa * pb
  {
    Pow2Add(a, b);
  }

  /** The capacities of the widths the source defines. */
  lemma Capacities()
    ensures MaxInt(4) == 15 && MaxInt(8) == 255 && MaxInt(12) == 4095
    ensures MaxInt(16) == 65535 && MaxInt(24) == 0xFF_FFFF && MaxInt(32) == 0xFFFF_FFFF
    ensures MaxInt(64) == 0xFFFF_FFFF_FFFF_FFFF
  {
    assert Pow2(4) == 16 by {
      assert Pow2(1) == 2 && Pow2(2) == 4 && Pow2(3) == 8;
    }
    Pow2Of(4, 4, 16, 16);
    Pow2Of(8, 4, 0x100, 16);
    Pow2Of(8, 8, 0x100, 0x100);
    Pow2Of(16, 8, 0x1_0000, 0x100);
    Pow2Of(16, 16, 0x1_0000, 0x1_0000);
    Pow2Of(32, 32, 0x1_0000_0000, 0x1_0000_0000);
  }

  /**
   * The width/policy pairs the source defines: Uint4 ... Uint64 in a wrapping
   * and a clamping variant each, and Uint12 which only wraps.
   */
  predicate IsKind(width: nat, clamp: bool)
  {
    width in {4, 8, 12, 16, 24, 32, 64} && !(width == 12 && clamp)
  }

  function Min(a: int, b: int): int { if a <= b then a else b }
  function Max(a: int, b: int): int { if a >= b then a else b }

  /**
   * The closed form of what `fix` computes for capacity `cap`: the floor of x,
   * saturated into [0, cap] under the clamp policy, reduced modulo cap + 1
   * under the wrap policy.
   */
  function Normalize(cap: nat, clamp: bool, x: real): (r: int)
    ensures 0 <= r <= cap
    ensures 0 <= x.Floor <= cap ==> r == x.Floor
    ensures clamp && x.Floor > cap ==> r == cap
    ensures clamp && x.Floor < 0 ==> r == 0
    ensures !clamp ==> (x.Floor - r) % (cap + 1) == 0
  {
    if clamp then Max(0, Min(x.Floor, cap))
    else
      var m := cap + 1;
      var v := x.Floor;
      ModUnique(v - v % m, m, v / m, 0);
      if 0 <= v <= cap then ModOfInRange(v, m); v % m
      else v % m
  }

  /** Every normalised value is an integer in [0, cap]. */
  lemma NormalizeInRange(cap: nat, clamp: bool, x: real)
    ensures 0 <= Normalize(cap, clamp, x) <= cap
  {
  }

  /** An in-range integer is a fixed point of normalisation, so normalising twice is normalising once. */
  lemma NormalizeIdempotent(cap: nat, clamp: bool, x: real)
    ensures Normalize(cap, clamp, Normalize(cap, clamp, x) as real) == Normalize(cap, clamp, x)
  {
    var v := Normalize(cap, clamp, x);
    assert (v as real).Floor == v;
    if !clamp {
      ModOfInRange(v, cap + 1);
    }
  }

  lemma ModOfInRange(v: int, m: int)
    requires 0 <= v < m
    ensures v % m == v
  {
  }

  /** The number an operand stands for: a plain number, or another cell's current value. */
  datatype Operand = Num(n: real) | Cell(u: UintCell)

  function ValueOf(num: Operand): real
    reads if num.Cell? then {num.u} else {}
  {
    match num
    case Num(n) => n
    case Cell(u) => u.numValue
  }

  class UintCell {
    var numValue: real
    const width: nat
    const clamp: bool
    const numCap: nat

    /** The cell's invariant: its value is an integer in [0, numCap]. */
    ghost predicate Valid()
      reads this
    {
      IsKind(width, clamp) && numCap == MaxInt(width) &&
      numValue == numValue.Floor as real && 0 <= numValue.Floor <= numCap
    }

    /** The value as an integer (exact for a valid cell). */
    function Int(): int
      reads this
    {
      numValue.Floor
    }

    /** `new UintN()`: a cell of the given kind holding 0. */
    constructor (width: nat, clamp: bool)
      requires IsKind(width, clamp)
      ensures Valid() && this.width == width && this.clamp == clamp && numValue == 0.0
    {
      this.width := width;
      this.clamp := clamp;
      this.numCap := MaxInt(width);
      this.numValue := 0.0;
    }

    /** toNum(): the current value. */
    function ToNum(): (r: real)
      reads this
      requires Valid()
      ensures r == Int() as real && 0.0 <= r <= numCap as real
    {
      numValue
    }

    /** The private `fix`: floor, then clamp, or wrap by repeated subtraction or addition of numCap + 1. */
    method Fix()
      requires IsKind(width, clamp) && numCap == MaxInt(width)
      modifies this`numValue
      ensures Valid()
      ensures numValue == Normalize(numCap, clamp, old(numValue)) as real
    {
      ghost var v := numValue.Floor;
      ghost var target := Normalize(numCap, clamp, numValue);
      assert clamp ==> target == Max(0, Min(v, numCap));
      assert !clamp ==> target == v % (numCap + 1);
      if numValue.Floor as real != numValue {
        numValue := numValue.Floor as real;
      }
      assert numValue == v as real;
      if numValue > numCap as real {
        if clamp {
          numValue := numCap as real;
        } else {
          WrapDown();
        }
      } else if numValue < 0.0 {
        if clamp {
          numValue := 0.0;
        } else {
          WrapUp();
        }
      } else if !clamp {
        ModOfInRange(v, numCap + 1);
      }
      assert numValue == target as real;
    }

    /** fix's loop for a whole value above the cap: subtract numCap + 1 until it is in range. */
    method WrapDown()
      requires numValue == numValue.Floor as real && numValue > numCap as real
      modifies this`numValue
      ensures numValue == (old(numValue).Floor % (numCap + 1)) as real
      ensures 0 <= numValue.Floor <= numCap && numValue == numValue.Floor as real
    {
      ghost var v := numValue.Floor;
      var m := numCap + 1;
      ghost var k := v;
      while numValue > numCap as real
        invariant numValue == k as real && k >= 0
        invariant k % m == v % m
        decreases k
      {
        numValue := numValue - m as real;
        ModShift(k - m, m);
        k := k - m;
      }
      ModOfInRange(k, m);
    }

    /** fix's loop for a negative whole value: add numCap + 1 until it is non-negative. */
    method WrapUp()
      requires numValue == numValue.Floor as real && numValue < 0.0
      modifies this`numValue
      ensures numValue == (old(numValue).Floor % (numCap + 1)) as real
      ensures 0 <= numValue.Floor <= numCap && numValue == numValue.Floor as real
    {
      ghost var v := numValue.Floor;
      var m := numCap + 1;
      ghost var k := v;
      while numValue < 0.0
        invariant numValue == k as real && k <= numCap
        invariant k % m == v % m
        decreases -k
      {
        numValue := numValue + m as real;
        ModShift(k, m);
        k := k + m;
      }
      ModOfInRange(k, m);
    }

    /** add(num): adds a number or another cell's value, re-normalises, returns this cell. */
    method Add(num: Operand) returns (self: UintCell)
      requires Valid()
      modifies this
      ensures self == this && Valid()
      ensures numValue == Normalize(numCap, clamp, old(numValue) + old(ValueOf(num))) as real
    {
      var operand := ValueOf(num);
      numValue := numValue + operand;
      Fix();
      self := this;
    }

    /** subtract(num) */
    method Subtract(num: Operand) returns (self: UintCell)
      requires Valid()
      modifies this
      ensures self == this && Valid()
      ensures numValue == Normalize(numCap, clamp, old(numValue) - old(ValueOf(num))) as real
    {
      var operand := ValueOf(num);
      numValue := numValue - operand;
      Fix();
      self := this;
    }

    /** multiply(num) */
    method Multiply(num: Operand) returns (self: UintCell)
      requires Valid()
      modifies this
      ensures self == this && Valid()
      ensures numValue == Normalize(numCap, clamp, old(numValue) * old(ValueOf(num))) as real
    {
      var operand := ValueOf(num);
      ghost var product := old(numValue) * old(ValueOf(num));
      assert numValue * operand == product;
      numValue := numValue * operand;
      Fix();
      self := this;
    }

    /** divide(num), for a non-zero divisor */
    method Divide(num: Operand) returns (self: UintCell)
      requires Valid() && ValueOf(num) != 0.0
      modifies this
      ensures self == this && Valid()
      ensures numValue == Normalize(numCap, clamp, old(numValue) / old(ValueOf(num))) as real
    {
      var operand := ValueOf(num);
      numValue := numValue / operand;
      Fix();
      self := this;
    }

    /** from(num): sets the value to num, re-normalised, returns this cell. */
    method From(num: real) returns (self: UintCell)
      requires IsKind(width, clamp) && numCap == MaxInt(width)
      modifies this
      ensures self == this && Valid()
      ensures numValue == Normalize(numCap, clamp, num) as real
    {
      numValue := num;
      Fix();
      self := this;
    }
  }

  lemma ModShift(k: int, m: int)
    requires m > 0
    ensures (k + m) % m == k % m
  {
    var q := k / m;
    assert k + m == m * (q + 1) + k % m;
    ModUnique(k + m, m, q + 1, k % m);
  }

  /** The remainder is the unique r in [0, m) with a == m * q + r. */
  lemma ModUnique(a: int, m: int, q: int, r: int)
    requires m > 0 && 0 <= r < m && a == m * q + r
    ensures a % m == r
  {
    var q1 := a / m;
    assert m * (q1 - q) == r - a % m;
    if q1 > q {
      MulAtLeast(m, q1 - q);
    } else if q1 < q {
      MulAtLeast(m, q - q1);
    }
  }

  lemma MulAtLeast(m: int, t: int)
    requires m > 0 && t >= 1
    ensures m * t >= m
  {
  }

  /** One whole-number step of a chain of cell operations: add(n), subtract(n) or multiply(n). */
  datatype Step = AddBy(n: int) | SubtractBy(n: int) | MultiplyBy(n: int)

  /** A step on exact integers, with no range fix. */
  function Exact(v: int, s: Step): int
  {
    match s
    case AddBy(n) => v + n
    case SubtractBy(n) => v - n
    case MultiplyBy(n) => v * n
  }

  /** A chain of steps on exact integers. */
  function ExactChain(v: int, steps: seq<Step>): int
    decreases |steps|
  {
    if |steps| == 0 then v else ExactChain(Exact(v, steps[0]), steps[1..])
  }

  /** A chain of steps on a cell of capacity cap: every step's result is fixed back into range. */
  function CellChain(cap: nat, clamp: bool, v: int, steps: seq<Step>): (r: int)
    ensures |steps| > 0 ==> 0 <= r <= cap
    decreases |steps|
  {
    if |steps| == 0 then v
    else CellChain(cap, clamp, Normalize(cap, clamp, Exact(v, steps[0]) as real), steps[1..])
  }

  /** Adding a multiple of m does not change the remainder mod m. */
  lemma ModAddMultiple(x: int, m: int, k: int)
    requires m > 0
    ensures (x + m * k) % m == x % m
  {
    assert x == m * (x / m) + x % m;
    assert x + m * k == m * (x / m + k) + x % m;
    ModUnique(x + m * k, m, x / m + k, x % m);
  }

  /** A step keeps two numbers with the same remainder mod m congruent. */
  lemma {:induction false} StepCongruent(x: int, y: int, m: int, s: Step)
    requires m > 0 && x % m == y % m
    ensures Exact(x, s) % m == Exact(y, s) % m
  {
    var k := x / m - y / m;
    assert x == m * (x / m) + x % m && y == m * (y / m) + y % m;
    assert x == y + m * k;
    match s
    case AddBy(n) =>
      assert x + n == (y + n) + m * k;
      ModAddMultiple(y + n, m, k);
    case SubtractBy(n) =>
      assert x - n == (y - n) + m * k;
      ModAddMultiple(y - n, m, k);
    case MultiplyBy(n) =>
      MulShift(x, y, m, k, n);
      ModAddMultiple(y * n, m, k * n);
  }

  lemma MulShift(x: int, y: int, m: int, k: int, n: int)
    requires x == y + m * k
    ensures x * n == y * n + m * (k * n)
  {
  }

  /** A chain keeps two numbers with the same remainder mod m congruent. */
  lemma {:induction false} ChainCongruent(x: int, y: int, m: int, steps: seq<Step>)
    requires m > 0 && x % m == y % m
    ensures ExactChain(x, steps) % m == ExactChain(y, steps) % m
    decreases |steps|
  {
    if |steps| > 0 {
      StepCongruent(x, y, m, steps[0]);
      ChainCongruent(Exact(x, steps[0]), Exact(y, steps[0]), m, steps[1..]);
    }
  }

  /**
   * On a wrapping cell, any chain of whole-number adds, subtracts and
   * multiplies ends where the exact result reduced mod cap + 1 does: the
   * intermediate wrap-arounds do not matter.
   */
  lemma {:induction false} WrapChainIsExactMod(cap: nat, v: int, steps: seq<Step>)
    requires 0 <= v <= cap
    ensures CellChain(cap, false, v, steps) == ExactChain(v, steps) % (cap + 1)
    decreases |steps|
  {
    var m := cap + 1;
    if |steps| == 0 {
      ModOfInRange(v, m);
    } else {
      var e := Exact(v, steps[0]);
      var n := Normalize(cap, false, e as real);
      assert (e as real).Floor == e;
      assert n == e % m;
      WrapChainIsExactMod(cap, n, steps[1..]);
      ModOfInRange(n, m);
      ChainCongruent(n, e, m, steps[1..]);
    }
  }

  /**
   * On a clamping cell the intermediate saturation does matter: a
   * Uint8Clamped at 250 that adds 10 and subtracts 10 ends at 245, where the
   * exact chain ends at 250.
   */
  lemma ClampChainIsNotExact()
    ensures CellChain(255, true, 250, [AddBy(10), SubtractBy(10)]) == 245
    ensures ExactChain(250, [AddBy(10), SubtractBy(10)]) == 250
  {
    var steps := [AddBy(10), SubtractBy(10)];
    assert steps[1..] == [SubtractBy(10)] && steps[1..][1..] == [];
    assert (260 as real).Floor == 260 && (245 as real).Floor == 245;
    assert Normalize(255, true, 260 as real) == 255;
    assert CellChain(255, true, 255, [SubtractBy(10)]) == CellChain(255, true, 245, []);
  }

  /** Uint8 from(250).add(10) wraps to 4; Uint8Clamped saturates at 255. */
  method Uint8Overflow() returns (wrapped: real, clamped: real)
    ensures wrapped == 4.0 && clamped == 255.0
  {
    Capacities();
    assert (250.0).Floor == 250 && (260.0).Floor == 260;
    var w := new UintCell(8, false);
    w := w.From(250.0);
    assert w.numValue == 250.0;
    w := w.Add(Num(10.0));
    assert w.numValue == Normalize(255, false, 260.0) as real == 4.0;
    wrapped := w.ToNum();
    var c := new UintCell(8, true);
    c := c.From(250.0);
    assert c.numValue == 250.0;
    c := c.Add(Num(10.0));
    assert c.numValue == Normalize(255, true, 260.0) as real == 255.0;
    clamped := c.ToNum();
  }

  /**
   * UintUtils.combineUint4(a, b): the Uint8 holding (a << 4) + b. Both halves
   * are below 16, so the sum is at most 255 and never wraps.
   */
  method CombineUint4(a: UintCell, b: UintCell) returns (r: UintCell)
    requires a.Valid() && b.Valid() && a.width == 4 && b.width == 4
    ensures fresh(r) && r.Valid() && r.width == 8 && !r.clamp
    ensures r.Int() == 16 * a.Int() + b.Int() <= 255
  {
    r := new UintCell(8, false);
    r := r.From((a.Int() * 16 + b.Int()) as real);
  }

  /**
   * UintUtils.toBytes(n), fuel-bounded. The buffer has log2(numCap + 1) bytes,
   * which is the bit width and not the byte width; the loop stores `left & 0x0f`
   * and computes `left >> 8` without storing it, so `left` never changes and
   * the loop never ends once it has started. `fuel` bounds the iterations this
   * model runs before it reports divergence; the contract holds for every fuel.
   */
  method ToBytes(n: UintCell, fuel: nat) returns (r: Completion<seq<byte>>)
    requires n.Valid()
    ensures r.Diverges? <==> n.Int() > 0
    ensures r.Returned? ==> r.value == Zeros(n.width)
    ensures !r.Threw?
  {
    var byteCount := n.width;
    var buf := Alloc(byteCount);
    var left := n.ToNum();
    var byte := 0;
    var steps := 0;
    while left > 0.0 && steps < fuel
      invariant left <= 0.0 ==> buf[..] == Zeros(byteCount)
      decreases fuel - steps
    {
      if byte < buf.Length {
        buf[byte] := left.Floor % 16;
      }
      byte := byte + 1;
      steps := steps + 1;
    }
    if left > 0.0 {
      return Diverges;
    }
    return Returned(buf[..]);
  }
}
