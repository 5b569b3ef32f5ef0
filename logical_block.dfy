/**
 * The 360-bit vector helpers of the accelerator kernel (logical_block.h).
 *
 * An `ap_uint<360>` is a sequence of 360 booleans, bit i being element i (bit 0
 * is the least significant); `Val` reads it back as the unsigned integer it
 * stands for.  The bitwise operations work element by element, the shifts move
 * every bit by one place, and `Sum` is a ripple-carry adder, proved to be
 * addition modulo 2^360.
 */
module LogicalBlock {
  import opened Common

  /** MAX_SEQ_LENGTH, the width of the vectors. */
  const WIDTH: nat := 360

  type Vec = v: seq<bool> | |v| == WIDTH witness seq(WIDTH, _ => false)

  /** The unsigned integer a bit sequence stands for, least significant bit first. */
  function Val(s: seq<bool>): nat {
    if s == [] then 0 else (if s[0] then 1 else 0) + 2 * Val(s[1..])
  }

  function Pow2(n: nat): (p: nat)
    ensures p >= 1
  {
    if n == 0 then 1 else 2 * Pow2(n - 1)
  }

  lemma {:induction false} ValBound(s: seq<bool>)
    ensures Val(s) < Pow2(|s|)
  {
    if s != [] {
      ValBound(s[1..]);
    }
  }

  /** Two bit sequences of the same length with the same value are equal. */
  lemma {:induction false} ValInjective(a: seq<bool>, b: seq<bool>)
    requires |a| == |b| && Val(a) == Val(b)
    ensures a == b
  {
    if a != [] {
      var x, y := Val(a[1..]), Val(b[1..]);
      assert Val(a) == (if a[0] then 1 else 0) + 2 * x;
      assert Val(b) == (if b[0] then 1 else 0) + 2 * y;
      assert a[0] == b[0] && x == y;
      ValInjective(a[1..], b[1..]);
      assert a == [a[0]] + a[1..] && b == [b[0]] + b[1..];
    }
  }

  /** A false bit on top does not change the value. */
  lemma {:induction false} ValAppendFalse(s: seq<bool>)
    ensures Val(s + [false]) == Val(s)
  {
    if s != [] {
      assert (s + [false])[1..] == s[1..] + [false];
      ValAppendFalse(s[1..]);
    }
  }

  /** The value of a sequence is that of its lower bits plus its top bit's weight. */
  lemma {:induction false} ValSplitLast(s: seq<bool>)
    requires s != []
    ensures Val(s) == Val(s[..|s| - 1]) + (if s[|s| - 1] then Pow2(|s| - 1) else 0)
  {
    if |s| > 1 {
      assert s[1..][..|s| - 2] == s[..|s| - 1][1..];
      ValSplitLast(s[1..]);
    }
  }

  /** The three bitwise operations of the kernel. */
  datatype BitOp = OrOp | XorOp | AndOp

  function Apply(op: BitOp, x: bool, y: bool): bool {
    match op
    case OrOp => x || y
    case XorOp => x != y
    case AndOp => x && y
  }

  /** `op` applied bit by bit to two sequences of the same length. */
  function Bitwise(op: BitOp, a: seq<bool>, b: seq<bool>): (r: seq<bool>)
    requires |a| == |b|
    ensures |r| == |a|
  {
    if a == [] then [] else [Apply(op, a[0], b[0])] + Bitwise(op, a[1..], b[1..])
  }

  /** Bit i of a bitwise operation is `op` applied to the operands' bits i. */
  lemma {:induction false} BitwiseAt(op: BitOp, a: seq<bool>, b: seq<bool>, i: nat)
    requires |a| == |b| && i < |a|
    ensures Bitwise(op, a, b)[i] == Apply(op, a[i], b[i])
  {
    if i > 0 {
      BitwiseAt(op, a[1..], b[1..], i - 1);
    }
  }

  lemma BitwiseBits(op: BitOp, a: seq<bool>, b: seq<bool>)
    requires |a| == |b|
    ensures forall i | 0 <= i < |a| :: Bitwise(op, a, b)[i] == Apply(op, a[i], b[i])
  {
    forall i | 0 <= i < |a|
      ensures Bitwise(op, a, b)[i] == Apply(op, a[i], b[i])
    {
      BitwiseAt(op, a, b, i);
    }
  }

  /**
   * What the bitwise operations do to the values: or plus and is the sum of the
   * operands, and so is exclusive or plus twice and (the half adder).
   */
  lemma {:induction false} BitwiseValues(a: seq<bool>, b: seq<bool>)
    requires |a| == |b|
    ensures Val(Bitwise(OrOp, a, b)) + Val(Bitwise(AndOp, a, b)) == Val(a) + Val(b)
    ensures Val(Bitwise(XorOp, a, b)) + 2 * Val(Bitwise(AndOp, a, b)) == Val(a) + Val(b)
  {
    if a != [] {
      BitwiseValues(a[1..], b[1..]);
      assert Bitwise(OrOp, a, b)[1..] == Bitwise(OrOp, a[1..], b[1..]);
      assert Bitwise(AndOp, a, b)[1..] == Bitwise(AndOp, a[1..], b[1..]);
      assert Bitwise(XorOp, a, b)[1..] == Bitwise(XorOp, a[1..], b[1..]);
      assert Bitwise(OrOp, a, b)[0] == (a[0] || b[0]);
      assert Bitwise(AndOp, a, b)[0] == (a[0] && b[0]);
      assert Bitwise(XorOp, a, b)[0] == (a[0] != b[0]);
    }
  }

  /** `_mm512_or_si512`: bitwise or. */
  function Or(a: Vec, b: Vec): Vec {
    Bitwise(OrOp, a, b)
  }

  /** `_mm512_xor_si512`: bitwise exclusive or. */
  function Xor(a: Vec, b: Vec): Vec {
    Bitwise(XorOp, a, b)
  }

  /** `_mm512_and_si512`: bitwise and. */
  function And(a: Vec, b: Vec): Vec {
    Bitwise(AndOp, a, b)
  }

  /** Or plus and of two vectors is their sum. */
  lemma OrPlusAnd(a: Vec, b: Vec)
    ensures Val(Or(a, b)) + Val(And(a, b)) == Val(a) + Val(b)
  {
    BitwiseValues(a, b);
  }

  /** Exclusive or plus twice and of two vectors is their sum. */
  lemma XorPlusTwiceAnd(a: Vec, b: Vec)
    ensures Val(Xor(a, b)) + 2 * Val(And(a, b)) == Val(a) + Val(b)
  {
    BitwiseValues(a, b);
  }

  /** Every bit flipped. */
  function Complement(a: seq<bool>): (r: seq<bool>)
    ensures |r| == |a|
  {
    if a == [] then [] else [!a[0]] + Complement(a[1..])
  }

  lemma {:induction false} ComplementAt(a: seq<bool>, i: nat)
    requires i < |a|
    ensures Complement(a)[i] == !a[i]
  {
    if i > 0 {
      ComplementAt(a[1..], i - 1);
    }
  }

  lemma ComplementBits(a: seq<bool>)
    ensures forall i | 0 <= i < |a| :: Complement(a)[i] == !a[i]
  {
    forall i | 0 <= i < |a|
      ensures Complement(a)[i] == !a[i]
    {
      ComplementAt(a, i);
    }
  }

  /** `~`: bitwise complement. */
  function Not(a: Vec): Vec {
    Complement(a)
  }

  /** The all-zero and all-one vectors, `0` and `~0`. */
  function Zeros(): (r: Vec)
    ensures Val(r) == 0
  {
    var z := seq(WIDTH, _ => false);
    ZerosVal(z);
    z
  }

  lemma {:induction false} ZerosVal(s: seq<bool>)
    requires forall i | 0 <= i < |s| :: !s[i]
    ensures Val(s) == 0
  {
    if s != [] {
      ZerosVal(s[1..]);
    }
  }

  function Ones(): (r: Vec)
    ensures Val(r) == Pow2(WIDTH) - 1
  {
    var o := seq(WIDTH, _ => true);
    OnesVal(o);
    o
  }

  lemma {:induction false} OnesVal(s: seq<bool>)
    requires forall i | 0 <= i < |s| :: s[i]
    ensures Val(s) == Pow2(|s|) - 1
  {
    if s != [] {
      OnesVal(s[1..]);
    }
  }

  /** `~0` is the all-one vector. */
  lemma OnesIsNotZeros()
    ensures Not(Zeros()) == Ones()
  {
    ComplementBits(Zeros());
  }

  /** A vector or its complement is all ones. */
  lemma OrComplement(a: Vec)
    ensures Or(a, Not(a)) == Ones()
  {
    ComplementBits(a);
    BitwiseBits(OrOp, a, Not(a));
  }

  /** A vector and its complement is all zeros. */
  lemma AndComplement(a: Vec)
    ensures And(a, Not(a)) == Zeros()
  {
    ComplementBits(a);
    BitwiseBits(AndOp, a, Not(a));
  }

  /** The complement of a vector stands for 2^360 - 1 minus its value. */
  lemma NotValue(a: Vec)
    ensures Val(Not(a)) == Pow2(WIDTH) - 1 - Val(a)
  {
    OrPlusAnd(a, Not(a));
    OrComplement(a);
    AndComplement(a);
  }

  /** Exclusive or with the same vector twice gives the vector back. */
  lemma XorInvolutive(a: Vec, b: Vec)
    ensures Xor(Xor(a, b), b) == a
  {
    BitwiseBits(XorOp, a, b);
    BitwiseBits(XorOp, Xor(a, b), b);
    assert forall i | 0 <= i < WIDTH :: Xor(Xor(a, b), b)[i] == a[i];
  }

  /** De Morgan's law for the kernel's `~(x | y)` terms. */
  lemma NotOrIsAndOfNots(a: Vec, b: Vec)
    ensures Not(Or(a, b)) == And(Not(a), Not(b))
  {
    BitwiseBits(OrOp, a, b);
    BitwiseBits(AndOp, Not(a), Not(b));
    ComplementBits(a);
    ComplementBits(b);
    ComplementBits(Or(a, b));
    assert forall i | 0 <= i < WIDTH :: Not(Or(a, b))[i] == And(Not(a), Not(b))[i];
  }

  /** `eq`: whether two vectors are equal. */
  function Eq(a: Vec, b: Vec): (r: bool)
    ensures r <==> forall i | 0 <= i < WIDTH :: a[i] == b[i]
  {
    a == b
  }

  /** Two vectors are `eq` exactly when they stand for the same number. */
  lemma EqIffSameValue(a: Vec, b: Vec)
    ensures Eq(a, b) <==> Val(a) == Val(b)
  {
    if Val(a) == Val(b) {
      ValInjective(a, b);
    }
  }

  /** `reg << 1`: bit i moves to bit i + 1, bit 0 becomes 0 and the top bit is dropped. */
  function ShiftLeft(a: Vec): Vec {
    [false] + a[..WIDTH - 1]
  }

  lemma ShiftLeftBits(a: Vec)
    ensures !ShiftLeft(a)[0] && forall i | 1 <= i < WIDTH :: ShiftLeft(a)[i] == a[i - 1]
  {
  }

  /** `reg >> 1`: bit i moves to bit i - 1, the top bit becomes 0 and bit 0 is dropped. */
  function ShiftRight(a: Vec): Vec {
    a[1..] + [false]
  }

  lemma ShiftRightBits(a: Vec)
    ensures !ShiftRight(a)[WIDTH - 1] && forall i | 0 <= i < WIDTH - 1 :: ShiftRight(a)[i] == a[i + 1]
  {
  }

  /** The left shift doubles the value modulo 2^360. */
  lemma ShiftLeftDoubles(a: Vec)
    ensures Val(ShiftLeft(a)) == (2 * Val(a)) % Pow2(WIDTH)
  {
    var low := a[..WIDTH - 1];
    assert ShiftLeft(a)[1..] == low;
    ValSplitLast(a);
    ValBound(low);
    var top := if a[WIDTH - 1] then Pow2(WIDTH) else 0;
    assert 2 * Val(a) == 2 * Val(low) + top;
    ModOfSum(2 * Val(low), if a[WIDTH - 1] then 1 else 0, Pow2(WIDTH));
  }

  /** The right shift halves the value, rounding down. */
  lemma ShiftRightHalves(a: Vec)
    ensures Val(ShiftRight(a)) == Val(a) / 2
  {
    ValAppendFalse(a[1..]);
  }

  /** x + k * m reduced modulo m is x, for 0 <= x < m. */
  lemma ModOfSum(x: nat, k: nat, m: nat)
    requires 0 <= x < m
    ensures (x + k * m) % m == x
  {
    var y := x + k * m;
    assert y / m == k by {
      var q := y / m;
      assert q * m <= y < q * m + m;
      if q < k {
        MulMono(q + 1, k, m);
      } else if q > k {
        MulMono(k + 1, q, m);
      }
    }
  }

  function Majority(x: bool, y: bool, z: bool): bool {
    (x && y) || (x && z) || (y && z)
  }

  /** The sum bits of a ripple-carry adder with carry-in `c`. */
  function AddBits(a: seq<bool>, b: seq<bool>, c: bool): (r: seq<bool>)
    requires |a| == |b|
    ensures |r| == |a|
  {
    if a == [] then [] else [(a[0] != b[0]) != c] + AddBits(a[1..], b[1..], Majority(a[0], b[0], c))
  }

  /** The carry out of the top bit of the same adder. */
  function CarryOut(a: seq<bool>, b: seq<bool>, c: bool): bool
    requires |a| == |b|
  {
    if a == [] then c else CarryOut(a[1..], b[1..], Majority(a[0], b[0], c))
  }

  lemma {:induction false} AddBitsCorrect(a: seq<bool>, b: seq<bool>, c: bool)
    requires |a| == |b|
    ensures Val(AddBits(a, b, c)) + (if CarryOut(a, b, c) then Pow2(|a|) else 0)
            == Val(a) + Val(b) + (if c then 1 else 0)
  {
    if a != [] {
      var m := Majority(a[0], b[0], c);
      AddBitsCorrect(a[1..], b[1..], m);
      assert AddBits(a, b, c)[1..] == AddBits(a[1..], b[1..], m);
    }
  }

  /** `A + B` on `ap_uint<360>`. */
  function Sum(a: Vec, b: Vec): (r: Vec) {
    AddBits(a, b, false)
  }

  /** `sum` is addition modulo 2^360. */
  lemma SumIsAdditionModulo(a: Vec, b: Vec)
    ensures Val(Sum(a, b)) == (Val(a) + Val(b)) % Pow2(WIDTH)
  {
    AddBitsCorrect(a, b, false);
    ValBound(Sum(a, b));
    ModOfSum(Val(Sum(a, b)), if CarryOut(a, b, false) then 1 else 0, Pow2(WIDTH));
  }

  /** `next_bit ? 0 : ~0` */
  function Code(bit: bool): Vec {
    if bit then Zeros() else Ones()
  }

  /**
   * `mask_pattern_2bit_v2`: bit i is set exactly when position i of the pattern
   * holds the reference nucleotide, whose two code bits are `ref1` and `ref2`.
   */
  function MaskPattern2Bit(bit1: Vec, bit2: Vec, ref1: bool, ref2: bool): Vec {
    And(Xor(Code(ref1), bit1), Xor(Code(ref2), bit2))
  }

  /** Every bit of `Code(bit)` is the complement of `bit`. */
  lemma CodeBits(bit: bool)
    ensures forall i | 0 <= i < WIDTH :: Code(bit)[i] == !bit
  {
  }

  lemma MaskPattern2BitMatches(bit1: Vec, bit2: Vec, ref1: bool, ref2: bool)
    ensures forall i | 0 <= i < WIDTH ::
      MaskPattern2Bit(bit1, bit2, ref1, ref2)[i] <==> bit1[i] == ref1 && bit2[i] == ref2
  {
    var c1, c2 := Code(ref1), Code(ref2);
    CodeBits(ref1);
    CodeBits(ref2);
    var x1, x2 := Xor(c1, bit1), Xor(c2, bit2);
    BitwiseBits(XorOp, c1, bit1);
    BitwiseBits(XorOp, c2, bit2);
    BitwiseBits(AndOp, x1, x2);
  }
}
