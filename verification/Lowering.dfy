/** Machine code for division by a power of two and for 32-bit constants, on the integer registers of RV32IM. */
module Lowering {
  import opened Int32
  import opened Machine
  import Bits

  datatype Asm =
    | AddReg(dst: Register, a: Register, b: Register)
    | SubReg(dst: Register, a: Register, b: Register)
    | Addi(dst: Register, a: Register, imm: int)
    | Srai(dst: Register, a: Register, amount: nat)
    | Srli(dst: Register, a: Register, amount: nat)
    | Slli(dst: Register, a: Register, amount: nat)
    | Lui(dst: Register, imm: int)

  type Registers = map<Register, i32>

  function Read(regs: Registers, r: Register): i32 {
    if r == Zero || r !in regs then 0 else regs[r]
  }

  function Write(regs: Registers, r: Register, v: i32): Registers {
    if r == Zero then regs else regs[r := v]
  }

  /** Sections 2.4 and 7.2 of the RISC-V Unprivileged ISA (20191213). */
  function Execute(i: Asm, regs: Registers): Registers {
    match i
    case AddReg(d, a, b) => Write(regs, d, Wrap(Read(regs, a) + Read(regs, b)))
    case SubReg(d, a, b) => Write(regs, d, Wrap(Read(regs, a) - Read(regs, b)))
    case Addi(d, a, imm) => Write(regs, d, Wrap(Read(regs, a) + imm))
    case Srai(d, a, k) => Write(regs, d, Int32.Shr(Read(regs, a), k))
    case Srli(d, a, k) => Write(regs, d, ShrLogical(Read(regs, a), k))
    case Slli(d, a, k) => Write(regs, d, Int32.Shl(Read(regs, a), k))
    case Lui(d, imm) => Write(regs, d, Wrap(imm * 4096))
  }

  function ExecuteAll(code: seq<Asm>, regs: Registers): Registers {
    if code == [] then regs else ExecuteAll(code[1..], Execute(code[0], regs))
  }

  /** Immediates fit their fields: shifts five bits, `addi` twelve signed bits, `lui` twenty bits. */
  predicate Encodable(i: Asm) {
    match i
    case Addi(_, _, imm) => -2048 <= imm <= 2047
    case Lui(_, imm) => 0 <= imm < 0x10_0000
    case Srai(_, _, k) => k < 32
    case Srli(_, _, k) => k < 32
    case Slli(_, _, k) => k < 32
    case _ => true
  }

  // ----- division by a power of two -----

  lemma OnesQuotient(d: nat, p: nat)
    requires d > 0 && d * p == MODULUS
    ensures (MODULUS - 1) / d == p - 1
  {
    assert d * p - 1 == d * (p - 1) + (d - 1);
    Bits.DivisionUnique(d * p - 1, d, p - 1, d - 1);
  }

  lemma OnesShifted(k: nat)
    requires 1 <= k <= 30
    ensures (MODULUS - 1) / Pow2(32 - k) == Pow2(k) - 1
  {
    hide *;
    Bits.Pow2Values();
    Bits.Pow2Add(32 - k, k);
    hide Pow2;
    OnesQuotient(Pow2(32 - k), Pow2(k));
  }

  lemma PowerIsSmall(k: nat)
    requires 1 <= k <= 30
    ensures 2 <= Pow2(k) <= MAX
  {
    Bits.Pow2Values();
    Bits.Pow2Rises(k, 30);
    Bits.Pow2Rises(1, k);
    assert Pow2(31) == 2 * Pow2(30) && Pow2(1) == 2;
  }

  /** What is added to a dividend before the shift: nothing, or 2^k - 1 if it is negative. */
  lemma Correction(x: i32, k: nat)
    requires 1 <= k <= 30
    ensures ShrLogical(Int32.Shr(x, 31), 32 - k) == if x < 0 then Pow2(k) - 1 else 0
  {
    SignBit(x);
    OnesShifted(k);
    PowerIsSmall(k);
    hide Pow2, Int32.Shr;
    assert Unsigned(-1) == MODULUS - 1 && Unsigned(0) == 0;
    Bits.DivisionUnique(0, Pow2(32 - k), 0, 0);
  }

  lemma SignBit(x: i32)
    ensures Int32.Shr(x, 31) == if x < 0 then -1 else 0
  {
    Bits.Pow2Values();
    var p := Pow2(31);
    if x < 0 {
      Bits.DivisionUnique(x, p, -1, x + p);
    } else {
      Bits.DivisionUnique(x, p, 0, x);
    }
  }

  /** Rounding a negative quotient up is truncation. */
  lemma CeilIsTruncation(x: int, p: nat)
    requires x < 0 < p
    ensures (x + p - 1) / p == -(-x / p)
  {
    var q, r := -x / p, -x % p;
    Bits.QuotientIsSmall(-x, p);
    assert x + p - 1 == p * (-q) + (p - 1 - r);
    Bits.DivisionUnique(x + p - 1, p, -q, p - 1 - r);
  }

  lemma QuotientBounds(y: nat, p: nat)
    requires p >= 2
    ensures 0 <= 2 * (y / p) <= (y / p) * p <= y
  {
    var q := y / p;
    Bits.QuotientIsSmall(y, p);
    Bits.ProductNonNegative(p - 2, q);
    assert q * p == (p - 2) * q + 2 * q;
  }

  lemma NegatedProduct(q: int, p: int)
    ensures (-q) * p == -(q * p) && p * q == q * p
  {
  }

  lemma QuotientFits(x: i32, p: i32)
    requires p >= 2
    ensures var q := TruncDiv(x, p); MIN <= q <= MAX && Div(x, p) == q && MIN <= q * p <= MAX && MIN <= x - q * p <= MAX
    ensures Rem(x, p) == x - TruncDiv(x, p) * p
  {
    var y: int := if x >= 0 then x else 0 - x;
    var q := y / p;
    QuotientBounds(y, p);
    NegatedProduct(q, p);
    NegatedProduct(TruncDiv(x, p), p);
    assert TruncDiv(x, p) == if x >= 0 then q else -q;
    hide TruncDiv, Wrap;
  }

  /** The value that the shifts compute is the truncated quotient. */
  lemma ShiftedQuotient(x: i32, k: nat)
    requires 1 <= k <= 30
    ensures 2 <= Pow2(k) <= MAX
    ensures Int32.Shr(Wrap(x + ShrLogical(Int32.Shr(x, 31), 32 - k)), k) == TruncDiv(x, Pow2(k))
  {
    hide Pow2, Rem, ShrLogical;
    Correction(x, k);
    PowerIsSmall(k);
    var p := Pow2(k);
    QuotientFits(x, p);
    if x < 0 {
      CeilIsTruncation(x, p);
    }
    hide Pow2, ShrLogical, Div, Rem;
    assert Int32.Shr(Wrap(x + if x < 0 then p - 1 else 0), k) == Wrap((x + if x < 0 then p - 1 else 0) / p);
  }

  /** The code that is emitted for `x / 2^k` or `x % 2^k`. */
  function DivisionCode(rem: bool, dst: Register, src: Register, k: nat): seq<Asm>
    requires k <= 32
  {
    [Srai(T1, src, 31), Srli(T1, T1, 32 - k), AddReg(T1, src, T1), Srai(T1, T1, k)]
    + Ending(rem, dst, src, k)
  }

  lemma ExecuteOne(i: Asm, rest: seq<Asm>, regs: Registers)
    ensures ExecuteAll([i] + rest, regs) == ExecuteAll(rest, Execute(i, regs))
  {
    assert ([i] + rest)[1..] == rest;
  }

  /** The shifts leave the quotient in T1. */
  lemma QuotientCode(src: Register, k: nat, rest: seq<Asm>, regs: Registers)
    requires 1 <= k <= 30 && src != T1
    ensures ExecuteAll([Srai(T1, src, 31), Srli(T1, T1, 32 - k), AddReg(T1, src, T1), Srai(T1, T1, k)] + rest, regs)
         == (ShiftedQuotient(Read(regs, src), k); ExecuteAll(rest, regs[T1 := Quotient(Read(regs, src), k)]))
  {
    hide Pow2, Int32.Shr, ShrLogical, TruncDiv, ExecuteAll, Wrap;
    var a, b, c, d := Srai(T1, src, 31), Srli(T1, T1, 32 - k), AddReg(T1, src, T1), Srai(T1, T1, k);
    var x := Read(regs, src);
    ShiftedQuotient(x, k);
    assert [a, b, c, d] + rest == [a] + ([b] + ([c] + ([d] + rest)));
    ExecuteOne(a, [b] + ([c] + ([d] + rest)), regs);
    ExecuteOne(b, [c] + ([d] + rest), Execute(a, regs));
    ExecuteOne(c, [d] + rest, Execute(b, Execute(a, regs)));
    ExecuteOne(d, rest, Execute(c, Execute(b, Execute(a, regs))));
    assert Execute(d, Execute(c, Execute(b, Execute(a, regs)))) == regs[T1 := Quotient(x, k)];
  }

  function Quotient(x: i32, k: nat): i32
    requires 1 <= k <= 30
  {
    ShiftedQuotient(x, k);
    QuotientFits(x, Pow2(k));
    TruncDiv(x, Pow2(k))
  }

  /** The destination gets the truncated quotient or remainder; only it and T1 change. */
  lemma DivisionCodeIsExact(rem: bool, dst: Register, src: Register, k: nat, regs: Registers)
    requires 1 <= k <= 30 && dst != Zero && dst != T1 && src != T1
    ensures var x, after := Read(regs, src), ExecuteAll(DivisionCode(rem, dst, src, k), regs);
            && 2 <= Pow2(k) <= MAX
            && Read(after, dst) == (if rem then Rem(x, Pow2(k)) else Div(x, Pow2(k)))
            && forall r :: r != dst && r != T1 ==> Read(after, r) == Read(regs, r)
    ensures forall i :: 0 <= i < |DivisionCode(rem, dst, src, k)| ==> Encodable(DivisionCode(rem, dst, src, k)[i])
  {
    hide *;
    var x := Read(regs, src);
    ShiftedQuotient(x, k);
    var rest := Ending(rem, dst, src, k);
    QuotientCode(src, k, rest, regs);
    EndingEffect(rem, dst, src, k, regs, x);
    DivisionCodeShape(rem, dst, src, k);
  }

  /** What follows the quotient in T1. */
  function Ending(rem: bool, dst: Register, src: Register, k: nat): seq<Asm> {
    if rem then [Slli(T1, T1, k), SubReg(dst, src, T1)] else [AddReg(dst, T1, Zero)]
  }

  lemma DivisionCodeShape(rem: bool, dst: Register, src: Register, k: nat)
    requires 1 <= k <= 30
    ensures DivisionCode(rem, dst, src, k)
         == [Srai(T1, src, 31), Srli(T1, T1, 32 - k), AddReg(T1, src, T1), Srai(T1, T1, k)] + Ending(rem, dst, src, k)
    ensures forall i :: 0 <= i < |DivisionCode(rem, dst, src, k)| ==> Encodable(DivisionCode(rem, dst, src, k)[i])
  {
  }

  lemma EndingEffect(rem: bool, dst: Register, src: Register, k: nat, regs: Registers, x: i32)
    requires 1 <= k <= 30 && dst != Zero && dst != T1 && src != T1 && x == Read(regs, src) && 2 <= Pow2(k) <= MAX
    ensures var after := ExecuteAll(Ending(rem, dst, src, k), regs[T1 := Quotient(x, k)]);
            && Read(after, dst) == (if rem then Rem(x, Pow2(k)) else Div(x, Pow2(k)))
            && forall r :: r != dst && r != T1 ==> Read(after, r) == Read(regs, r)
  {
    hide Div, Rem, ExecuteAll, Pow2, Wrap, Int32.Shl, Quotient;
    var q := Quotient(x, k);
    var regs4 := regs[T1 := q];
    EndingValues(x, k);
    if rem {
      assert Ending(rem, dst, src, k) == [Slli(T1, T1, k)] + ([SubReg(dst, src, T1)] + []);
      ExecuteOne(Slli(T1, T1, k), [SubReg(dst, src, T1)] + [], regs4);
      var regs5 := Execute(Slli(T1, T1, k), regs4);
      ExecuteOne(SubReg(dst, src, T1), [], regs5);
      NothingMore(Execute(SubReg(dst, src, T1), regs5));
    } else {
      assert Ending(rem, dst, src, k) == [AddReg(dst, T1, Zero)] + [];
      ExecuteOne(AddReg(dst, T1, Zero), [], regs4);
      NothingMore(Execute(AddReg(dst, T1, Zero), regs4));
    }
  }

  lemma EndingValues(x: i32, k: nat)
    requires 1 <= k <= 30 && 2 <= Pow2(k) <= MAX
    ensures var q := Quotient(x, k); Wrap(q + 0) == Div(x, Pow2(k)) && Wrap(x - Int32.Shl(q, k)) == Rem(x, Pow2(k))
  {
    QuotientFits(x, Pow2(k));
    hide TruncDiv, Div, Rem, Pow2;
    assert Int32.Shl(Quotient(x, k), k) == Quotient(x, k) * Pow2(k);
  }

  lemma NothingMore(regs: Registers)
    ensures ExecuteAll([], regs) == regs
  {
  }

  // ----- constants -----

  /** The code that is emitted to load a constant without pseudo-instructions. */
  method Materialize(value: i32, dst: Register) returns (code: seq<Asm>)
    requires dst != Zero
    ensures forall regs :: ExecuteAll(code, regs) == Write(regs, dst, value)
    ensures forall i :: 0 <= i < |code| ==> Encodable(code[i])
  {
    if -2048 <= value <= 2047 {
      code := [Addi(dst, Zero, value)];
      forall regs
        ensures ExecuteAll(code, regs) == Write(regs, dst, value)
      {
        ExecuteOne(Addi(dst, Zero, value), [], regs);
      }
      return;
    }
    var rounded: int := value + 0x800;
    var rawHi := rounded / 4096;
    var hi := if rawHi < 0 then rawHi + 0x10_0000 else rawHi;
    var lo := value - rawHi * 4096;
    Rebuilt(value, rawHi, hi, lo);
    code := [Lui(dst, hi)] + if lo != 0 then [Addi(dst, dst, lo)] else [];
    forall regs: Registers
      ensures ExecuteAll(code, regs) == Write(regs, dst, value)
    {
      var upper := Execute(Lui(dst, hi), regs);
      ExecuteOne(Lui(dst, hi), code[1..], regs);
      assert code == [Lui(dst, hi)] + code[1..];
      if lo != 0 {
        assert code[1..] == [Addi(dst, dst, lo)] + [];
        ExecuteOne(Addi(dst, dst, lo), [], upper);
        assert regs[dst := Wrap(hi * 4096)][dst := value] == regs[dst := value];
      }
    }
  }

  /** The two fields fit, and rebuild the constant even where the upper one overflows into the sign. */
  lemma Rebuilt(value: i32, rawHi: int, hi: int, lo: int)
    requires rawHi == (value + 0x800) / 4096 && lo == value - rawHi * 4096
    requires hi == if rawHi < 0 then rawHi + 0x10_0000 else rawHi
    ensures 0 <= hi < 0x10_0000 && -2048 <= lo <= 2047 && Wrap(Wrap(hi * 4096) + lo) == value
  {
    assert -2048 <= lo <= 2047;
    assert hi * 4096 == rawHi * 4096 || hi * 4096 == rawHi * 4096 + MODULUS;
    var whole: int := hi * 4096;
    assert Wrap(whole) == whole || Wrap(whole) == whole - MODULUS;
  }
}
