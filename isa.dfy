/**
 * The 16-bit SIMT instruction set: the opcodes, an instruction with its
 * operand values, and the one encoding that every assembler copy uses.
 * Register fields sit at bits [11:8], [7:4] and [3:0], the opcode nibble at
 * bits [15:12]; BRn has the 7-bit prefix 0001100 and a 9-bit absolute target.
 */
module Isa {
  import opened Bits
  import opened Errors

  datatype Opcode = CONST | ADD | SUB | MUL | DIV | LDR | STR | CMP | BRn | RET

  /** An instruction whose operands have been parsed to numbers and whose branch target is resolved. */
  datatype Instr =
    | Const(d: nat, imm: nat)
    | Add(d: nat, s: nat, t: nat)
    | Sub(d: nat, s: nat, t: nat)
    | Mul(d: nat, s: nat, t: nat)
    | Div(d: nat, s: nat, t: nat)
    | Ldr(d: nat, s: nat)
    | Str(s: nat, t: nat)
    | Cmp(s: nat, t: nat)
    | Brn(target: nat)
    | Ret

  function OpOf(i: Instr): Opcode
  {
    match i
    case Const(_, _) => CONST
    case Add(_, _, _) => ADD
    case Sub(_, _, _) => SUB
    case Mul(_, _, _) => MUL
    case Div(_, _, _) => DIV
    case Ldr(_, _) => LDR
    case Str(_, _) => STR
    case Cmp(_, _) => CMP
    case Brn(_) => BRn
    case Ret => RET
  }

  /** The instruction of a three-register opcode. */
  function ThreeReg(o: Opcode, d: nat, s: nat, t: nat): (r: Instr)
    requires o in {ADD, SUB, MUL, DIV}
    ensures OpOf(r) == o
  {
    match o
    case ADD => Add(d, s, t)
    case SUB => Sub(d, s, t)
    case MUL => Mul(d, s, t)
    case DIV => Div(d, s, t)
  }

  /** The instruction of an opcode with two operand fields. */
  function TwoField(o: Opcode, a: nat, b: nat): (r: Instr)
    requires o in {CONST, LDR, STR, CMP}
    ensures OpOf(r) == o
  {
    match o
    case CONST => Const(a, b)
    case LDR => Ldr(a, b)
    case STR => Str(a, b)
    case CMP => Cmp(a, b)
  }

  /** The source spelling of each opcode (the dispatch compares against these exact strings). */
  function Mnemonic(op: Opcode): string
  {
    match op
    case CONST => "CONST"
    case ADD => "ADD"
    case SUB => "SUB"
    case MUL => "MUL"
    case DIV => "DIV"
    case LDR => "LDR"
    case STR => "STR"
    case CMP => "CMP"
    case BRn => "BRn"
    case RET => "RET"
  }

  /** Spellings are distinct, so a mnemonic names exactly one opcode. */
  lemma MnemonicInjective(a: Opcode, b: Opcode)
    requires Mnemonic(a) == Mnemonic(b)
    ensures a == b
  {
  }

  /**
   * The opcode a token spells, if any: the string comparisons of an
   * `if op == "CONST" ... elif` chain, which can match at most one branch.
   */
  function Lookup(name: string): (r: Option<Opcode>)
    ensures r.Some? ==> Mnemonic(r.value) == name
    ensures r.None? ==> forall o :: Mnemonic(o) != name
  {
    if name == "CONST" then Some(CONST)
    else if name == "ADD" then Some(ADD)
    else if name == "SUB" then Some(SUB)
    else if name == "MUL" then Some(MUL)
    else if name == "DIV" then Some(DIV)
    else if name == "LDR" then Some(LDR)
    else if name == "STR" then Some(STR)
    else if name == "CMP" then Some(CMP)
    else if name == "BRn" then Some(BRn)
    else if name == "RET" then Some(RET)
    else None
  }

  /** Every mnemonic looks up its own opcode. */
  lemma LookupMnemonic(o: Opcode)
    ensures Lookup(Mnemonic(o)) == Some(o)
  {
    var r := Lookup(Mnemonic(o));
    if r.Some? {
      MnemonicInjective(r.value, o);
    }
  }

  /** The fixed high bits of each opcode's word. */
  function Base(op: Opcode): nat
  {
    match op
    case CONST => 0x9000
    case ADD => 0x3000
    case SUB => 0x4000
    case MUL => 0x5000
    case DIV => 0x6000
    case LDR => 0x7000
    case STR => 0x8000
    case CMP => 0x2000
    case BRn => 0x1800
    case RET => 0xF000
  }

  /**
   * The word of an instruction, written as the source writes it: the opcode
   * pattern OR-ed with the shifted operand values, with no masking.
   */
  function Encode(i: Instr): nat
  {
    var b := Base(OpOf(i));
    match i
    case Const(d, imm) => Or(Or(b, Shl(d, 8)), imm)
    case Add(d, s, t) => Or(Or(Or(b, Shl(d, 8)), Shl(s, 4)), t)
    case Sub(d, s, t) => Or(Or(Or(b, Shl(d, 8)), Shl(s, 4)), t)
    case Mul(d, s, t) => Or(Or(Or(b, Shl(d, 8)), Shl(s, 4)), t)
    case Div(d, s, t) => Or(Or(Or(b, Shl(d, 8)), Shl(s, 4)), t)
    case Ldr(d, s) => Or(Or(b, Shl(d, 8)), Shl(s, 4))
    case Str(s, t) => Or(Or(b, Shl(s, 4)), t)
    case Cmp(s, t) => Or(Or(b, Shl(s, 4)), t)
    case Brn(target) => Or(b, target)
    case Ret => b
  }

  /** Operands that fit their fields: registers 0..15, an 8-bit immediate, a 9-bit target. */
  predicate WellFormed(i: Instr)
  {
    match i
    case Const(d, imm) => d < 16 && imm < 256
    case Add(d, s, t) => d < 16 && s < 16 && t < 16
    case Sub(d, s, t) => d < 16 && s < 16 && t < 16
    case Mul(d, s, t) => d < 16 && s < 16 && t < 16
    case Div(d, s, t) => d < 16 && s < 16 && t < 16
    case Ldr(d, s) => d < 16 && s < 16
    case Str(s, t) => s < 16 && t < 16
    case Cmp(s, t) => s < 16 && t < 16
    case Brn(target) => target < 512
    case Ret => true
  }

  /** The word split into its four nibbles [15:12], [11:8], [7:4], [3:0]. */
  function Nib3(w: nat): nat { w / 4096 }
  function Nib2(w: nat): nat { (w / 256) % 16 }
  function Nib1(w: nat): nat { (w / 16) % 16 }
  function Nib0(w: nat): nat { w % 16 }

  /**
   * Reading a 16-bit word back as an instruction, field by field as `Encode`
   * lays them out; bits `Encode` leaves at zero must be zero.
   */
  function Decode(w: nat): (r: Option<Instr>)
  {
    if w >= 0x10000 then None
    else
      var n3, n2, n1, n0 := Nib3(w), Nib2(w), Nib1(w), Nib0(w);
      if n3 == 9 then Some(Const(n2, w % 256))
      else if n3 == 3 then Some(Add(n2, n1, n0))
      else if n3 == 4 then Some(Sub(n2, n1, n0))
      else if n3 == 5 then Some(Mul(n2, n1, n0))
      else if n3 == 6 then Some(Div(n2, n1, n0))
      else if n3 == 7 && n0 == 0 then Some(Ldr(n2, n1))
      else if n3 == 8 && n2 == 0 then Some(Str(n1, n0))
      else if n3 == 2 && n2 == 0 then Some(Cmp(n1, n0))
      else if w / 512 == 12 then Some(Brn(w % 512))
      else if w == 0xF000 then Some(Ret)
      else None
  }

  lemma Pow2Values()
    ensures Pow2(4) == 16 && Pow2(8) == 256 && Pow2(12) == 4096
  {
    assert Pow2(2) == 4;
    assert Pow2(4) == 16;
    assert Pow2(8) == 256 by { assert Pow2(6) == 64; }
    assert Pow2(12) == 4096 by { assert Pow2(10) == 1024; }
  }

  /** A word assembled from four nibbles. */
  function Nibbles(n3: nat, n2: nat, n1: nat, n0: nat): nat
  {
    n3 * 4096 + n2 * 256 + n1 * 16 + n0
  }

  /** OrDisjoint with the power of two written as a number. */
  lemma OrField(a: nat, b: nat, k: nat, p: nat)
    requires p == Pow2(k) && b < p
    ensures Or(a * p, b) == a * p + b
  {
    OrDisjoint(a, b, k);
  }

  /** Shifting left by 4 or 8 multiplies by 16 or 256. */
  lemma ShlValues(x: nat)
    ensures Shl(x, 4) == x * 16 && Shl(x, 8) == x * 256
  {
    Pow2Values();
  }

  /** Packing the three low nibbles by OR is addition when each field fits. */
  lemma {:induction false} OrNibbles(n3: nat, n2: nat, n1: nat, n0: nat)
    requires n2 < 16 && n1 < 16 && n0 < 16
    ensures Or(Or(Or(n3 * 4096, Shl(n2, 8)), Shl(n1, 4)), n0) == Nibbles(n3, n2, n1, n0)
    ensures Or(Or(n3 * 4096, Shl(n2, 8)), Shl(n1, 4)) == Nibbles(n3, n2, n1, 0)
    ensures Or(n3 * 4096, Shl(n2, 8)) == Nibbles(n3, n2, 0, 0)
  {
    Pow2Values();
    ShlValues(n2);
    ShlValues(n1);
    OrField(n3, n2 * 256, 12, 4096);
    var x := n3 * 4096 + n2 * 256;
    assert x == (n3 * 16 + n2) * 256;
    OrField(n3 * 16 + n2, n1 * 16, 8, 256);
    var y := x + n1 * 16;
    assert y == (n3 * 256 + n2 * 16 + n1) * 16;
    OrField(n3 * 256 + n2 * 16 + n1, n0, 4, 16);
  }

  /** With operands in range the encoding is the plain sum of its fields. */
  lemma {:induction false} EncodeFields(i: Instr)
    requires WellFormed(i)
    ensures Encode(i) == match i
      case Const(d, imm) => Nibbles(9, d, 0, 0) + imm
      case Add(d, s, t) => Nibbles(3, d, s, t)
      case Sub(d, s, t) => Nibbles(4, d, s, t)
      case Mul(d, s, t) => Nibbles(5, d, s, t)
      case Div(d, s, t) => Nibbles(6, d, s, t)
      case Ldr(d, s) => Nibbles(7, d, s, 0)
      case Str(s, t) => Nibbles(8, 0, s, t)
      case Cmp(s, t) => Nibbles(2, 0, s, t)
      case Brn(target) => 0x1800 + target
      case Ret => 0xF000
  {
    Pow2Values();
    match i
    case Const(d, imm) => EncodeConst(d, imm);
    case Add(d, s, t) => OrNibbles(3, d, s, t);
    case Sub(d, s, t) => OrNibbles(4, d, s, t);
    case Mul(d, s, t) => OrNibbles(5, d, s, t);
    case Div(d, s, t) => OrNibbles(6, d, s, t);
    case Ldr(d, s) => OrNibbles(7, d, s, 0);
    case Str(s, t) =>
      OrNibbles(8, 0, s, t);
      assert Shl(0, 8) == 0;
      OrZero(0x8000);
    case Cmp(s, t) =>
      OrNibbles(2, 0, s, t);
      assert Shl(0, 8) == 0;
      OrZero(0x2000);
    case Brn(target) => EncodeBranch(target);
    case Ret =>
  }

  /** The nibbles of a packed word are the values packed into it. */
  lemma NibblesSplit(n3: nat, n2: nat, n1: nat, n0: nat)
    requires n2 < 16 && n1 < 16 && n0 < 16
    ensures var w := Nibbles(n3, n2, n1, n0);
      Nib3(w) == n3 && Nib2(w) == n2 && Nib1(w) == n1 && Nib0(w) == n0 && w % 256 == n1 * 16 + n0
  {
    var w := Nibbles(n3, n2, n1, n0);
    DivUnique(w, 4096, n3, n2 * 256 + n1 * 16 + n0);
    DivUnique(w, 256, n3 * 16 + n2, n1 * 16 + n0);
    DivUnique(n3 * 16 + n2, 16, n3, n2);
    DivUnique(w, 16, n3 * 256 + n2 * 16 + n1, n0);
    DivUnique(n3 * 256 + n2 * 16 + n1, 16, n3 * 16 + n2, n1);
  }

  /** Every 16-bit word is the packing of its own nibbles. */
  lemma NibblesOf(w: nat)
    requires w < 0x10000
    ensures w == Nibbles(Nib3(w), Nib2(w), Nib1(w), Nib0(w)) && Nib3(w) < 16
    ensures w % 256 == Nib1(w) * 16 + Nib0(w)
  {
    var a := w / 16;
    var b := a / 16;
    var c := b / 16;
    DivDiv(w, 16, 16);
    DivDiv(w, 256, 16);
    assert w / 256 == b;
    assert w / 4096 == c by { DivDiv(w, 256, 16); }
    assert w == a * 16 + w % 16;
    assert a == b * 16 + a % 16;
    assert b == c * 16 + b % 16;
    DivUnique(w, 256, b, (a % 16) * 16 + w % 16);
  }

  /** Field separation for CONST: opcode nibble 9, register field d, low byte imm. */
  lemma ConstFields(d: nat, imm: nat)
    requires d < 16 && imm < 256
    ensures var w := Encode(Const(d, imm));
      w < 0x10000 && Nib3(w) == 9 && Nib2(w) == d && w % 256 == imm
  {
    var hi, lo := imm / 16, imm % 16;
    assert imm == hi * 16 + lo && hi < 16;
    EncodeConst(d, imm);
    NibblesSplit(9, d, hi, lo);
  }

  /** EncodeFields for CONST alone: the opcode and register nibbles, then the immediate byte by OR. */
  lemma EncodeConst(d: nat, imm: nat)
    requires d < 16 && imm < 256
    ensures Encode(Const(d, imm)) == Nibbles(9, d, 0, 0) + imm
  {
    Pow2Values();
    OrNibbles(9, d, 0, 0);
    assert Nibbles(9, d, 0, 0) == (144 + d) * Pow2(8);
    OrDisjoint(144 + d, imm, 8);
  }

  /** EncodeFields for BRn alone. */
  lemma EncodeBranch(target: nat)
    requires target < 512
    ensures Encode(Brn(target)) == 0x1800 + target
  {
    assert 0x1800 == 3 * Pow2(11) && target < Pow2(11) by {
      assert Pow2(11) == 2048 by { assert Pow2(10) == 1024; }
    }
    OrDisjoint(3, target, 11);
  }

  /** Field separation for the three-register forms ADD, SUB, MUL and DIV. */
  lemma ThreeRegFields(i: Instr)
    requires (i.Add? || i.Sub? || i.Mul? || i.Div?) && WellFormed(i)
    ensures var w := Encode(i);
      && w < 0x10000
      && Nib3(w) == (if i.Add? then 3 else if i.Sub? then 4 else if i.Mul? then 5 else 6)
      && Nib2(w) == i.d && Nib1(w) == i.s && Nib0(w) == i.t
  {
    EncodeFields(i);
    var n := if i.Add? then 3 else if i.Sub? then 4 else if i.Mul? then 5 else 6;
    NibblesSplit(n, i.d, i.s, i.t);
  }

  /** LDR leaves bits [3:0] zero; STR and CMP leave bits [11:8] zero. */
  lemma TwoRegFields(i: Instr)
    requires (i.Ldr? || i.Str? || i.Cmp?) && WellFormed(i)
    ensures var w := Encode(i);
      && w < 0x10000
      && (i.Ldr? ==> Nib3(w) == 7 && Nib2(w) == i.d && Nib1(w) == i.s && Nib0(w) == 0)
      && (i.Str? ==> Nib3(w) == 8 && Nib2(w) == 0 && Nib1(w) == i.s && Nib0(w) == i.t)
      && (i.Cmp? ==> Nib3(w) == 2 && Nib2(w) == 0 && Nib1(w) == i.s && Nib0(w) == i.t)
  {
    EncodeFields(i);
    match i
    case Ldr(d, s) => NibblesSplit(7, d, s, 0);
    case Str(s, t) => NibblesSplit(8, 0, s, t);
    case Cmp(s, t) => NibblesSplit(2, 0, s, t);
  }

  /** BRn: the top seven bits are 0001100 and the low nine bits are the absolute target. */
  lemma BrnFields(target: nat)
    requires target < 512
    ensures var w := Encode(Brn(target));
      w < 0x10000 && w / 512 == 0x0C && w % 512 == target
  {
    EncodeFields(Brn(target));
    DivUnique(0x1800 + target, 512, 12, target);
  }

  /** Decoding undoes encoding for every instruction whose operands fit. */
  lemma {:induction false} DecodeEncode(i: Instr)
    requires WellFormed(i)
    ensures Decode(Encode(i)) == Some(i)
  {
    var w := Encode(i);
    match i
    case Const(d, imm) => ConstFields(d, imm);
    case Add(_, _, _) => ThreeRegFields(i);
    case Sub(_, _, _) => ThreeRegFields(i);
    case Mul(_, _, _) => ThreeRegFields(i);
    case Div(_, _, _) => ThreeRegFields(i);
    case Ldr(_, _) => TwoRegFields(i);
    case Str(_, _) => TwoRegFields(i);
    case Cmp(_, _) => TwoRegFields(i);
    case Brn(target) =>
      BrnFields(target);
      EncodeFields(i);
      DivUnique(w, 4096, 1, 0x800 + target);
    case Ret => EncodeFields(i);
  }

  /** Encoding undoes decoding: a word that decodes is the encoding of a well-formed instruction. */
  lemma {:induction false} EncodeDecode(w: nat)
    requires Decode(w).Some?
    ensures WellFormed(Decode(w).value) && Encode(Decode(w).value) == w
  {
    var n3 := Nib3(w);
    if n3 == 9 {
      DecodeConst(w);
    } else if 3 <= n3 <= 6 {
      DecodeArith(w);
    } else if (n3 == 7 && Nib0(w) == 0) || (n3 == 8 && Nib2(w) == 0) || (n3 == 2 && Nib2(w) == 0) {
      DecodeTwoField(w);
    } else if Decode(w).value.Brn? {
      DecodeBranch(w);
    } else {
      DecodeNibbles(w, Ret, w);
    }
  }

  lemma DecodeConst(w: nat)
    requires Decode(w).Some? && Nib3(w) == 9
    ensures WellFormed(Decode(w).value) && Encode(Decode(w).value) == w
  {
    NibblesOf(w);
    DecodeNibbles(w, Const(Nib2(w), w % 256), Nibbles(9, Nib2(w), 0, 0) + w % 256);
  }

  lemma DecodeArith(w: nat)
    requires Decode(w).Some? && 3 <= Nib3(w) <= 6
    ensures WellFormed(Decode(w).value) && Encode(Decode(w).value) == w
  {
    NibblesOf(w);
    var n3, n2, n1, n0 := Nib3(w), Nib2(w), Nib1(w), Nib0(w);
    if n3 == 3 {
      DecodeNibbles(w, Add(n2, n1, n0), w);
    } else if n3 == 4 {
      DecodeNibbles(w, Sub(n2, n1, n0), w);
    } else if n3 == 5 {
      DecodeNibbles(w, Mul(n2, n1, n0), w);
    } else {
      DecodeNibbles(w, Div(n2, n1, n0), w);
    }
  }

  lemma DecodeTwoField(w: nat)
    requires Decode(w).Some?
    requires (Nib3(w) == 7 && Nib0(w) == 0) || (Nib3(w) == 8 && Nib2(w) == 0) || (Nib3(w) == 2 && Nib2(w) == 0)
    ensures WellFormed(Decode(w).value) && Encode(Decode(w).value) == w
  {
    NibblesOf(w);
    var n3, n2, n1, n0 := Nib3(w), Nib2(w), Nib1(w), Nib0(w);
    if n3 == 7 {
      DecodeNibbles(w, Ldr(n2, n1), w);
    } else if n3 == 8 {
      DecodeNibbles(w, Str(n1, n0), w);
    } else {
      DecodeNibbles(w, Cmp(n1, n0), w);
    }
  }

  /** One case of EncodeDecode: the decoded instruction i, whose fields sum to `sum`, which is w. */
  lemma DecodeNibbles(w: nat, i: Instr, sum: nat)
    requires Decode(w) == Some(i) && WellFormed(i) && sum == w
    requires sum == match i
      case Const(d, imm) => Nibbles(9, d, 0, 0) + imm
      case Add(d, s, t) => Nibbles(3, d, s, t)
      case Sub(d, s, t) => Nibbles(4, d, s, t)
      case Mul(d, s, t) => Nibbles(5, d, s, t)
      case Div(d, s, t) => Nibbles(6, d, s, t)
      case Ldr(d, s) => Nibbles(7, d, s, 0)
      case Str(s, t) => Nibbles(8, 0, s, t)
      case Cmp(s, t) => Nibbles(2, 0, s, t)
      case Brn(target) => 0x1800 + target
      case Ret => 0xF000
    ensures WellFormed(Decode(w).value) && Encode(Decode(w).value) == w
  {
    EncodeFields(i);
  }

  /** A word that decodes as a branch is the prefix 0x1800 plus its 9-bit target. */
  lemma DecodeBranch(w: nat)
    requires Decode(w).Some? && Decode(w).value.Brn?
    ensures WellFormed(Decode(w).value) && Encode(Decode(w).value) == w
  {
    var t := w % 512;
    assert Decode(w).value == Brn(t) && w / 512 == 12;
    assert w == 12 * 512 + t;
    EncodeFields(Brn(t));
  }
}
