/**
 * How the three assembler copies relate: on the canonical spelling of an
 * instruction (`OP Rd, Rs, Rt`, `CONST Rd, #imm`) every copy that knows the
 * opcode reads back the same instruction, hence emits the same word; the
 * 16-bit copy is the image copy restricted to label-free programs over its
 * opcodes.
 */
module Variants {
  import opened Errors
  import opened Text
  import opened Isa
  import opened Listing
  import Assembler
  import TestImage
  import Test16Bit

  /** A register operand as the programs write it: `R` and the number. */
  function RegTok(n: nat): string
  {
    "R" + NatToString(n)
  }

  /** A CONST immediate as the programs write it: `#` and the number. */
  function ImmTok(n: nat): string
  {
    "#" + NatToString(n)
  }

  /** The operand tokens of an instruction other than BRn, in source order. */
  function Args(i: Instr): seq<string>
    requires !i.Brn?
  {
    match i
    case Const(d, imm) => [RegTok(d), ImmTok(imm)]
    case Add(d, s, t) => [RegTok(d), RegTok(s), RegTok(t)]
    case Sub(d, s, t) => [RegTok(d), RegTok(s), RegTok(t)]
    case Mul(d, s, t) => [RegTok(d), RegTok(s), RegTok(t)]
    case Div(d, s, t) => [RegTok(d), RegTok(s), RegTok(t)]
    case Ldr(d, s) => [RegTok(d), RegTok(s)]
    case Str(s, t) => [RegTok(s), RegTok(t)]
    case Cmp(s, t) => [RegTok(s), RegTok(t)]
    case Ret => []
  }

  /** The fields of a canonical line, as both `split` tokenisers deliver them: the mnemonic, then the operands. */
  function Fields(i: Instr): seq<string>
    requires !i.Brn?
  {
    [Mnemonic(OpOf(i))] + Args(i)
  }

  /** `R` reads a register token back; so does `REG`. */
  lemma RegTokReads(n: nat)
    ensures TestImage.R(RegTok(n)) == Ok(n) && Assembler.Reg(RegTok(n)) == Ok(n)
  {
    TestImage.RText('R', n);
    Assembler.RegText(n);
  }

  /** `int(p[2][1:])` and assembler.py's `#`-removal both read an immediate token back. */
  lemma ImmTokReads(n: nat)
    ensures TestImage.R(ImmTok(n)) == Ok(n) && Assembler.Imm(ImmTok(n)) == Ok(n)
  {
    TestImage.RText('#', n);
    Assembler.ImmText(n);
  }

  lemma ImageFields3(p: seq<string>, a: nat, b: nat, c: nat)
    requires |p| == 4 && TestImage.R(p[1]) == Ok(a) && TestImage.R(p[2]) == Ok(b) && TestImage.R(p[3]) == Ok(c)
    ensures TestImage.Fields3(p) == Ok((a, b, c))
  {
    assert TestImage.Field(p, 1) == Ok(a) && TestImage.Field(p, 2) == Ok(b) && TestImage.Field(p, 3) == Ok(c);
  }

  lemma ImageFields2(p: seq<string>, a: nat, b: nat)
    requires |p| == 3 && TestImage.R(p[1]) == Ok(a) && TestImage.R(p[2]) == Ok(b)
    ensures TestImage.Fields2(p) == Ok((a, b))
  {
    assert TestImage.Field(p, 1) == Ok(a) && TestImage.Field(p, 2) == Ok(b);
  }

  /** The operand values of an instruction with two operand fields, in source order. */
  function Pair(i: Instr): (nat, nat)
    requires i.Const? || i.Ldr? || i.Str? || i.Cmp?
  {
    match i
    case Const(d, imm) => (d, imm)
    case Ldr(d, s) => (d, s)
    case Str(s, t) => (s, t)
    case Cmp(s, t) => (s, t)
  }

  /** The operand fields of a canonical three-register line read back as its registers. */
  lemma FieldsThree(i: Instr)
    requires i.Add? || i.Sub? || i.Mul? || i.Div?
    ensures TestImage.Fields3(Fields(i)) == Ok((i.d, i.s, i.t))
  {
    var p := Fields(i);
    assert p[1] == RegTok(i.d) && p[2] == RegTok(i.s) && p[3] == RegTok(i.t);
    RegTokReads(i.d);
    RegTokReads(i.s);
    RegTokReads(i.t);
    ImageFields3(p, i.d, i.s, i.t);
  }

  /** The operand fields of a canonical two-field line read back as its operand values. */
  lemma FieldsTwo(i: Instr)
    requires i.Const? || i.Ldr? || i.Str? || i.Cmp?
    ensures TestImage.Fields2(Fields(i)) == Ok(Pair(i))
  {
    var p := Fields(i);
    var a, b := Pair(i).0, Pair(i).1;
    assert p[1] == RegTok(a) && p[2] == if i.Const? then ImmTok(b) else RegTok(b);
    RegTokReads(a);
    if i.Const? {
      ImmTokReads(b);
    } else {
      RegTokReads(b);
    }
    ImageFields2(p, a, b);
  }

  /** The three-register branch of test_image.py's chain, on fields already read. */
  lemma ImageThree(p: seq<string>, labels: map<string, nat>, o: Opcode, x: (nat, nat, nat))
    requires |p| >= 1 && Lookup(p[0]) == Some(o) && o in {ADD, SUB, MUL, DIV} && TestImage.Fields3(p) == Ok(x)
    ensures TestImage.Operands(p, labels) == Ok(ThreeReg(o, x.0, x.1, x.2))
  {
  }

  /** The two-field branch of test_image.py's chain, on fields already read. */
  lemma ImageTwo(p: seq<string>, labels: map<string, nat>, o: Opcode, x: (nat, nat))
    requires |p| >= 1 && Lookup(p[0]) == Some(o) && o in {CONST, LDR, STR, CMP} && TestImage.Fields2(p) == Ok(x)
    ensures TestImage.Operands(p, labels) == Ok(TwoField(o, x.0, x.1))
  {
  }

  /** The three-register branch of test_16bit.py's chain, on fields already read. */
  lemma SixteenThree(p: seq<string>, o: Opcode, x: (nat, nat, nat))
    requires |p| >= 1 && Lookup(p[0]) == Some(o) && o in {ADD, MUL, DIV} && TestImage.Fields3(p) == Ok(x)
    ensures Test16Bit.Operands16(p) == Ok(ThreeReg(o, x.0, x.1, x.2))
  {
  }

  /** The two-field branch of test_16bit.py's chain, on fields already read. */
  lemma SixteenTwo(p: seq<string>, o: Opcode, x: (nat, nat))
    requires |p| >= 1 && Lookup(p[0]) == Some(o) && o in {CONST, LDR, STR} && TestImage.Fields2(p) == Ok(x)
    ensures Test16Bit.Operands16(p) == Ok(TwoField(o, x.0, x.1))
  {
  }

  /** test_image.py reads every non-branch instruction back from its canonical fields. */
  lemma ImageReadsBack(i: Instr, labels: map<string, nat>)
    requires !i.Brn?
    ensures TestImage.Operands(Fields(i), labels) == Ok(i)
  {
    var p, o := Fields(i), OpOf(i);
    assert Lookup(p[0]) == Some(o) by { LookupMnemonic(o); }
    if o in {ADD, SUB, MUL, DIV} {
      FieldsThree(i);
      ImageThree(p, labels, o, (i.d, i.s, i.t));
      assert ThreeReg(o, i.d, i.s, i.t) == i;
    } else if o in {CONST, LDR, STR, CMP} {
      FieldsTwo(i);
      ImageTwo(p, labels, o, Pair(i));
      assert TwoField(o, Pair(i).0, Pair(i).1) == i;
    }
  }

  /** test_16bit.py reads every instruction of its opcode set back from its canonical fields. */
  lemma SixteenReadsBack(i: Instr)
    requires OpOf(i) in Test16Bit.Ops16
    ensures Test16Bit.Operands16(Fields(i)) == Ok(i)
  {
    var o := OpOf(i);
    if o in {ADD, MUL, DIV} {
      SixteenThreeBack(i);
    } else if o in {CONST, LDR, STR} {
      SixteenTwoBack(i);
    } else {
      assert i == Ret;
      LookupMnemonic(RET);
    }
  }

  lemma SixteenThreeBack(i: Instr)
    requires OpOf(i) in {ADD, MUL, DIV}
    ensures Test16Bit.Operands16(Fields(i)) == Ok(i)
  {
    var p, o := Fields(i), OpOf(i);
    assert Lookup(p[0]) == Some(o) by { LookupMnemonic(o); }
    FieldsThree(i);
    SixteenThree(p, o, (i.d, i.s, i.t));
    assert ThreeReg(o, i.d, i.s, i.t) == i;
  }

  lemma SixteenTwoBack(i: Instr)
    requires OpOf(i) in {CONST, LDR, STR}
    ensures Test16Bit.Operands16(Fields(i)) == Ok(i)
  {
    var p, o := Fields(i), OpOf(i);
    assert Lookup(p[0]) == Some(o) by { LookupMnemonic(o); }
    FieldsTwo(i);
    SixteenTwo(p, o, Pair(i));
    assert TwoField(o, Pair(i).0, Pair(i).1) == i;
  }

  lemma AsmRegs3(op: string, args: seq<string>, a: nat, b: nat, c: nat)
    requires |args| == 3
    requires Assembler.Reg(args[0]) == Ok(a) && Assembler.Reg(args[1]) == Ok(b) && Assembler.Reg(args[2]) == Ok(c)
    ensures Assembler.Regs3(op, args) == Ok((a, b, c))
  {
  }

  lemma AsmRegs2(op: string, args: seq<string>, a: nat, b: nat)
    requires |args| == 2 && Assembler.Reg(args[0]) == Ok(a) && Assembler.Reg(args[1]) == Ok(b)
    ensures Assembler.Regs2(op, args) == Ok((a, b))
  {
  }

  /** The CONST branch of assembler.py's dispatch, on operands already read. */
  lemma AsmConstBranch(op: string, args: seq<string>, labels: map<string, nat>, x: (nat, nat))
    requires Lookup(op) == Some(CONST) && Assembler.RegImm(op, args) == Ok(x)
    ensures Assembler.Operands(op, args, labels) == Ok(Const(x.0, x.1))
  {
  }

  /** The ADD and MUL branches of assembler.py's dispatch, on operands already read. */
  lemma AsmThreeBranch(op: string, args: seq<string>, labels: map<string, nat>, o: Opcode, x: (nat, nat, nat))
    requires Lookup(op) == Some(o) && o in {ADD, MUL} && Assembler.Regs3(op, args) == Ok(x)
    ensures Assembler.Operands(op, args, labels) == Ok(ThreeReg(o, x.0, x.1, x.2))
  {
  }

  /** The LDR, STR and CMP branches of assembler.py's dispatch, on operands already read. */
  lemma AsmTwoBranch(op: string, args: seq<string>, labels: map<string, nat>, o: Opcode, x: (nat, nat))
    requires Lookup(op) == Some(o) && o in {LDR, STR, CMP} && Assembler.Regs2(op, args) == Ok(x)
    ensures Assembler.Operands(op, args, labels) == Ok(TwoField(o, x.0, x.1))
  {
  }

  /** assembler.py's CONST branch on canonical operands. */
  lemma AsmConst(d: nat, imm: nat, labels: map<string, nat>)
    ensures Assembler.Operands("CONST", [RegTok(d), ImmTok(imm)], labels) == Ok(Const(d, imm))
  {
    var args := [RegTok(d), ImmTok(imm)];
    assert Assembler.RegImm("CONST", args) == Ok((d, imm)) by {
      RegTokReads(d);
      ImmTokReads(imm);
    }
    assert Lookup("CONST") == Some(CONST) by { LookupMnemonic(CONST); }
    AsmConstBranch("CONST", args, labels, (d, imm));
  }

  /** assembler.py's ADD and MUL branches on canonical operands. */
  lemma AsmThree(i: Instr, labels: map<string, nat>)
    requires i.Add? || i.Mul?
    ensures Assembler.Operands(Mnemonic(OpOf(i)), Args(i), labels) == Ok(i)
  {
    var o, op, args := OpOf(i), Mnemonic(OpOf(i)), Args(i);
    assert Assembler.Regs3(op, args) == Ok((i.d, i.s, i.t)) by {
      RegTokReads(i.d); RegTokReads(i.s); RegTokReads(i.t);
      AsmRegs3(op, args, i.d, i.s, i.t);
    }
    assert Lookup(op) == Some(o) by { LookupMnemonic(o); }
    AsmThreeBranch(op, args, labels, o, (i.d, i.s, i.t));
    assert ThreeReg(o, i.d, i.s, i.t) == i;
  }

  /** assembler.py's LDR, STR and CMP branches on canonical operands. */
  lemma AsmTwo(i: Instr, labels: map<string, nat>)
    requires i.Ldr? || i.Str? || i.Cmp?
    ensures Assembler.Operands(Mnemonic(OpOf(i)), Args(i), labels) == Ok(i)
  {
    var o, op, args := OpOf(i), Mnemonic(OpOf(i)), Args(i);
    var a, b := Pair(i).0, Pair(i).1;
    assert Assembler.Regs2(op, args) == Ok((a, b)) by {
      assert args == [RegTok(a), RegTok(b)];
      RegTokReads(a); RegTokReads(b);
      AsmRegs2(op, args, a, b);
    }
    assert Lookup(op) == Some(o) by { LookupMnemonic(o); }
    AsmTwoBranch(op, args, labels, o, (a, b));
    assert TwoField(o, a, b) == i;
  }

  /** assembler.py reads every instruction of its opcode set but BRn back from the canonical mnemonic and operands. */
  lemma AssemblerReadsBack(i: Instr, labels: map<string, nat>)
    requires OpOf(i) in Assembler.Ops && !i.Brn?
    ensures Assembler.Operands(Mnemonic(OpOf(i)), Args(i), labels) == Ok(i)
  {
    match i
    case Const(d, imm) => AsmConst(d, imm, labels);
    case Add(_, _, _) => AsmThree(i, labels);
    case Mul(_, _, _) => AsmThree(i, labels);
    case Ldr(_, _) => AsmTwo(i, labels);
    case Str(_, _) => AsmTwo(i, labels);
    case Cmp(_, _) => AsmTwo(i, labels);
    case Ret =>
  }

  /** A non-empty word of ASCII letters is a single field. */
  lemma LettersPlain(w: string)
    requires w != [] && forall k :: 0 <= k < |w| ==> 'A' <= w[k] <= 'z'
    ensures Plain(w)
  {
  }

  /** Every mnemonic is a single field. */
  lemma MnemonicPlain(o: Opcode)
    ensures Plain(Mnemonic(o))
  {
    LettersPlain(Mnemonic(o));
  }

  /** A letter followed by a numeral is a single field: neither holds a comma or a blank. */
  lemma TokenPlain(c: char, n: nat)
    requires !IsCommaOrSpace(c)
    ensures Plain([c] + NatToString(n))
  {
    var w, ds := [c] + NatToString(n), NatToString(n);
    forall k | 0 <= k < |w| ensures !IsCommaOrSpace(w[k]) {
      if k > 0 {
        assert w[k] == ds[k - 1];
      }
    }
  }

  /** Every canonical field is a single field. */
  lemma FieldsPlain(i: Instr)
    requires !i.Brn?
    ensures forall k :: 0 <= k < |Fields(i)| ==> Plain(Fields(i)[k])
  {
    var f := Fields(i);
    MnemonicPlain(OpOf(i));
    forall n: nat ensures Plain(RegTok(n)) && Plain(ImmTok(n)) {
      TokenPlain('R', n);
      TokenPlain('#', n);
      assert RegTok(n) == ['R'] + NatToString(n) && ImmTok(n) == ['#'] + NatToString(n);
    }
    forall k | 1 <= k < |f| ensures Plain(f[k]) {
      assert f[k] == Args(i)[k - 1];
    }
  }

  /**
   * The canonical text of an instruction is `Join(Fields(i))`, as in `ADD R1, R1, R1`;
   * assembler.py assembles it to the instruction's encoding at any pc.
   */
  lemma AssemblerCanonical(i: Instr, labels: map<string, nat>, pc: nat)
    requires OpOf(i) in Assembler.Ops && !i.Brn?
    ensures Assembler.AssembleText(Join(Fields(i)), labels, pc) == Ok(Encode(i))
  {
    var f := Fields(i);
    assert SplitFields(Join(f)) == f by {
      FieldsPlain(i);
      SplitJoin(f);
    }
    assert f[0] == Mnemonic(OpOf(i)) && f[1..] == Args(i);
    AssemblerReadsBack(i, labels);
    AssembleFieldsText(Join(f), Mnemonic(OpOf(i)), Args(i), labels, pc);
  }

  /** assembler.py's line pass reads the opcode and operands the field splitter yields. */
  lemma AssembleFieldsText(line: string, op: string, args: seq<string>, labels: map<string, nat>, pc: nat)
    requires SplitFields(line) == [op] + args
    ensures Assembler.AssembleText(line, labels, pc) == Assembler.AssembleLine(op, args, labels, pc)
  {
    assert ([op] + args)[1..] == args;
  }

  /** assembler.py assembles `BRn name` to the table's absolute address for name, or fails with KeyError. */
  lemma AssemblerCanonicalBranch(name: string, labels: map<string, nat>, pc: nat)
    requires Plain(name)
    ensures Assembler.AssembleText(Join(["BRn", name]), labels, pc)
      == if name in labels then Ok(Encode(Brn(labels[name]))) else Err(UndefinedLabel(name))
  {
    assert SplitFields(Join(["BRn", name])) == ["BRn", name] by {
      MnemonicPlain(BRn);
      SplitJoin(["BRn", name]);
    }
    Assembler.BranchLine(Join(["BRn", name]), labels, pc);
  }

  /** test_image.py and test_16bit.py tokenise the canonical text of an instruction back to its fields. */
  lemma CanonicalTokens(i: Instr)
    requires !i.Brn?
    ensures TestImage.Tokens(Join(Fields(i))) == Fields(i)
  {
    FieldsPlain(i);
    TestImage.TokensJoin(Fields(i));
  }

  /**
   * The same line of text, the canonical `OP Rd, ...` of an instruction whose
   * opcode all three copies know, is assembled to Encode(i) by each of them.
   */
  lemma CanonicalLineAllCopies(i: Instr, labels: map<string, nat>, pc: nat)
    requires OpOf(i) in Assembler.Ops * Test16Bit.Ops16
    ensures Assembler.AssembleText(Join(Fields(i)), labels, pc) == Ok(Encode(i))
    ensures TestImage.EncodeLine(Join(Fields(i)), labels) == Ok(Encode(i))
    ensures Test16Bit.EncodeLine16(Join(Fields(i))) == Ok(Encode(i))
  {
    assert !i.Brn?;
    AssemblerCanonical(i, labels, pc);
    CanonicalTokens(i);
    ImageReadsBack(i, labels);
    SixteenReadsBack(i);
  }

  /** The canonical line of every non-branch opcode assembler.py knows is assembled alike by test_image.py. */
  lemma CanonicalLineImage(i: Instr, labels: map<string, nat>, pc: nat)
    requires OpOf(i) in Assembler.Ops && !i.Brn?
    ensures Assembler.AssembleText(Join(Fields(i)), labels, pc) == Ok(Encode(i))
    ensures TestImage.EncodeLine(Join(Fields(i)), labels) == Ok(Encode(i))
  {
    AssemblerCanonical(i, labels, pc);
    CanonicalTokens(i);
    ImageReadsBack(i, labels);
  }

  /** The line `BRn name` is assembled alike by assembler.py and test_image.py, or fails alike. */
  lemma CanonicalBranchImage(name: string, labels: map<string, nat>, pc: nat)
    requires Plain(name)
    ensures Assembler.AssembleText(Join(["BRn", name]), labels, pc) == TestImage.EncodeLine(Join(["BRn", name]), labels)
  {
    MnemonicPlain(BRn);
    TestImage.TokensJoin(["BRn", name]);
    AssemblerCanonicalBranch(name, labels, pc);
    BranchAgrees(name, labels, pc);
  }

  /**
   * The opcodes all three copies know (CONST, ADD, MUL, LDR, STR, RET) are
   * read identically, so all three emit Encode(i) for them.
   */
  lemma SharedOpcodesAgree(i: Instr, labels: map<string, nat>, pc: nat)
    requires OpOf(i) in Assembler.Ops * Test16Bit.Ops16
    ensures Assembler.AssembleLine(Mnemonic(OpOf(i)), Args(i), labels, pc) == Ok(Encode(i))
    ensures TestImage.Operands(Fields(i), labels) == Ok(i)
    ensures Test16Bit.Operands16(Fields(i)) == Ok(i)
  {
    AssemblerReadsBack(i, labels);
    ImageReadsBack(i, labels);
    SixteenReadsBack(i);
  }

  /**
   * Every opcode assembler.py knows but BRn, CMP included, is read
   * identically by assembler.py and test_image.py, so both emit Encode(i).
   */
  lemma AssemblerImageAgree(i: Instr, labels: map<string, nat>, pc: nat)
    requires OpOf(i) in Assembler.Ops && !i.Brn?
    ensures Assembler.AssembleLine(Mnemonic(OpOf(i)), Args(i), labels, pc) == Ok(Encode(i))
    ensures TestImage.Operands(Fields(i), labels) == Ok(i)
  {
    AssemblerReadsBack(i, labels);
    ImageReadsBack(i, labels);
  }

  /** A branch to a name resolves identically in assembler.py and test_image.py, or fails in both. */
  lemma BranchAgrees(name: string, labels: map<string, nat>, pc: nat)
    ensures Assembler.Operands("BRn", [name], labels) == TestImage.Operands(["BRn", name], labels)
    ensures name in labels ==> TestImage.Operands(["BRn", name], labels) == Ok(Brn(labels[name]))
    ensures name !in labels ==> TestImage.Operands(["BRn", name], labels) == Err(UndefinedLabel(name))
  {
    LookupMnemonic(BRn);
  }

  /** Where the 16-bit copy accepts a line's fields, the image copy reads the same instruction. */
  lemma SixteenWithinImage(p: seq<string>, labels: map<string, nat>)
    requires |p| >= 1 && Test16Bit.Operands16(p).Ok?
    ensures TestImage.Operands(p, labels) == Test16Bit.Operands16(p)
  {
  }

  /** Where the 16-bit copy encodes a line, the image copy encodes it to the same word. */
  lemma SixteenLineWithinImage(line: string, labels: map<string, nat>)
    requires Test16Bit.EncodeLine16(line).Ok?
    ensures TestImage.EncodeLine(line, labels) == Test16Bit.EncodeLine16(line)
  {
    SixteenWithinImage(TestImage.Tokens(line), labels);
  }

  /** Without label lines there is nothing for pass 1 to do: every line is an instruction line and the table is empty. */
  lemma NoLabelLines(lines: seq<string>)
    requires forall k :: 0 <= k < |lines| ==> !IsLabel(lines[k])
    ensures Instructions(lines) == lines && Labels(lines) == map[]
  {
    NoLabelInstructions(lines);
    NoLabelTable(lines);
  }

  /** Every line is an instruction line when no line is a label. */
  lemma {:induction false} NoLabelInstructions(lines: seq<string>)
    requires forall k :: 0 <= k < |lines| ==> !IsLabel(lines[k])
    ensures Instructions(lines) == lines
  {
    if lines != [] {
      var prefix, last := lines[..|lines| - 1], lines[|lines| - 1];
      assert forall k :: 0 <= k < |prefix| ==> prefix[k] == lines[k];
      NoLabelInstructions(prefix);
      assert Instructions(lines) == prefix + [last];
      assert prefix + [last] == lines;
    }
  }

  /** Pass 1 enters nothing in the table when no line is a label. */
  lemma {:induction false} NoLabelTable(lines: seq<string>)
    requires forall k :: 0 <= k < |lines| ==> !IsLabel(lines[k])
    ensures Labels(lines) == map[]
  {
    if lines != [] {
      var prefix := lines[..|lines| - 1];
      assert forall k :: 0 <= k < |prefix| ==> prefix[k] == lines[k];
      NoLabelTable(prefix);
    }
  }

  /**
   * A label-free program the 16-bit copy assembles is assembled to the same
   * words by the two-pass image copy.
   */
  lemma LabelFreeProgramsAgree(asm: string)
    requires forall k :: 0 <= k < |Preprocess(asm)| ==> !IsLabel(Preprocess(asm)[k])
    requires Test16Bit.AssembleProgram16(asm).Ok?
    ensures TestImage.AssembleProgram(asm) == Test16Bit.AssembleProgram16(asm)
  {
    var lines := Preprocess(asm);
    NoLabelLines(lines);
    var r16 := Test16Bit.SinglePass(SplitLines(asm));
    assert r16 == EncodeAll(lines, Test16Bit.LineEncoder16());
    Test16Bit.ProgramWords16(SplitLines(asm));
    TestImage.ProgramWords(lines);
    forall k | 0 <= k < |lines|
      ensures TestImage.EncodeLine(lines[k], map[]) == Test16Bit.EncodeLine16(lines[k])
    {
      SixteenLineWithinImage(lines[k], map[]);
    }
    var ri := TestImage.Passes(lines);
    assert ri.Ok?;
    assert ri.value == r16.value;
  }
}
