/**
 * Worked examples of the instruction set and of both passes of assembler.py,
 * on the cleaned lines of two programs: a seven-line loop program, and the
 * dot-product demo at the end of assembler.py.
 */
module Vectors {
  import opened Errors
  import opened Text
  import opened Isa
  import opened Listing
  import opened Variants
  import Assembler

  /** The numerals the examples use. */
  lemma Numerals()
    ensures NatToString(0) == "0" && NatToString(1) == "1" && NatToString(4) == "4"
  {
  }

  /** `CONST R1, #0` assembles to 0x9100. */
  lemma ConstR1Zero(labels: map<string, nat>, pc: nat)
    ensures Assembler.AssembleLine("CONST", ["R1", "#0"], labels, pc) == Ok(0x9100)
  {
    assert RegTok(1) == "R1" && ImmTok(0) == "#0" by { Numerals(); }
    AsmConst(1, 0, labels);
    assert Encode(Const(1, 0)) == 0x9100 by { EncodeFields(Const(1, 0)); }
  }

  /** The loop program: two constants, a label, an add, a compare, a branch back and a return. */
  function Sample(): seq<string>
  {
    ["CONST R1, #0", "CONST R4, #4", "LOOP:", "ADD R1, R1, R1", "CMP R1, R4", "BRn LOOP", "RET"]
  }

  /** Pass 1 on the loop program: only line 2 is a label line, and LOOP is bound to address 2. */
  lemma SampleLabels()
    ensures Labels(Sample()) == map["LOOP" := 2]
    ensures Instructions(Sample()) == ["CONST R1, #0", "CONST R4, #4", "ADD R1, R1, R1", "CMP R1, R4", "BRn LOOP", "RET"]
  {
    var s := Sample();
    assert !IsLabel(s[0]) && !IsLabel(s[1]) && IsLabel(s[2]) && LabelName(s[2]) == "LOOP";
    assert !IsLabel(s[3]) && !IsLabel(s[4]) && !IsLabel(s[5]) && !IsLabel(s[6]);
    OneLabelTable(s, 2);
    OneLabelInstructions(s, 2);
  }

  /** The canonical fields of the loop program's instructions. */
  lemma SampleFields()
    ensures Fields(Const(1, 0)) == ["CONST", "R1", "#0"] && Fields(Const(4, 4)) == ["CONST", "R4", "#4"]
    ensures Fields(Add(1, 1, 1)) == ["ADD", "R1", "R1", "R1"] && Fields(Cmp(1, 4)) == ["CMP", "R1", "R4"]
    ensures Fields(Ret) == ["RET"]
  {
    Numerals();
    assert RegTok(1) == "R1" && RegTok(4) == "R4" && ImmTok(0) == "#0" && ImmTok(4) == "#4";
  }

  /** The instruction lines of the loop program are the canonical texts of its instructions. */
  lemma SampleTexts()
    ensures Join(Fields(Const(1, 0))) == "CONST R1, #0" && Join(Fields(Const(4, 4))) == "CONST R4, #4"
    ensures Join(Fields(Add(1, 1, 1))) == "ADD R1, R1, R1" && Join(Fields(Cmp(1, 4))) == "CMP R1, R4"
    ensures Join(["BRn", "LOOP"]) == "BRn LOOP" && Join(Fields(Ret)) == "RET"
  {
    ConstText(1, 0, "R1", "#0");
    ConstText(4, 4, "R4", "#4");
    AddText();
    CmpText();
    BranchText();
    RetText();
  }

  lemma ConstText(d: nat, imm: nat, rd: string, im: string)
    requires RegTok(d) == rd && ImmTok(imm) == im
    ensures Join(Fields(Const(d, imm))) == "CONST " + rd + ", " + im
  {
    assert Fields(Const(d, imm)) == ["CONST", rd, im];
    JoinShapes("CONST", rd, im, "");
  }

  lemma AddText()
    ensures Join(Fields(Add(1, 1, 1))) == "ADD R1, R1, R1"
  {
    SampleFields();
    JoinShapes("ADD", "R1", "R1", "R1");
  }

  lemma CmpText()
    ensures Join(Fields(Cmp(1, 4))) == "CMP R1, R4"
  {
    SampleFields();
    JoinShapes("CMP", "R1", "R4", "");
  }

  lemma BranchText()
    ensures Join(["BRn", "LOOP"]) == "BRn LOOP"
  {
    JoinShapes("BRn", "LOOP", "", "");
  }

  lemma RetText()
    ensures Join(Fields(Ret)) == "RET"
  {
    SampleFields();
    JoinShapes("RET", "", "", "");
  }

  /** The words of the loop program's instructions. */
  lemma SampleEncodings()
    ensures Encode(Const(1, 0)) == 0x9100 && Encode(Const(4, 4)) == 0x9404
    ensures Encode(Add(1, 1, 1)) == 0x3111 && Encode(Cmp(1, 4)) == 0x2014
    ensures Encode(Brn(2)) == 0x1802 && Encode(Ret) == 0xF000
  {
    EncodeFields(Const(1, 0));
    EncodeFields(Const(4, 4));
    EncodeFields(Add(1, 1, 1));
    EncodeFields(Cmp(1, 4));
    EncodeFields(Brn(2));
  }

  /** `CONST R1, #0` assembles to 0x9100. */
  lemma SampleConstR1(labels: map<string, nat>, pc: nat)
    ensures Assembler.AssembleText("CONST R1, #0", labels, pc) == Ok(0x9100)
  {
    assert Join(Fields(Const(1, 0))) == "CONST R1, #0" by { SampleTexts(); }
    assert Encode(Const(1, 0)) == 0x9100 by { SampleEncodings(); }
    AssemblerCanonical(Const(1, 0), labels, pc);
  }

  /** `CONST R4, #4` assembles to 0x9404. */
  lemma SampleConstR4(labels: map<string, nat>, pc: nat)
    ensures Assembler.AssembleText("CONST R4, #4", labels, pc) == Ok(0x9404)
  {
    assert Join(Fields(Const(4, 4))) == "CONST R4, #4" by { SampleTexts(); }
    assert Encode(Const(4, 4)) == 0x9404 by { SampleEncodings(); }
    AssemblerCanonical(Const(4, 4), labels, pc);
  }

  /** `ADD R1, R1, R1` assembles to 0x3111. */
  lemma SampleAdd(labels: map<string, nat>, pc: nat)
    ensures Assembler.AssembleText("ADD R1, R1, R1", labels, pc) == Ok(0x3111)
  {
    assert Join(Fields(Add(1, 1, 1))) == "ADD R1, R1, R1" by { AddText(); }
    assert Encode(Add(1, 1, 1)) == 0x3111 by { SampleEncodings(); }
    AssemblerCanonical(Add(1, 1, 1), labels, pc);
  }

  /** `CMP R1, R4` assembles to 0x2014. */
  lemma SampleCmp(labels: map<string, nat>, pc: nat)
    ensures Assembler.AssembleText("CMP R1, R4", labels, pc) == Ok(0x2014)
  {
    assert Join(Fields(Cmp(1, 4))) == "CMP R1, R4" by { CmpText(); }
    assert Encode(Cmp(1, 4)) == 0x2014 by { SampleEncodings(); }
    AssemblerCanonical(Cmp(1, 4), labels, pc);
  }

  /** `RET` assembles to 0xF000. */
  lemma SampleRet(labels: map<string, nat>, pc: nat)
    ensures Assembler.AssembleText("RET", labels, pc) == Ok(0xF000)
  {
    assert Join(Fields(Ret)) == "RET" by { RetText(); }
    AssemblerCanonical(Ret, labels, pc);
  }

  /** `BRn LOOP` assembles to 0x1802 once LOOP is bound to address 2. */
  lemma SampleBranch(pc: nat)
    ensures Assembler.AssembleText("BRn LOOP", map["LOOP" := 2], pc) == Ok(0x1802)
  {
    assert Join(["BRn", "LOOP"]) == "BRn LOOP" by { BranchText(); }
    assert Encode(Brn(2)) == 0x1802 by { SampleEncodings(); }
    LettersPlain("LOOP");
    AssemblerCanonicalBranch("LOOP", map["LOOP" := 2], pc);
  }

  /** Pass 2 on any program with six instruction lines, given what each of them assembles to at its own pc. */
  lemma SixWords(lines: seq<string>, labels: map<string, nat>,
                 l0: string, l1: string, l2: string, l3: string, l4: string, l5: string,
                 w0: nat, w1: nat, w2: nat, w3: nat, w4: nat, w5: nat)
    requires Instructions(lines) == [l0, l1, l2, l3, l4, l5] && Labels(lines) == labels
    requires Assembler.AssembleText(l0, labels, 0) == Ok(w0) && Assembler.AssembleText(l1, labels, 1) == Ok(w1)
    requires Assembler.AssembleText(l2, labels, 2) == Ok(w2) && Assembler.AssembleText(l3, labels, 3) == Ok(w3)
    requires Assembler.AssembleText(l4, labels, 4) == Ok(w4) && Assembler.AssembleText(l5, labels, 5) == Ok(w5)
    ensures Assembler.Passes(lines) == Ok([w0, w1, w2, w3, w4, w5])
  {
    var ins, words := [l0, l1, l2, l3, l4, l5], [w0, w1, w2, w3, w4, w5];
    forall k | 0 <= k < 6 ensures Assembler.AssembleText(ins[k], labels, k) == Ok(words[k]) {
      if k == 0 {} else if k == 1 {} else if k == 2 {} else if k == 3 {} else if k == 4 {} else {}
    }
    Assembler.PassesOf(lines, words);
  }

  /** Pass 2 on the loop program: six words, the branch resolved to absolute address 2. */
  lemma SampleWords()
    ensures Assembler.Passes(Sample()) == Ok([0x9100, 0x9404, 0x3111, 0x2014, 0x1802, 0xF000])
  {
    var labels := map["LOOP" := 2];
    SampleConstR1(labels, 0);
    SampleConstR4(labels, 1);
    SampleAdd(labels, 2);
    SampleCmp(labels, 3);
    SampleBranch(4);
    SampleRet(labels, 5);
    SampleLabels();
    SixWords(Sample(), labels, "CONST R1, #0", "CONST R4, #4", "ADD R1, R1, R1", "CMP R1, R4", "BRn LOOP", "RET",
             0x9100, 0x9404, 0x3111, 0x2014, 0x1802, 0xF000);
  }

  /** The cleaned lines of the dot-product demo at the end of assembler.py: six constants, the loop label, the loop body, the store and the return. */
  function Demo(): seq<string>
  {
    ["CONST R1, #0", "CONST R2, #8", "CONST R3, #16", "CONST R6, #0", "CONST R7, #0", "CONST R0, #1",
     "LOOP:",
     "ADD R4, R1, R7", "LDR R4, R4", "ADD R5, R2, R7", "LDR R5, R5", "MUL R8, R4, R5", "ADD R6, R6, R8",
     "ADD R7, R7, R0", "CONST R4, #4", "CMP R7, R4", "BRn LOOP",
     "STR R3, R6", "RET"]
  }

  /** Pass 1 on the demo: LOOP follows six instructions, so it is bound to address 6. */
  lemma DemoLabels()
    ensures Labels(Demo()) == map["LOOP" := 6]
  {
    var d := Demo();
    assert IsLabel(d[6]) && LabelName(d[6]) == "LOOP";
    assert forall k :: 0 <= k < 6 ==> !IsLabel(d[k]);
    assert forall k :: 7 <= k < |d| ==> !IsLabel(d[k]);
    OneLabelTable(d, 6);
  }

  /** `BRn LOOP` assembles to 0x1806 under any table that binds LOOP to 6, at any pc. */
  lemma BranchToSix(labels: map<string, nat>, pc: nat)
    requires "LOOP" in labels && labels["LOOP"] == 6
    ensures Assembler.AssembleText("BRn LOOP", labels, pc) == Ok(0x1806)
    ensures Assembler.AssembleLine("BRn", ["LOOP"], labels, pc) == Ok(0x1806)
  {
    BranchAgrees("LOOP", labels, pc);
    EncodeBranch(6);
    assert SplitFields("BRn LOOP") == ["BRn", "LOOP"] by {
      BranchText();
      MnemonicPlain(BRn);
      LettersPlain("LOOP");
      SplitJoin(["BRn", "LOOP"]);
    }
    AssembleFieldsText("BRn LOOP", "BRn", ["LOOP"], labels, pc);
  }

  /** The demo's `BRn LOOP` assembles to 0x1806, a branch back to absolute address 6, at any pc. */
  lemma DemoBranch(pc: nat)
    ensures Assembler.AssembleText("BRn LOOP", Labels(Demo()), pc) == Ok(0x1806)
    ensures Assembler.AssembleLine("BRn", ["LOOP"], Labels(Demo()), pc) == Ok(0x1806)
  {
    DemoLabels();
    BranchToSix(Labels(Demo()), pc);
  }

  /**
   * The hand-encoded kernel of test/test_kernel1_mul.py agrees with Encode:
   * each word listed there is the encoding of the instruction its comment names.
   */
  lemma Kernel1Words()
    ensures Encode(Const(1, 0)) == 0x9100 && Encode(Const(2, 8)) == 0x9208 && Encode(Const(3, 16)) == 0x9310
    ensures Encode(Ldr(4, 1)) == 0x7410 && Encode(Ldr(5, 2)) == 0x7520
    ensures Encode(Mul(6, 4, 5)) == 0x5645 && Encode(Str(3, 6)) == 0x8036 && Encode(Ret) == 0xF000
  {
    EncodeFields(Const(1, 0));
    EncodeFields(Const(2, 8));
    EncodeFields(Const(3, 16));
    EncodeFields(Ldr(4, 1));
    EncodeFields(Ldr(5, 2));
    EncodeFields(Mul(6, 4, 5));
    EncodeFields(Str(3, 6));
  }
}
