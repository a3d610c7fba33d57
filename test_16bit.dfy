/**
 * The mini assembler of test/test_16bit.py: one pass, no labels, and the
 * opcodes CONST, ADD, MUL, DIV, LDR, STR and RET.  Its `R` and its
 * tokenising, `line.replace(",", "").split()`, are the same text as in
 * test/test_image.py and are taken from there.
 */
module Test16Bit {
  import opened Errors
  import opened Text
  import opened Isa
  import opened Listing
  import opened TestImage

  /** The opcodes this copy knows. */
  const Ops16: set<Opcode> := {CONST, ADD, MUL, DIV, LDR, STR, RET}

  /** The `if`/`elif` chain on the fields p of one line; anything outside the chain raises ValueError. */
  function Operands16(p: seq<string>): (r: Result<Instr>)
    requires |p| >= 1
    ensures r.Ok? ==> Lookup(p[0]) == Some(OpOf(r.value)) && OpOf(r.value) in Ops16
  {
    var o := Lookup(p[0]);
    if o.None? || o.value !in Ops16 then Err(UnknownOpcode(p[0]))
    else if o.value in {ADD, MUL, DIV} then
      var x :- Fields3(p);
      Ok(ThreeReg(o.value, x.0, x.1, x.2))
    else if o.value in {CONST, LDR, STR} then
      var x :- Fields2(p);
      Ok(TwoField(o.value, x.0, x.1))
    else
      Ok(Ret)
  }

  /** The word appended for one cleaned, non-empty line. */
  function EncodeLine16(line: string): Result<nat>
  {
    var p := Tokens(line);
    if p == [] then Err(MissingOperand(0))
    else
      var i :- Operands16(p);
      Ok(Encode(i))
  }

  /** Every cleaned line is encoded, whatever its position. */
  function LineEncoder16(): (string, nat) -> Result<nat>
  {
    (line, pc) => EncodeLine16(line)
  }

  /** What `assemble(asm)` returns for the raw lines of `asm`: one word per kept line. */
  function SinglePass(raw: seq<string>): Result<seq<nat>>
  {
    EncodeAll(CleanLines(raw), LineEncoder16())
  }

  /** What `assemble(asm)` returns. */
  function AssembleProgram16(asm: string): Result<seq<nat>>
  {
    SinglePass(SplitLines(asm))
  }

  /** `assemble(asm)`. */
  method Assemble16(asm: string) returns (r: Result<seq<nat>>)
    ensures r == AssembleProgram16(asm)
  {
    r := EncodeRawLines(SplitLines(asm), LineEncoder16());
  }

  /**
   * Each kept line produces exactly one word, in order; there is no label
   * pass, and assembly fails exactly when some kept line fails.
   */
  lemma ProgramWords16(raw: seq<string>)
    ensures var lines, r := CleanLines(raw), SinglePass(raw);
      && (r.Ok? <==> forall i :: 0 <= i < |lines| ==> EncodeLine16(lines[i]).Ok?)
      && (r.Ok? ==> (|r.value| == |lines|
            && forall i :: 0 <= i < |lines| ==> r.value[i] == EncodeLine16(lines[i]).value))
  {
    var lines := CleanLines(raw);
    var enc := LineEncoder16();
    assert SinglePass(raw) == EncodeAll(lines, enc);
    EncodeAllWords(lines, enc);
    forall i | 0 <= i < |lines| ensures enc(lines[i], i) == EncodeLine16(lines[i]) {
    }
  }

  /** CMP, BRn and SUB are not in this copy's chain: they raise ValueError. */
  lemma NoBranchOrSub(p: seq<string>)
    requires |p| >= 1 && p[0] in {"CMP", "BRn", "SUB"}
    ensures Operands16(p) == Err(UnknownOpcode(p[0]))
  {
  }

  /** A label line such as `LOOP:`, with no blank or comma in it, is read as an unknown opcode. */
  lemma LabelLineFails(line: string)
    requires IsLabel(line) && NoneIn(line, IsComma) && NoneIn(line, IsSpace)
    ensures EncodeLine16(line) == Err(UnknownOpcode(line))
  {
    WithoutNone(line, IsComma);
    WordsSingle(line);
    assert Tokens(line) == [line];
  }

  /** `CONST R2, #768` reads register 2 and the immediate 768: nothing limits it to 8 bits. */
  lemma ConstOverflowFields()
    ensures Operands16(["CONST", "R2", "#768"]) == Ok(Const(2, 768))
  {
    var p := ["CONST", "R2", "#768"];
    assert Fields2(p) == Ok((2, 768)) by {
      assert R("R2") == Ok(2) by {
        assert NatToString(2) == "2" && ['R'] + "2" == "R2";
        RText('R', 2);
      }
      assert R("#768") == Ok(768) by {
        assert NatToString(768) == "768" && ['#'] + "768" == "#768";
        RText('#', 768);
      }
      assert Field(p, 1) == R("R2") && Field(p, 2) == R("#768");
    }
    assert Lookup("CONST") == Some(CONST);
  }

  /** The immediate is not masked: 768 is OR-ed into the register field and the word is 0x9300. */
  lemma ConstOverflowWord()
    ensures Encode(Const(2, 768)) == 0x9300
  {
    Pow2Values();
    assert Bits.Or(0x9000, Bits.Shl(2, 8)) == 0x9200 by {
      Bits.OrDisjoint(9, 512, 12);
    }
    assert Bits.Or(0x92, 3) == 0x93 by {
      Bits.OrStep(0x92, 3);
      Bits.OrStep(0x49, 1);
      Bits.OrZero(0x24);
    }
    Bits.OrShifted(0x92, 3, 8);
  }
}
