/**
 * assembler.py: the encoder `assemble_line` and the two-pass driver `assemble`.
 * Operands are split by `re.split(r"[,\s]+", line)`, registers are read by
 * `REG` (every `R` removed, then `int`), immediates by removing every `#`.
 */
module Assembler {
  import opened Errors
  import opened Text
  import opened Isa
  import opened Listing

  predicate IsR(c: char) { c == 'R' }
  predicate IsHash(c: char) { c == '#' }

  /** `REG(r)`: `int(r.replace("R", ""))`. */
  function Reg(r: string): Result<nat>
  {
    Int(Without(r, IsR))
  }

  /** The immediate of CONST: `int(imm.replace("#", ""))`. */
  function Imm(tok: string): Result<nat>
  {
    Int(Without(tok, IsHash))
  }

  /** The opcodes `assemble_line` knows. */
  const Ops: set<Opcode> := {CONST, ADD, MUL, LDR, STR, CMP, BRn, RET}

  /** `d, s, t = args` followed by `REG` of each, left to right. */
  function Regs3(op: string, args: seq<string>): Result<(nat, nat, nat)>
  {
    if |args| != 3 then Err(WrongOperandCount(op, |args|))
    else
      var d :- Reg(args[0]);
      var s :- Reg(args[1]);
      var t :- Reg(args[2]);
      Ok((d, s, t))
  }

  /** `a, b = args` followed by `REG` of both, left to right. */
  function Regs2(op: string, args: seq<string>): Result<(nat, nat)>
  {
    if |args| != 2 then Err(WrongOperandCount(op, |args|))
    else
      var a :- Reg(args[0]);
      var b :- Reg(args[1]);
      Ok((a, b))
  }

  /** `d, imm = args` followed by `REG(d)` and the immediate. */
  function RegImm(op: string, args: seq<string>): Result<(nat, nat)>
  {
    if |args| != 2 then Err(WrongOperandCount(op, |args|))
    else
      var d :- Reg(args[0]);
      var imm :- Imm(args[1]);
      Ok((d, imm))
  }

  /**
   * The operand reading of `assemble_line(op, args, labels, pc)`.  Each branch
   * first unpacks its operands (a wrong count is the ValueError of tuple
   * unpacking), then reads them left to right; BRn reads only `args[0]` and
   * looks it up in the label table; SUB and DIV are not in this copy's chain.
   */
  function Operands(op: string, args: seq<string>, labels: map<string, nat>): (r: Result<Instr>)
    ensures r.Ok? ==> OpOf(r.value) in Ops && Mnemonic(OpOf(r.value)) == op
    ensures r.Ok? && r.value.Brn? ==> |args| > 0 && args[0] in labels && r.value.target == labels[args[0]]
  {
    var o := Lookup(op);
    if o.None? || o.value !in Ops then Err(UnknownOpcode(op))
    else
      match o.value
      case CONST =>
        var x :- RegImm(op, args);
        Ok(Const(x.0, x.1))
      case ADD =>
        var x :- Regs3(op, args);
        Ok(Add(x.0, x.1, x.2))
      case MUL =>
        var x :- Regs3(op, args);
        Ok(Mul(x.0, x.1, x.2))
      case LDR =>
        var x :- Regs2(op, args);
        Ok(Ldr(x.0, x.1))
      case STR =>
        var x :- Regs2(op, args);
        Ok(Str(x.0, x.1))
      case CMP =>
        var x :- Regs2(op, args);
        Ok(Cmp(x.0, x.1))
      case BRn =>
        if |args| == 0 then Err(MissingOperand(0))
        else if args[0] in labels then Ok(Brn(labels[args[0]]))
        else Err(UndefinedLabel(args[0]))
      case RET =>
        Ok(Ret)
      case _ =>
        Err(UnknownOpcode(op))
  }

  /** Any opcode outside the table raises ValueError, whatever the operands. */
  lemma UnknownOpcodeFails(op: string, args: seq<string>, labels: map<string, nat>, pc: nat)
    requires forall o :: o in Ops ==> Mnemonic(o) != op
    ensures AssembleLine(op, args, labels, pc) == Err(UnknownOpcode(op))
  {
    assert Mnemonic(CONST) != op && Mnemonic(ADD) != op && Mnemonic(MUL) != op && Mnemonic(LDR) != op;
    assert Mnemonic(STR) != op && Mnemonic(CMP) != op && Mnemonic(BRn) != op && Mnemonic(RET) != op;
  }

  /** `assemble_line(op, args, labels, pc)`: the opcode pattern OR-ed with the operand fields. */
  function AssembleLine(op: string, args: seq<string>, labels: map<string, nat>, pc: nat): Result<nat>
  {
    var i :- Operands(op, args, labels);
    Ok(Encode(i))
  }

  /** The pc argument is accepted but never used: branch targets are absolute. */
  lemma PcIgnored(op: string, args: seq<string>, labels: map<string, nat>, pc: nat, pc': nat)
    ensures AssembleLine(op, args, labels, pc) == AssembleLine(op, args, labels, pc')
  {
  }

  /** One instruction line of pass 2: split into fields, the first is the opcode. */
  function AssembleText(line: string, labels: map<string, nat>, pc: nat): Result<nat>
  {
    var parts := SplitFields(line);
    AssembleLine(parts[0], parts[1..], labels, pc)
  }

  function LineEncoder(labels: map<string, nat>): (string, nat) -> Result<nat>
  {
    (line, pc) => AssembleText(line, labels, pc)
  }

  /** The two passes over the cleaned lines: pass 2 over the instruction lines with the pass-1 table. */
  function Passes(lines: seq<string>): Result<seq<nat>>
  {
    EncodeAll(Instructions(lines), LineEncoder(Labels(lines)))
  }

  /** What `assemble(program_text)` returns. */
  function AssembleProgram(text: string): Result<seq<nat>>
  {
    Passes(Preprocess(text))
  }

  /** `assemble(program_text)`: clean the lines, fill the label table, then encode the instruction lines. */
  method Assemble(programText: string) returns (r: Result<seq<nat>>)
    ensures r == AssembleProgram(programText)
  {
    var lines := Preprocess(programText);
    var labels := CollectLabels(lines);
    r := EncodePass(lines, LineEncoder(labels));
  }

  /** Every instruction line assembles at its own pc. */
  predicate AllEncode(ins: seq<string>, labels: map<string, nat>)
  {
    forall i :: 0 <= i < |ins| ==> AssembleText(ins[i], labels, i).Ok?
  }

  /**
   * The shape of a successful assembly: one word per instruction line, in
   * order, word i being line i's encoding at pc i; assembly fails exactly when
   * some instruction line fails.
   */
  lemma ProgramWords(lines: seq<string>)
    ensures var ins, labels, r := Instructions(lines), Labels(lines), Passes(lines);
      && (r.Ok? <==> AllEncode(ins, labels))
      && (r.Ok? ==> (|r.value| == |ins|
            && forall i :: 0 <= i < |ins| ==> r.value[i] == AssembleText(ins[i], labels, i).value))
  {
    var ins, labels := Instructions(lines), Labels(lines);
    assert Passes(lines) == EncodeAll(ins, LineEncoder(labels));
    ProgramWordsOf(ins, labels);
  }

  /** ProgramWords for any instruction lines and any label table. */
  lemma ProgramWordsOf(ins: seq<string>, labels: map<string, nat>)
    ensures var r := EncodeAll(ins, LineEncoder(labels));
      && (r.Ok? <==> AllEncode(ins, labels))
      && (r.Ok? ==> (|r.value| == |ins|
            && forall i :: 0 <= i < |ins| ==> r.value[i] == AssembleText(ins[i], labels, i).value))
  {
    var enc := LineEncoder(labels);
    var r := EncodeAll(ins, enc);
    EncodeAllWords(ins, enc);
    forall i | 0 <= i < |ins| ensures enc(ins[i], i) == AssembleText(ins[i], labels, i) {
    }
    if !r.Ok? {
      var i :| 0 <= i < |ins| && !enc(ins[i], i).Ok?;
      assert !AssembleText(ins[i], labels, i).Ok?;
    }
  }

  /** Conversely, a list with word k the encoding of instruction line k at pc k is what assembly returns. */
  lemma PassesOf(lines: seq<string>, words: seq<nat>)
    requires |Instructions(lines)| == |words|
    requires forall k :: 0 <= k < |words| ==> AssembleText(Instructions(lines)[k], Labels(lines), k) == Ok(words[k])
    ensures Passes(lines) == Ok(words)
  {
    var ins, labels, r := Instructions(lines), Labels(lines), Passes(lines);
    ProgramWords(lines);
    assert r.Ok? by {
      forall i | 0 <= i < |ins| ensures AssembleText(ins[i], labels, i).Ok? {
        assert AssembleText(ins[i], labels, i) == Ok(words[i]);
      }
    }
    assert r.value == words;
  }

  /**
   * A `BRn` line encodes the absolute address the table gives its first
   * operand, whatever its pc, or fails with KeyError for a name the table lacks.
   */
  lemma BranchLine(line: string, labels: map<string, nat>, pc: nat)
    requires |SplitFields(line)| >= 2 && SplitFields(line)[0] == "BRn"
    ensures var name := SplitFields(line)[1];
      AssembleText(line, labels, pc)
        == if name in labels then Ok(Encode(Brn(labels[name]))) else Err(UndefinedLabel(name))
  {
    var parts := SplitFields(line);
    assert parts[1..][0] == parts[1];
  }

  /**
   * Forward and backward references alike: a `BRn name` line at index jb
   * encodes the absolute address of name's last definition, the number of
   * instruction lines before that label line, wherever the label stands.
   */
  lemma BranchResolves(lines: seq<string>, jb: nat, jl: nat, name: string)
    requires jb < |lines| && !IsLabel(lines[jb])
    requires |SplitFields(lines[jb])| >= 2 && SplitFields(lines[jb])[0] == "BRn" && SplitFields(lines[jb])[1] == name
    requires LastDefinition(lines, jl, name)
    requires Passes(lines).Ok?
    ensures |Instructions(lines[..jb])| < |Passes(lines).value|
    ensures Passes(lines).value[|Instructions(lines[..jb])|] == Encode(Brn(|Instructions(lines[..jl])|))
  {
    var ins, labels := Instructions(lines), Labels(lines);
    var n := |Instructions(lines[..jb])|;
    assert n < |ins| && ins[n] == lines[jb] by { InstructionAt(lines, jb); }
    assert name in labels && labels[name] == |Instructions(lines[..jl])| by { LabelsValue(lines, jl, name); }
    assert AssembleText(ins[n], labels, n) == Ok(Encode(Brn(labels[name]))) by { BranchLine(ins[n], labels, n); }
    ProgramWords(lines);
  }

  /** A branch to a name that no label line defines makes the whole assembly fail. */
  lemma UndefinedBranchFails(lines: seq<string>, jb: nat, name: string)
    requires jb < |lines| && !IsLabel(lines[jb])
    requires |SplitFields(lines[jb])| >= 2 && SplitFields(lines[jb])[0] == "BRn" && SplitFields(lines[jb])[1] == name
    requires forall j :: 0 <= j < |lines| && IsLabel(lines[j]) ==> LabelName(lines[j]) != name
    ensures Passes(lines).Err?
  {
    var ins, labels := Instructions(lines), Labels(lines);
    var n := |Instructions(lines[..jb])|;
    assert n < |ins| && ins[n] == lines[jb] by { InstructionAt(lines, jb); }
    assert name !in labels by { LabelsDomain(lines, name); }
    assert AssembleText(ins[n], labels, n).Err? by { BranchLine(ins[n], labels, n); }
    ProgramWords(lines);
  }

  /** `REG` reads back a register written as `R` followed by its decimal number. */
  lemma RegText(n: nat)
    ensures Reg("R" + NatToString(n)) == Ok(n)
  {
    assert Without("R" + NatToString(n), IsR) == NatToString(n) by {
      NumeralNoneIn(n, IsR);
      WithoutLead('R', NatToString(n), IsR);
    }
    IntOfNatToString(n);
  }

  /** The immediate of CONST reads back a number written as `#` followed by its decimal digits. */
  lemma ImmText(n: nat)
    ensures Imm("#" + NatToString(n)) == Ok(n)
  {
    assert Without("#" + NatToString(n), IsHash) == NatToString(n) by {
      NumeralNoneIn(n, IsHash);
      WithoutLead('#', NatToString(n), IsHash);
    }
    IntOfNatToString(n);
  }
}
