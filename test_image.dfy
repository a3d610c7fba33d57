/**
 * The mini assembler of test/test_image.py: the full opcode set, two passes
 * over the cleaned lines, operands read by position from
 * `l.replace(",", "").split()` and registers read by `R(x) = int(x[1:])`.
 * Unlike assembler.py it never checks the operand count: missing operands
 * are an IndexError, extra ones are ignored.
 */
module TestImage {
  import opened Errors
  import opened Text
  import opened Isa
  import opened Listing

  predicate IsComma(c: char) { c == ',' }

  /** `R(x)`: `int(x[1:])`, whatever the first character is. */
  function R(x: string): Result<nat>
  {
    Int(DropFirst(x))
  }

  /**
   * `R(p[k])`, or the IndexError of `p[k]` when the line has fewer fields.
   * The CONST immediate, `int(p[2][1:])`, is read the same way.
   */
  function Field(p: seq<string>, k: nat): Result<nat>
  {
    if k < |p| then R(p[k]) else Err(MissingOperand(k))
  }

  /** `l.replace(",", "").split()`. */
  function Tokens(l: string): seq<string>
  {
    Words(Without(l, IsComma))
  }

  /** The opcodes this copy knows: all of them. */
  const Ops: set<Opcode> := {CONST, ADD, SUB, MUL, DIV, LDR, STR, CMP, BRn, RET}

  /** Fields 1, 2 and 3 read with `R`, left to right: the operands of the three-register opcodes. */
  function Fields3(p: seq<string>): Result<(nat, nat, nat)>
  {
    var a :- Field(p, 1);
    var b :- Field(p, 2);
    var c :- Field(p, 3);
    Ok((a, b, c))
  }

  /** Fields 1 and 2 read with `R`, left to right: the operands of CONST, LDR, STR and CMP. */
  function Fields2(p: seq<string>): Result<(nat, nat)>
  {
    var a :- Field(p, 1);
    var b :- Field(p, 2);
    Ok((a, b))
  }

  /**
   * The `if`/`elif` chain of pass 2 on the fields p of one line, p[0] being
   * the opcode; the fields are read left to right as in each `code.append`.
   */
  function Operands(p: seq<string>, labels: map<string, nat>): (r: Result<Instr>)
    requires |p| >= 1
    ensures r.Ok? ==> Lookup(p[0]) == Some(OpOf(r.value))
    ensures r.Ok? && r.value.Brn? ==> |p| >= 2 && p[1] in labels && r.value.target == labels[p[1]]
  {
    var o := Lookup(p[0]);
    if o.None? then Err(UnknownOpcode(p[0]))
    else if o.value in {ADD, SUB, MUL, DIV} then
      var x :- Fields3(p);
      Ok(ThreeReg(o.value, x.0, x.1, x.2))
    else if o.value in {CONST, LDR, STR, CMP} then
      var x :- Fields2(p);
      Ok(TwoField(o.value, x.0, x.1))
    else if o.value == BRn then
      if |p| < 2 then Err(MissingOperand(1))
      else if p[1] in labels then Ok(Brn(labels[p[1]]))
      else Err(UndefinedLabel(p[1]))
    else
      Ok(Ret)
  }

  /** The word pass 2 appends for one instruction line; a line with no field fails at `p[0]`. */
  function EncodeLine(l: string, labels: map<string, nat>): Result<nat>
  {
    var p := Tokens(l);
    if p == [] then Err(MissingOperand(0))
    else
      var i :- Operands(p, labels);
      Ok(Encode(i))
  }

  /** Pass 2 of this copy keeps no pc: the word does not depend on the position. */
  function LineEncoder(labels: map<string, nat>): (string, nat) -> Result<nat>
  {
    (l, pc) => EncodeLine(l, labels)
  }

  /** The two passes over the cleaned lines. */
  function Passes(lines: seq<string>): Result<seq<nat>>
  {
    EncodeAll(Instructions(lines), LineEncoder(Labels(lines)))
  }

  /** What `assemble(asm)` returns. */
  function AssembleProgram(asm: string): Result<seq<nat>>
  {
    Passes(Preprocess(asm))
  }

  /** The first loop of `assemble`: clean each raw line and append the non-empty ones. */
  method KeepLines(raw: seq<string>) returns (lines: seq<string>)
    ensures lines == CleanLines(raw)
  {
    lines := [];
    var i := 0;
    while i < |raw|
      invariant i <= |raw|
      invariant lines == CleanLines(raw[..i])
    {
      var l := Clean(raw[i]);
      CleanStep(raw, i);
      if l != [] {
        lines := lines + [l];
      }
      i := i + 1;
    }
    assert raw[..i] == raw;
  }

  /** `assemble(asm)`: clean the lines, fill the label table, then encode the instruction lines. */
  method Assemble(asm: string) returns (r: Result<seq<nat>>)
    ensures r == AssembleProgram(asm)
  {
    var lines := KeepLines(SplitLines(asm));
    var labels := CollectLabels(lines);
    r := EncodePass(lines, LineEncoder(labels));
  }

  /** Every instruction line encodes. */
  predicate AllEncode(ins: seq<string>, labels: map<string, nat>)
  {
    forall i :: 0 <= i < |ins| ==> EncodeLine(ins[i], labels).Ok?
  }

  /**
   * One word per instruction line, in order, word i being that line's
   * encoding; assembly fails exactly when some instruction line fails.
   */
  lemma ProgramWords(lines: seq<string>)
    ensures var ins, labels, r := Instructions(lines), Labels(lines), Passes(lines);
      && (r.Ok? <==> AllEncode(ins, labels))
      && (r.Ok? ==> (|r.value| == |ins|
            && forall i :: 0 <= i < |ins| ==> r.value[i] == EncodeLine(ins[i], labels).value))
  {
    var ins, labels := Instructions(lines), Labels(lines);
    assert Passes(lines) == EncodeAll(ins, LineEncoder(labels));
    ProgramWordsOf(ins, labels);
  }

  /** ProgramWords for any instruction lines and any label table. */
  lemma ProgramWordsOf(ins: seq<string>, labels: map<string, nat>)
    ensures var r := EncodeAll(ins, LineEncoder(labels));
      && (r.Ok? <==> AllEncode(ins, labels))
      && (r.Ok? ==> (|r.value| == |ins|
            && forall i :: 0 <= i < |ins| ==> r.value[i] == EncodeLine(ins[i], labels).value))
  {
    var enc := LineEncoder(labels);
    var r := EncodeAll(ins, enc);
    EncodeAllWords(ins, enc);
    forall i | 0 <= i < |ins| ensures enc(ins[i], i) == EncodeLine(ins[i], labels) {
    }
    if !r.Ok? {
      var i :| 0 <= i < |ins| && !enc(ins[i], i).Ok?;
      assert !EncodeLine(ins[i], labels).Ok?;
    }
  }


  /** Tokenising deletes the commas, then splits the rest at runs of blanks, keeping every other character. */
  lemma TokensKeepText(l: string)
    ensures Concat(Tokens(l)) == Without(Without(l, IsComma), IsSpace)
    ensures forall k :: 0 <= k < |Tokens(l)| ==> Tokens(l)[k] != [] && NoneIn(Tokens(l)[k], IsSpace)
  {
    WordsKeepText(Without(l, IsComma));
  }

  /** A plain field has no comma for `replace(",", "")` to delete and no blank to split at. */
  lemma PlainToken(w: string)
    requires Plain(w)
    ensures Without(w, IsComma) == w && w != [] && NoneIn(w, IsSpace)
  {
    forall k | 0 <= k < |w| ensures !IsComma(w[k]) && !IsSpace(w[k]) {
      assert !IsCommaOrSpace(w[k]);
    }
    WithoutNone(w, IsComma);
  }

  /** One field in front of more text: deleting commas keeps it and the blank after it. */
  lemma TokensAfter(w: string, sep: string, rest: string)
    requires Plain(w) && (sep == ", " || sep == " ")
    ensures Tokens(w + sep + rest) == [w] + Tokens(rest)
  {
    PlainToken(w);
    WithoutAppend(w + sep, rest, IsComma);
    WithoutAppend(w, sep, IsComma);
    if sep == ", " {
      assert sep == [','] + " ";
      WithoutLead(',', " ", IsComma);
    } else {
      WithoutNone(sep, IsComma);
    }
    assert Without(w + sep + rest, IsComma) == w + " " + Without(rest, IsComma);
    WordsAfter(w, Without(rest, IsComma));
  }

  /** Operands written with Commas tokenise back to those operands. */
  lemma {:induction false} TokensCommas(fs: seq<string>)
    requires |fs| >= 1 && forall k :: 0 <= k < |fs| ==> Plain(fs[k])
    ensures Tokens(Commas(fs)) == fs
    decreases |fs|
  {
    PlainToken(fs[0]);
    if |fs| == 1 {
      WordsSingle(fs[0]);
    } else {
      PlainTail(fs);
      TokensCommas(fs[1..]);
      TokensAfter(fs[0], ", ", Commas(fs[1..]));
      assert [fs[0]] + fs[1..] == fs;
    }
  }

  /** A line written with Join tokenises back to its fields: `replace(",", "").split()` undoes Join. */
  lemma TokensJoin(fs: seq<string>)
    requires |fs| >= 1 && forall k :: 0 <= k < |fs| ==> Plain(fs[k])
    ensures Tokens(Join(fs)) == fs
  {
    PlainToken(fs[0]);
    if |fs| == 1 {
      WordsSingle(fs[0]);
    } else {
      PlainTail(fs);
      TokensCommas(fs[1..]);
      TokensAfter(fs[0], " ", Commas(fs[1..]));
      assert [fs[0]] + fs[1..] == fs;
    }
  }

  /** `R` ignores the first character of its token: any letter followed by a numeral reads as that number. */
  lemma RText(c: char, n: nat)
    ensures R([c] + NatToString(n)) == Ok(n)
  {
    assert DropFirst([c] + NatToString(n)) == NatToString(n);
    IntOfNatToString(n);
  }

  /** There is no operand-count check: fields after the last one an opcode reads change nothing. */
  lemma ExtraFieldsIgnored(p: seq<string>, extra: seq<string>, labels: map<string, nat>)
    requires |p| >= 4
    ensures Operands(p + extra, labels) == Operands(p, labels)
  {
    var q := p + extra;
    assert q[0] == p[0] && q[1] == p[1] && q[2] == p[2] && q[3] == p[3];
    assert Fields3(q) == Fields3(p) && Fields2(q) == Fields2(p) by {
      assert Field(q, 1) == Field(p, 1) && Field(q, 2) == Field(p, 2) && Field(q, 3) == Field(p, 3);
    }
    OperandsOfFields(p, q, labels);
  }

  /** Operands depends only on the opcode field, the first operand field and what Fields3 and Fields2 read. */
  lemma OperandsOfFields(p: seq<string>, q: seq<string>, labels: map<string, nat>)
    requires |p| >= 2 && |q| >= 2 && p[0] == q[0] && p[1] == q[1]
    requires Fields3(q) == Fields3(p) && Fields2(q) == Fields2(p)
    ensures Operands(q, labels) == Operands(p, labels)
  {
    var o := Lookup(p[0]);
    if o.None? {
    } else if o.value in {ADD, SUB, MUL, DIV} {
      assert Operands(q, labels) == Operands(p, labels) by {
        if Fields3(p).Ok? {
          var x := Fields3(p).value;
          assert Operands(p, labels) == Ok(ThreeReg(o.value, x.0, x.1, x.2));
        }
      }
    } else if o.value in {CONST, LDR, STR, CMP} {
      assert Operands(q, labels) == Operands(p, labels) by {
        if Fields2(p).Ok? {
          var x := Fields2(p).value;
          assert Operands(p, labels) == Ok(TwoField(o.value, x.0, x.1));
        }
      }
    }
  }

  /** An opcode outside the table raises ValueError. */
  lemma UnknownOpcodeFails(p: seq<string>, labels: map<string, nat>)
    requires |p| >= 1 && forall o :: o in Ops ==> Mnemonic(o) != p[0]
    ensures Operands(p, labels) == Err(UnknownOpcode(p[0]))
  {
    assert Mnemonic(CONST) != p[0] && Mnemonic(ADD) != p[0] && Mnemonic(SUB) != p[0] && Mnemonic(MUL) != p[0];
    assert Mnemonic(DIV) != p[0] && Mnemonic(LDR) != p[0] && Mnemonic(STR) != p[0];
    assert Mnemonic(CMP) != p[0] && Mnemonic(BRn) != p[0] && Mnemonic(RET) != p[0];
  }

  /** A line whose first two fields are `BRn` and a name encodes the table's address for it, or fails with KeyError. */
  lemma BranchLine(l: string, labels: map<string, nat>)
    requires |Tokens(l)| >= 2 && Tokens(l)[0] == "BRn"
    ensures var name := Tokens(l)[1];
      EncodeLine(l, labels) == if name in labels then Ok(Encode(Brn(labels[name]))) else Err(UndefinedLabel(name))
  {
    LookupMnemonic(BRn);
  }

  /**
   * A `BRn name` line at index jb encodes the absolute address of name's
   * last definition, before or after the branch.
   */
  lemma BranchResolves(lines: seq<string>, jb: nat, jl: nat, name: string)
    requires jb < |lines| && !IsLabel(lines[jb])
    requires |Tokens(lines[jb])| >= 2 && Tokens(lines[jb])[0] == "BRn" && Tokens(lines[jb])[1] == name
    requires LastDefinition(lines, jl, name)
    requires Passes(lines).Ok?
    ensures |Instructions(lines[..jb])| < |Passes(lines).value|
    ensures Passes(lines).value[|Instructions(lines[..jb])|] == Encode(Brn(|Instructions(lines[..jl])|))
  {
    var ins, labels := Instructions(lines), Labels(lines);
    var n := |Instructions(lines[..jb])|;
    assert n < |ins| && ins[n] == lines[jb] by { InstructionAt(lines, jb); }
    assert name in labels && labels[name] == |Instructions(lines[..jl])| by { LabelsValue(lines, jl, name); }
    assert EncodeLine(ins[n], labels) == Ok(Encode(Brn(labels[name]))) by { BranchLine(ins[n], labels); }
    ProgramWords(lines);
  }

  /** A branch to a name no label line defines raises KeyError and no program is returned. */
  lemma UndefinedBranchFails(lines: seq<string>, jb: nat, name: string)
    requires jb < |lines| && !IsLabel(lines[jb])
    requires |Tokens(lines[jb])| >= 2 && Tokens(lines[jb])[0] == "BRn" && Tokens(lines[jb])[1] == name
    requires forall j :: 0 <= j < |lines| && IsLabel(lines[j]) ==> LabelName(lines[j]) != name
    ensures Passes(lines).Err?
  {
    var ins, labels := Instructions(lines), Labels(lines);
    var n := |Instructions(lines[..jb])|;
    assert n < |ins| && ins[n] == lines[jb] by { InstructionAt(lines, jb); }
    assert name !in labels by { LabelsDomain(lines, name); }
    assert EncodeLine(ins[n], labels).Err? by { BranchLine(ins[n], labels); }
    ProgramWords(lines);
  }
}
