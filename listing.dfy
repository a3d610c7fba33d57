/**
 * The source-listing logic the assembler copies share: cleaning the raw
 * lines, telling label lines from instruction lines, the pass-1 label table
 * and the pass-2 rule "one word per instruction line, in order, the first
 * failure aborts".  Each copy's own loops are proved against these functions.
 */
module Listing {
  import opened Errors
  import opened Text

  predicate IsSemicolon(c: char) { c == ';' }

  /** One raw line with its comment cut off and its blanks trimmed: `l.split(";")[0].strip()`. */
  function Clean(l: string): string
  {
    Strip(Before(l, IsSemicolon))
  }

  /** What cleaning keeps: the text before the first `;`, less only its leading and trailing blanks. */
  lemma CleanShape(l: string)
    ensures var c, r := Before(l, IsSemicolon), Clean(l);
      var a := |c| - |StripLeft(c)|;
      && c == l[..|c|] && (|c| < |l| ==> l[|c|] == ';')
      && ';' !in r
      && a + |r| <= |c| && r == c[a..a + |r|]
      && (forall k :: 0 <= k < a ==> IsSpace(c[k]))
      && (forall k :: a + |r| <= k < |c| ==> IsSpace(c[k]))
      && (r != [] ==> !IsSpace(r[0]) && !IsSpace(r[|r| - 1]))
  {
    StripShape(Before(l, IsSemicolon));
    CleanNoSemicolon(l);
  }

  /** What is left of a line after its comment is cut holds no `;`. */
  lemma CleanNoSemicolon(l: string)
    ensures ';' !in Clean(l)
  {
    var c := Before(l, IsSemicolon);
    var r := Strip(c);
    var a := |c| - |StripLeft(c)|;
    StripShape(c);
    forall k | 0 <= k < |r| ensures r[k] != ';' {
      assert r[k] == c[a + k];
    }
  }

  /** The lists f gives for each line, concatenated in line order. */
  function Gather(f: string -> seq<string>, raw: seq<string>): seq<string>
  {
    if raw == [] then [] else Gather(f, raw[..|raw| - 1]) + f(raw[|raw| - 1])
  }

  lemma {:induction false} GatherAppend(f: string -> seq<string>, a: seq<string>, b: seq<string>)
    ensures Gather(f, a + b) == Gather(f, a) + Gather(f, b)
    decreases |b|
  {
    if b == [] {
      assert a + b == a;
    } else {
      var n := |b| - 1;
      var ab := a + b;
      assert ab[..|ab| - 1] == a + b[..n];
      assert ab[|ab| - 1] == b[n];
      calc {
        Gather(f, ab);
        Gather(f, a + b[..n]) + f(b[n]);
        { GatherAppend(f, a, b[..n]); }
        Gather(f, a) + Gather(f, b[..n]) + f(b[n]);
        Gather(f, a) + Gather(f, b);
      }
    }
  }

  lemma GatherStep(f: string -> seq<string>, raw: seq<string>, i: nat)
    requires i < |raw|
    ensures Gather(f, raw[..i + 1]) == Gather(f, raw[..i]) + f(raw[i])
  {
    assert raw[..i + 1][..i] == raw[..i];
  }

  lemma GatherPrefix(f: string -> seq<string>, raw: seq<string>, i: nat)
    requires i <= |raw|
    ensures var p, q := Gather(f, raw[..i]), Gather(f, raw);
      |p| <= |q| && q[..|p|] == p
  {
    assert raw == raw[..i] + raw[i..];
    GatherAppend(f, raw[..i], raw[i..]);
  }

  /** The contribution of one raw line: its cleaned text, or nothing if that is empty. */
  function Kept(l: string): seq<string>
  {
    var c := Clean(l);
    if c == [] then [] else [c]
  }

  /** The cleaned, non-empty lines, in their original order. */
  function CleanLines(raw: seq<string>): seq<string>
  {
    Gather(Kept, raw)
  }

  /** Cleaning works line by line and keeps the relative order of the lines it keeps. */
  lemma CleanLinesAppend(a: seq<string>, b: seq<string>)
    ensures CleanLines(a + b) == CleanLines(a) + CleanLines(b)
  {
    GatherAppend(Kept, a, b);
  }

  /** Cleaning one more raw line: its cleaned text is appended unless that is empty. */
  lemma CleanStep(raw: seq<string>, i: nat)
    requires i < |raw|
    ensures var c := Clean(raw[i]);
      CleanLines(raw[..i + 1]) == if c == [] then CleanLines(raw[..i]) else CleanLines(raw[..i]) + [c]
  {
    GatherStep(Kept, raw, i);
  }

  /** The cleaned lines of a prefix are a prefix of the cleaned lines. */
  lemma CleanLinesPrefix(raw: seq<string>, i: nat)
    requires i <= |raw|
    ensures var p, q := CleanLines(raw[..i]), CleanLines(raw);
      |p| <= |q| && q[..|p|] == p
  {
    GatherPrefix(Kept, raw, i);
  }

  /** A single raw line is kept, cleaned, exactly when its cleaned text is not empty. */
  lemma CleanLinesOne(l: string)
    ensures CleanLines([l]) == if Clean(l) == [] then [] else [Clean(l)]
  {
    assert [l][..0] == [];
    assert CleanLines([l]) == Gather(Kept, []) + Kept(l);
  }

  /** The program lines of a source text: `splitlines`, clean each, drop the empty ones. */
  function Preprocess(text: string): seq<string>
  {
    CleanLines(SplitLines(text))
  }

  /** A label-definition line: one that ends with a colon. */
  predicate IsLabel(l: string)
  {
    EndsWithColon(l)
  }

  /** The name a label line defines: the line without its colon, `l[:-1]`. */
  function LabelName(l: string): string
    requires IsLabel(l)
  {
    l[..|l| - 1]
  }

  /** The instruction lines, in order: every line that is not a label line. */
  function Instructions(lines: seq<string>): (r: seq<string>)
    ensures |r| <= |lines|
    ensures forall k :: 0 <= k < |r| ==> !IsLabel(r[k])
  {
    if lines == [] then []
    else
      var last := lines[|lines| - 1];
      Instructions(lines[..|lines| - 1]) + (if IsLabel(last) then [] else [last])
  }

  /** The instructions of a prefix are a prefix of the instructions. */
  lemma {:induction false} InstructionsPrefix(lines: seq<string>, j: nat)
    requires j <= |lines|
    ensures var p, q := Instructions(lines[..j]), Instructions(lines);
      |p| <= |q| && q[..|p|] == p
    decreases |lines| - j
  {
    if j < |lines| {
      InstructionsPrefix(lines, j + 1);
      assert lines[..j + 1][..j] == lines[..j];
    } else {
      assert lines[..j] == lines;
    }
  }

  /** Scanning one more line adds it to the instructions unless it is a label line. */
  lemma InstructionsStep(lines: seq<string>, i: nat)
    requires i < |lines|
    ensures Instructions(lines[..i + 1])
      == Instructions(lines[..i]) + (if IsLabel(lines[i]) then [] else [lines[i]])
  {
    assert lines[..i + 1][..i] == lines[..i];
  }

  /**
   * The converse of InstructionAt: instruction k is a non-label line j with
   * exactly k instruction lines before it, so nothing else is kept.
   */
  lemma {:induction false} InstructionsOnly(lines: seq<string>, k: nat)
    requires k < |Instructions(lines)|
    ensures exists j :: (0 <= j < |lines| && !IsLabel(lines[j])
                         && |Instructions(lines[..j])| == k && Instructions(lines)[k] == lines[j])
  {
    var n := |lines| - 1;
    var prefix := lines[..n];
    InstructionsStep(lines, n);
    assert lines[..n + 1] == lines;
    if k < |Instructions(prefix)| {
      InstructionsOnly(prefix, k);
      var j :| 0 <= j < |prefix| && !IsLabel(prefix[j])
        && |Instructions(prefix[..j])| == k && Instructions(prefix)[k] == prefix[j];
      assert prefix[..j] == lines[..j];
      assert lines[j] == prefix[j];
    } else {
      assert !IsLabel(lines[n]) && Instructions(lines)[k] == lines[n];
    }
  }

  /**
   * The instruction line at index j is instruction number |Instructions(lines[..j])|:
   * the count of instruction lines before it.
   */
  lemma InstructionAt(lines: seq<string>, j: nat)
    requires j < |lines| && !IsLabel(lines[j])
    ensures var n := |Instructions(lines[..j])|;
      n < |Instructions(lines)| && Instructions(lines)[n] == lines[j]
  {
    InstructionsPrefix(lines, j + 1);
    assert lines[..j + 1][..j] == lines[..j];
  }

  /** Pass 1: each label line binds its name to the number of instruction lines before it; a later definition wins. */
  function Labels(lines: seq<string>): map<string, nat>
  {
    if lines == [] then map[]
    else
      var prefix, last := lines[..|lines| - 1], lines[|lines| - 1];
      if IsLabel(last) then Labels(prefix)[LabelName(last) := |Instructions(prefix)|]
      else Labels(prefix)
  }

  /** Scanning one more line: a label line binds its name to the instruction count so far. */
  lemma LabelsStep(lines: seq<string>, i: nat)
    requires i < |lines|
    ensures Labels(lines[..i + 1])
      == if IsLabel(lines[i]) then Labels(lines[..i])[LabelName(lines[i]) := |Instructions(lines[..i])|]
         else Labels(lines[..i])
  {
    assert lines[..i + 1][..i] == lines[..i];
  }

  /** A name is in the table exactly when some label line defines it. */
  lemma {:induction false} LabelsDomain(lines: seq<string>, name: string)
    ensures name in Labels(lines) <==>
      exists j :: 0 <= j < |lines| && IsLabel(lines[j]) && LabelName(lines[j]) == name
  {
    if lines != [] {
      var prefix := lines[..|lines| - 1];
      LabelsDomain(prefix, name);
      if exists j :: 0 <= j < |prefix| && IsLabel(prefix[j]) && LabelName(prefix[j]) == name {
        var j :| 0 <= j < |prefix| && IsLabel(prefix[j]) && LabelName(prefix[j]) == name;
        assert lines[j] == prefix[j];
      }
      if exists j :: 0 <= j < |lines| && IsLabel(lines[j]) && LabelName(lines[j]) == name {
        var j :| 0 <= j < |lines| && IsLabel(lines[j]) && LabelName(lines[j]) == name;
        if j < |prefix| {
          assert prefix[j] == lines[j];
        }
      }
    }
  }

  /** The last line defining a name. */
  ghost predicate LastDefinition(lines: seq<string>, j: nat, name: string)
  {
    && j < |lines| && IsLabel(lines[j]) && LabelName(lines[j]) == name
    && forall j' :: j < j' < |lines| && IsLabel(lines[j']) ==> LabelName(lines[j']) != name
  }

  /** A name is bound to the count of instruction lines before its last definition. */
  lemma {:induction false} LabelsValue(lines: seq<string>, j: nat, name: string)
    requires LastDefinition(lines, j, name)
    ensures name in Labels(lines) && Labels(lines)[name] == |Instructions(lines[..j])|
  {
    var n := |lines| - 1;
    var prefix := lines[..n];
    if j < n {
      assert LastDefinition(prefix, j, name) by {
        forall j' | j < j' < |prefix| && IsLabel(prefix[j']) ensures LabelName(prefix[j']) != name {
          assert prefix[j'] == lines[j'];
        }
      }
      LabelsValue(prefix, j, name);
      assert prefix[..j] == lines[..j];
    } else {
      assert lines[..j] == prefix;
    }
  }

  /** Lines without a label line leave the table as it was. */
  lemma {:induction false} LabelFreeLabels(lines: seq<string>, j: nat, i: nat)
    requires j <= i <= |lines|
    requires forall k :: j <= k < i ==> !IsLabel(lines[k])
    ensures Labels(lines[..i]) == Labels(lines[..j])
    decreases i
  {
    if i > j {
      LabelFreeLabels(lines, j, i - 1);
      LabelsStep(lines, i - 1);
    }
  }

  /** Lines without a label line are all instruction lines, appended in order. */
  lemma {:induction false} LabelFreeInstructions(lines: seq<string>, j: nat, i: nat)
    requires j <= i <= |lines|
    requires forall k :: j <= k < i ==> !IsLabel(lines[k])
    ensures Instructions(lines[..i]) == Instructions(lines[..j]) + lines[j..i]
    decreases i
  {
    if i > j {
      LabelFreeInstructions(lines, j, i - 1);
      InstructionsStep(lines, i - 1);
      assert lines[j..i] == lines[j..i - 1] + [lines[i - 1]];
    } else {
      assert lines[j..i] == [];
    }
  }

  /** A program whose only label line is line j binds that one name, to address j. */
  lemma OneLabelTable(lines: seq<string>, j: nat)
    requires j < |lines| && IsLabel(lines[j])
    requires forall k :: 0 <= k < |lines| && k != j ==> !IsLabel(lines[k])
    ensures Labels(lines) == map[LabelName(lines[j]) := j]
  {
    var n := |lines|;
    assert Labels(lines[..j]) == map[] by {
      LabelFreeLabels(lines, 0, j);
      assert lines[..0] == [];
    }
    assert |Instructions(lines[..j])| == j by {
      LabelFreeInstructions(lines, 0, j);
      assert lines[..0] == [];
    }
    assert Labels(lines[..j + 1]) == map[LabelName(lines[j]) := j] by { LabelsStep(lines, j); }
    LabelFreeLabels(lines, j + 1, n);
    assert lines[..n] == lines;
  }

  /** A program whose only label line is line j has every other line as an instruction line. */
  lemma OneLabelInstructions(lines: seq<string>, j: nat)
    requires j < |lines| && IsLabel(lines[j])
    requires forall k :: 0 <= k < j ==> !IsLabel(lines[k])
    requires forall k :: j < k < |lines| ==> !IsLabel(lines[k])
    ensures Instructions(lines) == lines[..j] + lines[j + 1..]
  {
    var head, tail := Instructions(lines[..j + 1]), lines[j + 1..];
    assert head == lines[..j] by { LabelFreeHead(lines, j); }
    assert Instructions(lines) == head + tail by { LabelFreeTail(lines, j + 1); }
  }

  /** Label-free lines before a label line are all the instructions up to and including it. */
  lemma LabelFreeHead(lines: seq<string>, j: nat)
    requires j < |lines| && IsLabel(lines[j])
    requires forall k :: 0 <= k < j ==> !IsLabel(lines[k])
    ensures Instructions(lines[..j + 1]) == lines[..j]
  {
    LabelFreeInstructions(lines, 0, j);
    assert lines[..0] == [] && lines[0..j] == lines[..j];
    InstructionsStep(lines, j);
  }

  /** A tail without label lines adds its lines to the instructions of the head. */
  lemma LabelFreeTail(lines: seq<string>, j: nat)
    requires j <= |lines|
    requires forall k :: j <= k < |lines| ==> !IsLabel(lines[k])
    ensures Instructions(lines) == Instructions(lines[..j]) + lines[j..]
  {
    LabelFreeInstructions(lines, j, |lines|);
    assert lines[..|lines|] == lines && lines[j..|lines|] == lines[j..];
  }

  /** Pass 1: walk the lines counting instruction lines; a label line records the count so far. */
  method CollectLabels(lines: seq<string>) returns (labels: map<string, nat>)
    ensures labels == Labels(lines)
  {
    labels := map[];
    var pc := 0;
    var i := 0;
    while i < |lines|
      invariant i <= |lines|
      invariant labels == Labels(lines[..i]) && pc == |Instructions(lines[..i])|
    {
      InstructionsStep(lines, i);
      LabelsStep(lines, i);
      if IsLabel(lines[i]) {
        labels := labels[LabelName(lines[i]) := pc];
      } else {
        pc := pc + 1;
      }
      i := i + 1;
    }
    assert lines[..i] == lines;
  }

  /** Pass 2 over the instruction lines: the word of line i is enc(line, i); the first error aborts. */
  function EncodeAll(ins: seq<string>, enc: (string, nat) -> Result<nat>): (r: Result<seq<nat>>)
    ensures r.Ok? ==> |r.value| == |ins|
  {
    if ins == [] then Ok([])
    else
      var ws :- EncodeAll(ins[..|ins| - 1], enc);
      var w :- enc(ins[|ins| - 1], |ins| - 1);
      Ok(ws + [w])
  }

  /** Pass 2 over one more line: the words so far, then that line's word at pc |ins|. */
  lemma EncodeAllSnoc(ins: seq<string>, line: string, enc: (string, nat) -> Result<nat>)
    ensures EncodeAll(ins + [line], enc)
      == (if EncodeAll(ins, enc).Err? then EncodeAll(ins, enc)
          else if enc(line, |ins|).Err? then Err(enc(line, |ins|).error)
          else Ok(EncodeAll(ins, enc).value + [enc(line, |ins|).value]))
  {
    assert (ins + [line])[..|ins|] == ins;
  }

  /**
   * Pass 2: walk the lines, skip label lines, append the word of each
   * instruction line at the running pc; the first error aborts.
   */
  method EncodePass(lines: seq<string>, enc: (string, nat) -> Result<nat>) returns (r: Result<seq<nat>>)
    ensures r == EncodeAll(Instructions(lines), enc)
  {
    var pc := 0;
    var machine: seq<nat> := [];
    var i := 0;
    while i < |lines|
      invariant i <= |lines|
      invariant EncodeAll(Instructions(lines[..i]), enc) == Ok(machine)
      invariant pc == |machine| == |Instructions(lines[..i])|
    {
      var line := lines[i];
      ghost var done := Instructions(lines[..i]);
      InstructionsStep(lines, i);
      if !IsLabel(line) {
        var word := enc(line, pc);
        assert Instructions(lines[..i + 1]) == done + [line];
        EncodeAllSnoc(done, line, enc);
        if word.Err? {
          assert EncodeAll(Instructions(lines[..i + 1]), enc) == Err(word.error);
          InstructionsPrefix(lines, i + 1);
          assert lines[..|lines|] == lines;
          EncodeAllAbort(Instructions(lines), |Instructions(lines[..i + 1])|, enc);
          return Err(word.error);
        }
        machine := machine + [word.value];
        pc := pc + 1;
      } else {
        assert Instructions(lines[..i + 1]) == done;
      }
      i := i + 1;
    }
    assert lines[..i] == lines;
    return Ok(machine);
  }

  /** Pass 2 succeeds exactly when every instruction line encodes, and then word i is line i's word. */
  lemma {:induction false} EncodeAllWords(ins: seq<string>, enc: (string, nat) -> Result<nat>)
    ensures EncodeAll(ins, enc).Ok? <==> forall i :: 0 <= i < |ins| ==> enc(ins[i], i).Ok?
    ensures EncodeAll(ins, enc).Ok? ==>
      forall i :: 0 <= i < |ins| ==> EncodeAll(ins, enc).value[i] == enc(ins[i], i).value
  {
    if ins != [] {
      var n := |ins| - 1;
      var prefix := ins[..n];
      EncodeAllWords(prefix, enc);
      assert forall i :: 0 <= i < n ==> prefix[i] == ins[i];
    }
  }

  /** When pass 2 fails, it reports the error of the first instruction line that fails. */
  lemma {:induction false} EncodeAllFirstError(ins: seq<string>, enc: (string, nat) -> Result<nat>)
    requires EncodeAll(ins, enc).Err?
    ensures exists i :: (0 <= i < |ins| && enc(ins[i], i).Err? && enc(ins[i], i).error == EncodeAll(ins, enc).error
      && forall j :: 0 <= j < i ==> enc(ins[j], j).Ok?)
  {
    var n := |ins| - 1;
    var prefix := ins[..n];
    assert forall i :: 0 <= i < n ==> prefix[i] == ins[i];
    if EncodeAll(prefix, enc).Err? {
      EncodeAllFirstError(prefix, enc);
      var i :| 0 <= i < |prefix| && enc(prefix[i], i).Err? && enc(prefix[i], i).error == EncodeAll(prefix, enc).error
        && forall j :: 0 <= j < i ==> enc(prefix[j], j).Ok?;
      assert enc(ins[i], i) == enc(prefix[i], i);
    } else {
      EncodeAllWords(prefix, enc);
      assert enc(ins[n], n).Err?;
    }
  }

  /** Once a prefix of the lines fails, the whole pass fails with the same error. */
  lemma {:induction false} EncodeAllAbort(ins: seq<string>, k: nat, enc: (string, nat) -> Result<nat>)
    requires k <= |ins| && EncodeAll(ins[..k], enc).Err?
    ensures EncodeAll(ins, enc) == EncodeAll(ins[..k], enc)
    decreases |ins| - k
  {
    if k < |ins| {
      assert ins[..k + 1][..k] == ins[..k];
      EncodeAllAbort(ins, k + 1, enc);
    } else {
      assert ins[..k] == ins;
    }
  }

  /** A raw line that cleans to nothing adds nothing to the single pass. */
  lemma EncodeRawSkip(raw: seq<string>, i: nat, enc: (string, nat) -> Result<nat>, code: seq<nat>)
    requires i < |raw| && Clean(raw[i]) == [] && EncodeAll(CleanLines(raw[..i]), enc) == Ok(code)
    ensures EncodeAll(CleanLines(raw[..i + 1]), enc) == Ok(code)
  {
    CleanStep(raw, i);
  }

  /** A kept raw line whose word encodes appends that word, at pc |code|. */
  lemma EncodeRawKeep(raw: seq<string>, i: nat, enc: (string, nat) -> Result<nat>, code: seq<nat>)
    requires i < |raw| && Clean(raw[i]) != [] && EncodeAll(CleanLines(raw[..i]), enc) == Ok(code)
    requires enc(Clean(raw[i]), |code|).Ok?
    ensures EncodeAll(CleanLines(raw[..i + 1]), enc) == Ok(code + [enc(Clean(raw[i]), |code|).value])
  {
    var done, line := CleanLines(raw[..i]), Clean(raw[i]);
    CleanStep(raw, i);
    EncodeAllSnoc(done, line, enc);
  }

  /** A kept raw line that fails to encode is the error of the whole single pass. */
  lemma EncodeRawFail(raw: seq<string>, i: nat, enc: (string, nat) -> Result<nat>, code: seq<nat>)
    requires i < |raw| && Clean(raw[i]) != [] && EncodeAll(CleanLines(raw[..i]), enc) == Ok(code)
    requires enc(Clean(raw[i]), |code|).Err?
    ensures EncodeAll(CleanLines(raw), enc) == Err(enc(Clean(raw[i]), |code|).error)
  {
    var done, line, all := CleanLines(raw[..i]), Clean(raw[i]), CleanLines(raw);
    assert CleanLines(raw[..i + 1]) == done + [line] by {
      CleanStep(raw, i);
    }
    assert |done| < |all| && all[..|done| + 1] == done + [line] by {
      CleanLinesPrefix(raw, i + 1);
    }
    EncodeAllExtend(done, line, all, enc, code);
  }

  /** One more line after a successful prefix: its word is appended, or its error is that of any longer run. */
  lemma EncodeAllExtend(done: seq<string>, line: string, all: seq<string>, enc: (string, nat) -> Result<nat>, code: seq<nat>)
    requires EncodeAll(done, enc) == Ok(code)
    requires |done| < |all| && all[..|done| + 1] == done + [line]
    ensures enc(line, |code|).Ok? ==> EncodeAll(done + [line], enc) == Ok(code + [enc(line, |code|).value])
    ensures enc(line, |code|).Err? ==> EncodeAll(all, enc) == Err(enc(line, |code|).error)
  {
    EncodeAllSnoc(done, line, enc);
    if enc(line, |code|).Err? {
      EncodeAllAbort(all, |done| + 1, enc);
    }
  }

  /** One iteration of the loop of `assemble`, after a successful prefix of i raw lines. */
  lemma EncodeRawStep(raw: seq<string>, i: nat, enc: (string, nat) -> Result<nat>, code: seq<nat>)
    requires i < |raw| && EncodeAll(CleanLines(raw[..i]), enc) == Ok(code)
    ensures Clean(raw[i]) == [] ==> EncodeAll(CleanLines(raw[..i + 1]), enc) == Ok(code)
    ensures Clean(raw[i]) != [] && enc(Clean(raw[i]), |code|).Ok? ==>
      EncodeAll(CleanLines(raw[..i + 1]), enc) == Ok(code + [enc(Clean(raw[i]), |code|).value])
    ensures Clean(raw[i]) != [] && enc(Clean(raw[i]), |code|).Err? ==>
      EncodeAll(CleanLines(raw), enc) == Err(enc(Clean(raw[i]), |code|).error)
  {
    if Clean(raw[i]) == [] {
      EncodeRawSkip(raw, i, enc, code);
    } else if enc(Clean(raw[i]), |code|).Ok? {
      EncodeRawKeep(raw, i, enc, code);
    } else {
      EncodeRawFail(raw, i, enc, code);
    }
  }

  /** The loop of `assemble`: clean each raw line, skip it if empty, else append its word; the first error aborts. */
  method EncodeRawLines(raw: seq<string>, enc: (string, nat) -> Result<nat>) returns (r: Result<seq<nat>>)
    ensures r == EncodeAll(CleanLines(raw), enc)
  {
    var code: seq<nat> := [];
    var i := 0;
    while i < |raw|
      invariant i <= |raw|
      invariant EncodeAll(CleanLines(raw[..i]), enc) == Ok(code)
    {
      EncodeRawStep(raw, i, enc, code);
      var line := Clean(raw[i]);
      if line != [] {
        var word := enc(line, |code|);
        if word.Err? {
          return Err(word.error);
        }
        code := code + [word.value];
      }
      i := i + 1;
    }
    assert raw[..i] == raw;
    return Ok(code);
  }
}
