/**
 * The string operations the assemblers apply to their source text, each
 * modelled on the Python built-in it stands for: `str.splitlines`,
 * `str.split(";")[0]`, `str.strip`, `str.replace(c, "")`, `str.split()`,
 * `re.split(r"[,\s]+", ...)`, `str.endswith(":")`, slicing and `int`.
 */
module Text {
  import opened Errors

  /** Python's `str.isspace` for one character: the characters `strip`, `split()` and `\s` treat as blank. */
  predicate IsSpace(c: char)
  {
    var n := c as int;
    n == 0x20 || 0x09 <= n <= 0x0D || 0x1C <= n <= 0x1F || n == 0x85 || n == 0xA0 || n == 0x1680
    || 0x2000 <= n <= 0x200A || n == 0x2028 || n == 0x2029 || n == 0x202F || n == 0x205F || n == 0x3000
  }

  /** The line boundaries of `str.splitlines` (the pair "\r\n" counts as one boundary). */
  predicate IsLineBreak(c: char)
  {
    var n := c as int;
    0x0A <= n <= 0x0D || 0x1C <= n <= 0x1E || n == 0x85 || n == 0x2028 || n == 0x2029
  }

  predicate IsDigit(c: char)
  {
    '0' <= c <= '9'
  }

  /** No character of s satisfies p. */
  ghost predicate NoneIn(s: string, p: char -> bool)
  {
    forall k :: 0 <= k < |s| ==> !p(s[k])
  }

  /**
   * The first index at or after `from` whose character c has `p(c) == stop`,
   * or |s| when there is none.
   */
  function Scan(s: string, from: nat, p: char -> bool, stop: bool): (r: nat)
    requires from <= |s|
    ensures from <= r <= |s|
    ensures forall k :: from <= k < r ==> p(s[k]) != stop
    ensures r < |s| ==> p(s[r]) == stop
    decreases |s| - from
  {
    if from == |s| then from
    else if p(s[from]) == stop then from
    else Scan(s, from + 1, p, stop)
  }

  /** The characters of s that do not satisfy p, in order (`s.replace(c, "")` when p is `== c`). */
  function Without(s: string, p: char -> bool): (r: string)
    ensures |r| <= |s|
  {
    if s == [] then []
    else (if p(s[0]) then [] else [s[0]]) + Without(s[1..], p)
  }

  /** Removing characters distributes over concatenation. */
  lemma {:induction false} WithoutAppend(a: string, b: string, p: char -> bool)
    ensures Without(a + b, p) == Without(a, p) + Without(b, p)
  {
    if a == [] {
      assert a + b == b;
    } else {
      assert (a + b)[0] == a[0];
      assert (a + b)[1..] == a[1..] + b;
      WithoutAppend(a[1..], b, p);
    }
  }

  /** A string cut at i and j: s[..i] keeps everything, s[i..j] loses everything. */
  lemma {:induction false} WithoutPieces(s: string, i: nat, j: nat, p: char -> bool)
    requires i <= j <= |s|
    requires forall k :: 0 <= k < i ==> !p(s[k])
    requires forall k :: i <= k < j ==> p(s[k])
    ensures Without(s, p) == s[..i] + Without(s[j..], p)
    decreases j
  {
    if j == 0 {
      assert s[j..] == s;
    } else {
      var t := s[1..];
      var i' := if i > 0 then i - 1 else 0;
      assert t[j - 1..] == s[j..];
      forall k | 0 <= k < i' ensures !p(t[k]) {
        assert t[k] == s[k + 1];
      }
      forall k | i' <= k < j - 1 ensures p(t[k]) {
        assert t[k] == s[k + 1];
      }
      WithoutPieces(t, i', j - 1, p);
      if i > 0 {
        assert Without(s, p) == [s[0]] + Without(t, p);
        assert [s[0]] + t[..i - 1] == s[..i];
      } else {
        assert Without(s, p) == Without(t, p);
      }
    }
  }

  /** A string with nothing to remove is left as it is. */
  lemma {:induction false} WithoutNone(s: string, p: char -> bool)
    requires NoneIn(s, p)
    ensures Without(s, p) == s
  {
    if s != [] {
      WithoutNone(s[1..], p);
    }
  }

  /** Removing a leading character that p matches from a string p matches nowhere else. */
  lemma WithoutLead(c: char, s: string, p: char -> bool)
    requires p(c) && NoneIn(s, p)
    ensures Without([c] + s, p) == s
  {
    assert ([c] + s)[1..] == s;
    WithoutNone(s, p);
  }

  /** A decimal numeral holds none of the characters p matches when p matches no digit. */
  lemma NumeralNoneIn(n: nat, p: char -> bool)
    requires forall c :: IsDigit(c) ==> !p(c)
    ensures NoneIn(NatToString(n), p)
  {
    var s := NatToString(n);
    forall k | 0 <= k < |s| ensures !p(s[k]) {
      assert IsDigit(s[k]);
    }
  }

  /** A string made only of removed characters disappears. */
  lemma {:induction false} WithoutAll(s: string, p: char -> bool)
    requires forall k :: 0 <= k < |s| ==> p(s[k])
    ensures Without(s, p) == []
  {
    if s != [] {
      WithoutAll(s[1..], p);
    }
  }

  /** The concatenation of a list of strings. */
  function Concat(ss: seq<string>): string
  {
    if ss == [] then [] else ss[0] + Concat(ss[1..])
  }

  lemma ConcatCons(a: string, ss: seq<string>)
    ensures Concat([a] + ss) == a + Concat(ss)
  {
    assert ([a] + ss)[1..] == ss;
  }

  /** Python's `text.splitlines()`: the text between line boundaries, without a last empty line. */
  function SplitLines(s: string): (r: seq<string>)
    ensures forall k :: 0 <= k < |r| ==> NoneIn(r[k], IsLineBreak)
    decreases |s|
  {
    if s == [] then []
    else
      var i := Scan(s, 0, IsLineBreak, true);
      if i == |s| then [s]
      else
        [s[..i]] + SplitLines(s[i + BreakWidth(s, i)..])
  }

  /** The width of the line break at i: two characters for `\r\n`, otherwise one. */
  function BreakWidth(s: string, i: nat): (r: nat)
    requires i < |s| && IsLineBreak(s[i])
    ensures r == 1 || r == 2
    ensures i + r <= |s| && forall k :: i <= k < i + r ==> IsLineBreak(s[k])
  {
    if s[i] == '\r' && i + 1 < |s| && s[i + 1] == '\n' then 2 else 1
  }

  /**
   * A line ends at its first line break: text without a break followed by
   * `\n` is one line, and splitting carries on after the break.
   */
  lemma SplitLinesCons(l: string, rest: string)
    requires NoneIn(l, IsLineBreak)
    ensures SplitLines(l + "\n" + rest) == [l] + SplitLines(rest)
  {
    var s := l + "\n" + rest;
    FirstBreak(s, |l|);
    assert s[..|l|] == l && s[|l| + 1..] == rest;
  }

  /** The same for the two-character break `\r\n`, which ends one line, not two. */
  lemma SplitLinesCrLf(l: string, rest: string)
    requires NoneIn(l, IsLineBreak)
    ensures SplitLines(l + "\r\n" + rest) == [l] + SplitLines(rest)
  {
    var s := l + "\r\n" + rest;
    FirstBreak(s, |l|);
    assert s[..|l|] == l && s[|l| + 2..] == rest;
  }

  /** A scan for a line break stops at the first one. */
  lemma FirstBreak(s: string, i: nat)
    requires i < |s| && IsLineBreak(s[i]) && NoneIn(s[..i], IsLineBreak)
    ensures Scan(s, 0, IsLineBreak, true) == i
  {
    assert forall k :: 0 <= k < i ==> s[..i][k] == s[k];
  }

  /** Splitting into lines keeps every other character, in order. */
  lemma {:induction false} SplitLinesKeepsText(s: string)
    ensures Concat(SplitLines(s)) == Without(s, IsLineBreak)
    decreases |s|
  {
    if s != [] {
      var i := Scan(s, 0, IsLineBreak, true);
      if i == |s| {
        SplitLinesLast(s);
      } else {
        var j := i + BreakWidth(s, i);
        SplitLinesKeepsText(s[j..]);
        ConcatPieces(s, i, j, SplitLines(s[j..]));
      }
    }
  }

  /** Text with no line break is one line. */
  lemma SplitLinesLast(s: string)
    requires s != [] && Scan(s, 0, IsLineBreak, true) == |s|
    ensures Concat(SplitLines(s)) == Without(s, IsLineBreak)
  {
    assert SplitLines(s) == [s];
    WithoutPieces(s, |s|, |s|, IsLineBreak);
    assert s[..|s|] == s && s[|s|..] == [];
    assert Without([], IsLineBreak) == [];
    ConcatCons(s, []);
    assert [s] + [] == [s];
  }

  /** A first line up to a break of one or two characters, then lines that keep the text after it. */
  lemma ConcatPieces(s: string, i: nat, j: nat, tail: seq<string>)
    requires i <= j <= |s| && Concat(tail) == Without(s[j..], IsLineBreak)
    requires forall k :: 0 <= k < i ==> !IsLineBreak(s[k])
    requires forall k :: i <= k < j ==> IsLineBreak(s[k])
    ensures Concat([s[..i]] + tail) == Without(s, IsLineBreak)
  {
    WithoutPieces(s, i, j, IsLineBreak);
    ConcatCons(s[..i], tail);
  }

  /** Python's `s.split(c)[0]` when p is `== c`: the text before the first character satisfying p. */
  function Before(s: string, p: char -> bool): (r: string)
    ensures |r| <= |s| && r == s[..|r|]
    ensures NoneIn(r, p)
    ensures |r| < |s| ==> p(s[|r|])
  {
    s[..Scan(s, 0, p, true)]
  }

  /** Python's `s.lstrip()`: s from its first non-blank character. */
  function StripLeft(s: string): (r: string)
    ensures |r| <= |s| && r == s[|s| - |r|..]
    ensures forall k :: 0 <= k < |s| - |r| ==> IsSpace(s[k])
    ensures r != [] ==> !IsSpace(r[0])
  {
    s[Scan(s, 0, IsSpace, false)..]
  }

  /** The length of s[..to] without its trailing blanks. */
  function KeptEnd(s: string, to: nat): (r: nat)
    requires to <= |s|
    ensures r <= to
    ensures forall k :: r <= k < to ==> IsSpace(s[k])
    ensures r > 0 ==> !IsSpace(s[r - 1])
  {
    if to == 0 || !IsSpace(s[to - 1]) then to else KeptEnd(s, to - 1)
  }

  /** Python's `s.rstrip()`: s up to its last non-blank character. */
  function StripRight(s: string): (r: string)
    ensures |r| <= |s| && r == s[..|r|]
    ensures forall k :: |r| <= k < |s| ==> IsSpace(s[k])
    ensures r != [] ==> !IsSpace(r[|r| - 1])
  {
    s[..KeptEnd(s, |s|)]
  }

  /** Python's `s.strip()`. */
  function Strip(s: string): string
  {
    StripRight(StripLeft(s))
  }

  /**
   * What `strip` keeps: a contiguous piece of s, with only blanks cut on either
   * side, that neither starts nor ends with a blank.
   */
  lemma StripShape(s: string)
    ensures var r, a := Strip(s), |s| - |StripLeft(s)|;
      && a + |r| <= |s| && r == s[a..a + |r|]
      && (forall k :: 0 <= k < a ==> IsSpace(s[k]))
      && (forall k :: a + |r| <= k < |s| ==> IsSpace(s[k]))
      && (r != [] ==> !IsSpace(r[0]) && !IsSpace(r[|r| - 1]))
  {
    var l := StripLeft(s);
    TrimBoth(s, l, StripRight(l));
  }

  /** A suffix l of s after blanks, then a prefix r of l before blanks: r is the piece of s between the two cuts. */
  lemma TrimBoth(s: string, l: string, r: string)
    requires |l| <= |s| && l == s[|s| - |l|..] && (l != [] ==> !IsSpace(l[0]))
    requires forall k :: 0 <= k < |s| - |l| ==> IsSpace(s[k])
    requires |r| <= |l| && r == l[..|r|] && (r != [] ==> !IsSpace(r[|r| - 1]))
    requires forall k :: |r| <= k < |l| ==> IsSpace(l[k])
    ensures var a := |s| - |l|;
      && a + |r| <= |s| && r == s[a..a + |r|]
      && (forall k :: 0 <= k < a ==> IsSpace(s[k]))
      && (forall k :: a + |r| <= k < |s| ==> IsSpace(s[k]))
      && (r != [] ==> !IsSpace(r[0]) && !IsSpace(r[|r| - 1]))
  {
    var a := |s| - |l|;
    forall k | a + |r| <= k < |s| ensures IsSpace(s[k]) {
      assert s[k] == l[k - a];
    }
    if r != [] {
      assert r[0] == l[0];
    }
  }

  /** Python's `str.split()` with no argument: the maximal runs of non-blank characters. */
  function Words(s: string): (r: seq<string>)
    ensures forall k :: 0 <= k < |r| ==> r[k] != [] && NoneIn(r[k], IsSpace)
    decreases |s|
  {
    if s == [] then []
    else if IsSpace(s[0]) then Words(s[1..])
    else
      var i := Scan(s, 0, IsSpace, true);
      var w := s[..i];
      assert NoneIn(w, IsSpace) by {
        forall k | 0 <= k < |w| ensures !IsSpace(w[k]) {
          assert w[k] == s[k];
        }
      }
      [w] + Words(s[i..])
  }

  /** A non-empty string without blanks is one word. */
  lemma WordsSingle(s: string)
    requires s != [] && NoneIn(s, IsSpace)
    ensures Words(s) == [s]
  {
    var i := Scan(s, 0, IsSpace, true);
    assert i == |s|;
    assert s[..i] == s && s[i..] == [];
  }

  /** A word, one blank, then more text: the word comes first, then the words of the rest. */
  lemma WordsAfter(w: string, rest: string)
    requires w != [] && NoneIn(w, IsSpace)
    ensures Words(w + " " + rest) == [w] + Words(rest)
  {
    var s := w + " " + rest;
    var i := Scan(s, 0, IsSpace, true);
    forall k | 0 <= k < |w| ensures !IsSpace(s[k]) {
      assert s[k] == w[k];
    }
    assert s[|w|] == ' ';
    assert i == |w|;
    assert s[..i] == w;
    assert s[i..][1..] == rest;
  }

  /** Splitting into words keeps every non-blank character, in order. */
  lemma {:induction false} WordsKeepText(s: string)
    ensures Concat(Words(s)) == Without(s, IsSpace)
    decreases |s|
  {
    if s == [] {
    } else if IsSpace(s[0]) {
      WordsKeepText(s[1..]);
      WithoutPieces(s, 0, 1, IsSpace);
    } else {
      var i := Scan(s, 0, IsSpace, true);
      WordsKeepText(s[i..]);
      WithoutPieces(s, i, i, IsSpace);
      ConcatCons(s[..i], Words(s[i..]));
    }
  }

  /** The separators of assembler.py's `re.split(r"[,\s]+", line)`. */
  predicate IsCommaOrSpace(c: char)
  {
    c == ',' || IsSpace(c)
  }

  /**
   * Python's `re.split(r"[,\s]+", s)`: the text between maximal runs of commas and
   * blanks; a leading or trailing run gives an empty first or last field.
   */
  function SplitFields(s: string): (r: seq<string>)
    ensures |r| >= 1
    ensures forall k :: 0 <= k < |r| ==> NoneIn(r[k], IsCommaOrSpace)
    decreases |s|
  {
    var i := Scan(s, 0, IsCommaOrSpace, true);
    if i == |s| then [s]
    else
      var j := Scan(s, i, IsCommaOrSpace, false);
      var f := s[..i];
      assert NoneIn(f, IsCommaOrSpace) by {
        forall k | 0 <= k < |f| ensures !IsCommaOrSpace(f[k]) {
          assert f[k] == s[k];
        }
      }
      [f] + SplitFields(s[j..])
  }

  /** Splitting into fields keeps every character that is not a separator, in order. */
  lemma {:induction false} SplitFieldsKeepText(s: string)
    ensures Concat(SplitFields(s)) == Without(s, IsCommaOrSpace)
    decreases |s|
  {
    var i := Scan(s, 0, IsCommaOrSpace, true);
    if i == |s| {
      WithoutPieces(s, |s|, |s|, IsCommaOrSpace);
      ConcatCons(s, []);
    } else {
      var j := Scan(s, i, IsCommaOrSpace, false);
      var rest := s[j..];
      SplitFieldsKeepText(rest);
      WithoutPieces(s, i, j, IsCommaOrSpace);
      ConcatCons(s[..i], SplitFields(rest));
    }
  }

  /** A scan that must pass over [from, to) and must stop at `to` ends at `to`. */
  lemma ScanStops(s: string, from: nat, to: nat, p: char -> bool, stop: bool)
    requires from <= to < |s|
    requires forall k :: from <= k < to ==> p(s[k]) != stop
    requires p(s[to]) == stop
    ensures Scan(s, from, p, stop) == to
  {
  }

  /**
   * A field, a run of separators and a rest that starts with a field split into
   * that field and the fields of the rest: the run separates, whatever its length.
   */
  lemma SplitFieldsCons(w: string, sep: string, rest: string)
    requires w != [] && NoneIn(w, IsCommaOrSpace)
    requires sep != [] && forall k :: 0 <= k < |sep| ==> IsCommaOrSpace(sep[k])
    requires rest != [] && !IsCommaOrSpace(rest[0])
    ensures SplitFields(w + sep + rest) == [w] + SplitFields(rest)
  {
    var s := w + sep + rest;
    var i, j := |w|, |w| + |sep|;
    assert s[..i] == w && s[j..] == rest;
    forall k | 0 <= k < i ensures !IsCommaOrSpace(s[k]) {
      assert s[k] == w[k];
    }
    assert s[i] == sep[0];
    ScanStops(s, 0, i, IsCommaOrSpace, true);
    forall k | i <= k < j ensures IsCommaOrSpace(s[k]) {
      assert s[k] == sep[k - i];
    }
    assert s[j] == rest[0];
    ScanStops(s, i, j, IsCommaOrSpace, false);
  }

  /** A field with no separator in it is split into itself. */
  lemma SplitFieldsSingle(w: string)
    requires NoneIn(w, IsCommaOrSpace)
    ensures SplitFields(w) == [w]
  {
  }

  /** A field as a line writes it: non-empty, with no comma or blank in it. */
  ghost predicate Plain(w: string)
  {
    w != [] && NoneIn(w, IsCommaOrSpace)
  }

  /** Fields written one after another with `, ` between them. */
  function Commas(fs: seq<string>): string
    requires |fs| >= 1
  {
    if |fs| == 1 then fs[0] else fs[0] + ", " + Commas(fs[1..])
  }

  /** A line as the programs write it: the opcode, a blank, then the operands separated by `, `. */
  function Join(fs: seq<string>): string
    requires |fs| >= 1
  {
    if |fs| == 1 then fs[0] else fs[0] + " " + Commas(fs[1..])
  }

  /** Join spelled out for lines of one to four fields. */
  lemma JoinShapes(op: string, a: string, b: string, c: string)
    ensures Join([op]) == op
    ensures Join([op, a]) == op + " " + a
    ensures Join([op, a, b]) == op + " " + a + ", " + b
    ensures Join([op, a, b, c]) == op + " " + a + ", " + b + ", " + c
  {
    assert [op, a][1..] == [a];
    assert [op, a, b][1..] == [a, b] && [a, b][1..] == [b];
    assert Commas([a, b]) == a + ", " + b;
    assert op + " " + (a + ", " + b) == op + " " + a + ", " + b;
    assert [op, a, b, c][1..] == [a, b, c] && [a, b, c][1..] == [b, c] && [b, c][1..] == [c];
    assert Commas([b, c]) == b + ", " + c;
    assert Commas([a, b, c]) == a + ", " + (b + ", " + c);
    assert op + " " + (a + ", " + (b + ", " + c)) == op + " " + a + ", " + b + ", " + c;
  }

  /** Text written with Commas starts with the first field. */
  lemma CommasStart(fs: seq<string>)
    requires |fs| >= 1
    ensures |Commas(fs)| >= |fs[0]| && Commas(fs)[..|fs[0]|] == fs[0]
  {
    if |fs| > 1 {
      assert Commas(fs) == fs[0] + (", " + Commas(fs[1..]));
    }
  }

  /** Splitting text written with Commas gives back its fields. */
  lemma {:induction false} SplitCommas(fs: seq<string>)
    requires |fs| >= 1 && forall k :: 0 <= k < |fs| ==> Plain(fs[k])
    ensures SplitFields(Commas(fs)) == fs
    decreases |fs|
  {
    if |fs| == 1 {
      SplitFieldsSingle(fs[0]);
    } else {
      var rest := fs[1..];
      PlainTail(fs);
      SplitCommas(rest);
      assert ", "[0] == ',' && ", "[1] == ' ';
      SplitPrepend(fs[0], ", ", rest, Commas(fs));
      assert [fs[0]] + rest == fs;
    }
  }

  /** The fields after the first of plain fields are plain. */
  lemma PlainTail(fs: seq<string>)
    requires |fs| >= 1 && forall k :: 0 <= k < |fs| ==> Plain(fs[k])
    ensures forall k :: 0 <= k < |fs[1..]| ==> Plain(fs[1..][k])
  {
    assert forall k :: 0 <= k < |fs[1..]| ==> fs[1..][k] == fs[k + 1];
  }

  /** One more plain field in front, before a run of separators, splits off as the first field. */
  lemma SplitPrepend(w: string, sep: string, rest: seq<string>, line: string)
    requires Plain(w) && |rest| >= 1 && Plain(rest[0]) && SplitFields(Commas(rest)) == rest
    requires sep != [] && forall k :: 0 <= k < |sep| ==> IsCommaOrSpace(sep[k])
    requires line == w + sep + Commas(rest)
    ensures SplitFields(line) == [w] + rest
  {
    CommasStart(rest);
    assert Commas(rest)[0] == rest[0][0];
    SplitFieldsCons(w, sep, Commas(rest));
  }

  /** Splitting a line written with Join gives back its fields: the opcode and then the operands. */
  lemma SplitJoin(fs: seq<string>)
    requires |fs| >= 1 && forall k :: 0 <= k < |fs| ==> Plain(fs[k])
    ensures SplitFields(Join(fs)) == fs
  {
    if |fs| == 1 {
      SplitFieldsSingle(fs[0]);
    } else {
      var rest := fs[1..];
      PlainTail(fs);
      SplitCommas(rest);
      assert " "[0] == ' ';
      SplitPrepend(fs[0], " ", rest, Join(fs));
      assert [fs[0]] + rest == fs;
    }
  }

  /** Python's `s.endswith(":")`. */
  predicate EndsWithColon(s: string)
  {
    |s| > 0 && s[|s| - 1] == ':'
  }

  /** Python's `s[1:]`, which is empty for an empty s. */
  function DropFirst(s: string): (r: string)
    ensures s != [] ==> s == [s[0]] + r
    ensures s == [] ==> r == []
  {
    if s == [] then [] else s[1..]
  }

  /** The value of a string of decimal digits. */
  function DigitsValue(s: string): nat
    requires forall k :: 0 <= k < |s| ==> IsDigit(s[k])
  {
    if s == [] then 0
    else
      assert IsDigit(s[|s| - 1]);
      10 * DigitsValue(s[..|s| - 1]) + (s[|s| - 1] as int - '0' as int)
  }

  /**
   * Python's `int(s)` for a token that holds no blank: a non-empty string of
   * decimal digits, or else ValueError.
   */
  function Int(s: string): (r: Result<nat>)
    ensures r.Err? <==> (s == [] || exists k :: 0 <= k < |s| && !IsDigit(s[k]))
    ensures r.Err? ==> r.error == NotANumber(s)
  {
    if s != [] && forall k :: 0 <= k < |s| ==> IsDigit(s[k]) then Ok(DigitsValue(s)) else Err(NotANumber(s))
  }

  /** The decimal numeral of n, as `str(n)` writes it. */
  function NatToString(n: nat): (r: string)
    ensures r != [] && forall k :: 0 <= k < |r| ==> IsDigit(r[k])
  {
    (if n < 10 then [] else NatToString(n / 10)) + [('0' as int + n % 10) as char]
  }

  /** The digits `str` writes for n have the value n. */
  lemma {:induction false} DigitsOfNatToString(n: nat)
    ensures DigitsValue(NatToString(n)) == n
  {
    var head := if n < 10 then [] else NatToString(n / 10);
    var digit := ('0' as int + n % 10) as char;
    DigitsSnoc(head, digit);
    if n >= 10 {
      DigitsOfNatToString(n / 10);
    }
  }

  /** One more digit on the right: ten times the value so far, plus that digit. */
  lemma DigitsSnoc(head: string, c: char)
    requires IsDigit(c) && forall k :: 0 <= k < |head| ==> IsDigit(head[k])
    ensures forall k :: 0 <= k < |head + [c]| ==> IsDigit((head + [c])[k])
    ensures DigitsValue(head + [c]) == 10 * DigitsValue(head) + (c as int - '0' as int)
  {
    assert (head + [c])[..|head|] == head;
  }

  /** `int` reads back what `str` writes. */
  lemma IntOfNatToString(n: nat)
    ensures Int(NatToString(n)) == Ok(n)
  {
    DigitsOfNatToString(n);
  }
}
