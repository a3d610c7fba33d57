# A verified model of the TINY_GPU assembler and channel interleaver

This project models the two algorithmic pieces of a minimal SIMT processor's
host software, in Dafny:

- **The assembler** for the 16-bit instruction set. Every word has its opcode
  in bits [15:12] and register fields in bits [11:8], [7:4] and [3:0]. CONST
  carries an 8-bit immediate in the low byte. BRn is the 7-bit prefix
  `0001100` followed by a 9-bit absolute target. The repository holds three
  copies of the assembler:
  - `assembler.py`: the encoder `assemble_line` and a two-pass `assemble`.
  - `test/test_image.py`: a two-pass `assemble` with the full opcode set.
  - `test/test_16bit.py`: a single-pass `assemble` with no labels.

  Each copy is modelled over one `Isa.Instr` datatype and one `Isa.Encode`
  function. A copy's opcode set is a subset of `Isa.Opcode`.
- **The channel interleaver** of `analyze_gpu_output` (`analyzegpu.py`).
  It has two views of a buffer. The physical view puts element `i` in lane
  `i mod C` at position `i div C`. The de-interleave loop rebuilds thread
  order and truncates an incomplete last row.

Modules:

| module | file | what it holds |
|---|---|---|
| `Bits` | bits.dfy | Python's `<<` and `\|` on unbounded non-negative integers; when fields are disjoint, OR is addition |
| `Errors` | errors.dfy | the Python exceptions the code raises, as an `Error` datatype and a `Result` |
| `Text` | text.dfy | `splitlines`, `split(";")[0]`, `strip`, `replace`, `split()`, `re.split(r"[,\s]+")`, `endswith`, `[1:]`, `int` |
| `Isa` | isa.dfy | opcodes, instructions, `Encode`, a field-by-field `Decode`, and the field-separation lemmas |
| `Listing` | listing.dfy | line cleaning, label lines, the pass-1 table, the pass-2 loop; the imperative loops are proved against these functions |
| `Assembler` | assembler.dfy | `REG`, `assemble_line` and `assemble` of assembler.py |
| `TestImage` | test_image.dfy | `R` and `assemble` of test/test_image.py |
| `Test16Bit` | test_16bit.dfy | `assemble` of test/test_16bit.py (its `R` and tokeniser are the same text as test_image.py's) |
| `Variants` | variants.dfy | the three copies agree on the opcodes they share |
| `Vectors` | vectors.dfy | worked examples: a seven-line loop program, the demo program of assembler.py, the hand-encoded kernel of test/test_kernel1_mul.py |
| `Interleave` | interleave.dfy | the lane split, the de-interleave loop and their round trip |

Machine words are modelled as `nat`, because Python ints are unbounded and
none of the copies masks a field. A register above 15 or an immediate above
255 therefore spills into the neighbouring field, exactly as in the source.
The field-separation lemmas state the ranges as preconditions.

No copy of the assembler checks register or immediate ranges, rejects a
redefined label or reports a line number, and the lane split accepts any
channel count. The model follows the code:
- a later label definition overwrites an earlier one;
- `CONST R0, #256` assembles (to `0x9100`) instead of failing;
- errors carry the Python exception's cause but no line number;
- the lane split simply yields no lanes for a channel count of zero or
  less. A zero count then fails in the de-interleave loop's floor division.

## Model

| member | source | states |
|---|---|---|
| `Bits.OrBit` | assembler.py:9 | bit k of `a \| b` is set exactly when bit k of a or of b is set: `Or` is Python's bitwise OR |
| `Bits.OrDisjoint` | assembler.py:13 | OR-ing a value below 2^k into a multiple of 2^k is addition, so in-range fields do not interfere |
| `Isa.Lookup` | test/test_image.py:44-75 | the `if op == ...` chain matches at most one mnemonic; a name that is no mnemonic matches none |
| `Isa.LookupMnemonic` | assembler.py:7-36 | each opcode's spelling selects that opcode's branch |
| `Isa.EncodeFields` | assembler.py:7-36 | with operands in range, each word is the plain sum of opcode pattern and shifted fields (CONST `0x9000 + d*256 + imm`, BRn `0x1800 + target`, RET `0xF000`, ...) |
| `Isa.ConstFields` | assembler.py:7-9 | for d < 16 and imm < 256 the CONST word is below 2^16, its top nibble is 9, bits [11:8] are d and the low byte is imm |
| `Isa.ThreeRegFields` | test/test_image.py:47-57 | ADD, SUB, MUL, DIV have top nibbles 3, 4, 5, 6 and d, s, t in bits [11:8], [7:4], [3:0] |
| `Isa.TwoRegFields` | assembler.py:19-29 | LDR (nibble 7) keeps bits [3:0] zero; STR (nibble 8) and CMP (nibble 2) keep bits [11:8] zero; the registers land in their fields |
| `Isa.BrnFields` | test/test_image.py:68-69 | for a target below 512, `word / 512 == 0b0001100` and `word % 512 == target` |
| `Isa.DecodeEncode` | assembler.py:6-38 | decoding the word of any in-range instruction gives the instruction back |
| `Isa.EncodeDecode` | assembler.py:6-38 | every word that decodes is the encoding of the in-range instruction it decodes to |
| `Text.SplitLines` | assembler.py:42 | `splitlines` yields pieces containing no line break |
| `Text.SplitLinesKeepsText` | assembler.py:42 | the lines, concatenated, are the text with its line breaks removed |
| `Text.SplitLinesCons` | assembler.py:42 | a line ends at its first break: a break-free line followed by `\n` is one piece and splitting resumes after the break |
| `Text.SplitLinesCrLf` | assembler.py:42 | `\r\n` is a single break: a break-free line followed by `\r\n` is one piece, with no empty piece between the two characters |
| `Text.WordsKeepText` | test/test_16bit.py:25 | `split()` yields non-empty blank-free words that, concatenated, are the non-blank characters in order |
| `Text.SplitFieldsKeepText` | assembler.py:63 | `re.split(r"[,\s]+")` keeps every non-separator character, in order |
| `Text.SplitJoin` | assembler.py:63-65 | a line written `OP a, b, c` splits back into the opcode and the operands |
| `Text.Int` | test/test_image.py:14 | `int` fails with ValueError exactly on an empty or non-digit token |
| `Text.IntOfNatToString` | test/test_image.py:14 | `int` reads back the decimal numeral of n as n |
| `Listing.CleanShape` | assembler.py:42 | a cleaned line is the text before the first `;`, with only leading and trailing blanks cut, and contains no `;` |
| `Listing.CleanLinesAppend` | assembler.py:43 | cleaning works line by line and keeps the relative order of the kept lines |
| `Listing.CleanStep` | test/test_image.py:18-22 | one more raw line appends its cleaned text unless that is empty |
| `Listing.Instructions` | assembler.py:59-61 | the instruction lines are the lines that do not end in `:` |
| `Listing.InstructionAt` | assembler.py:56-69 | the instruction line at index j is instruction number "count of instruction lines before j" |
| `Listing.InstructionsOnly` | assembler.py:59-61 | conversely, instruction k is a line not ending in `:` with exactly k such lines before it, so the instructions are exactly the non-label lines, in order |
| `Listing.LabelsDomain` | assembler.py:49-51 | a name is in the table exactly when some `NAME:` line defines it |
| `Listing.LabelsValue` | assembler.py:45-53 | a name is bound to the number of instruction lines before its last definition (a later duplicate overwrites) |
| `Listing.CollectLabels` | assembler.py:45-53 | the pass-1 loop, with its running pc, builds exactly the table `Labels(lines)` |
| `Listing.EncodePass` | assembler.py:55-71 | the pass-2 loop skips label lines, appends one word per instruction line at the running pc, and stops at the first error |
| `Listing.EncodeAllWords` | assembler.py:59-71 | pass 2 succeeds exactly when every instruction line encodes; then word i is line i's word at pc i |
| `Listing.EncodeAllFirstError` | assembler.py:67 | a failing pass 2 reports the error of the first failing line; no partial program is returned |
| `Listing.EncodeRawLines` | test/test_16bit.py:19-45 | the single-pass loop cleans each raw line, skips empty ones and appends one word per kept line |
| `Assembler.Operands` | assembler.py:6-38 | a dispatch that succeeds used an opcode of assembler.py's set; BRn takes `labels[args[0]]` as its target |
| `Assembler.UnknownOpcodeFails` | assembler.py:38 | any opcode outside CONST/ADD/MUL/LDR/STR/CMP/BRn/RET (SUB and DIV included) raises ValueError |
| `Assembler.PcIgnored` | assembler.py:6 | the pc argument never changes the word |
| `Assembler.Assemble` | assembler.py:41-71 | `assemble` returns the two-pass specification `Passes(Preprocess(text))` |
| `Assembler.ProgramWords` | assembler.py:56-71 | the output has one word per instruction line, in order, and fails exactly when some line fails |
| `Assembler.PassesOf` | assembler.py:56-71 | conversely, a word list matching the lines one by one is the assembler's output |
| `Assembler.BranchLine` | assembler.py:31-33 | `BRn name` encodes `0x1800 \| labels[name]` at any pc, or raises KeyError for an unknown name |
| `Assembler.BranchResolves` | assembler.py:45-67 | forward and backward references alike: the branch word carries the absolute address of the label's last definition |
| `Assembler.UndefinedBranchFails` | assembler.py:33 | a branch to a name no label line defines makes the whole assembly fail |
| `Assembler.RegText` | assembler.py:4 | `REG("R" + str(n)) == n` |
| `Assembler.ImmText` | assembler.py:9 | the immediate `#n` is read as n |
| `TestImage.Operands` | test/test_image.py:44-75 | a dispatch that succeeds matched the opcode's mnemonic; BRn takes `labels[p[1]]` |
| `TestImage.KeepLines` | test/test_image.py:18-22 | the cleaning loop keeps the non-empty cleaned lines in order |
| `TestImage.Assemble` | test/test_image.py:17-77 | `assemble` returns the two-pass specification of this copy |
| `TestImage.ProgramWords` | test/test_image.py:36-77 | pass 2 skips label lines; one word per remaining line, in order; it fails exactly when some line fails |
| `TestImage.TokensKeepText` | test/test_image.py:41 | tokenising deletes commas, then splits at blanks, keeping every other character in order |
| `TestImage.RText` | test/test_image.py:13-14 | `R` drops the first character, whatever it is, and parses the rest |
| `TestImage.ExtraFieldsIgnored` | test/test_image.py:41-72 | there is no operand-count check: trailing extra fields change nothing |
| `TestImage.UnknownOpcodeFails` | test/test_image.py:74-75 | any other opcode raises ValueError |
| `TestImage.BranchLine` | test/test_image.py:68-69 | `BRn name` encodes the table's absolute address or raises KeyError |
| `TestImage.BranchResolves` | test/test_image.py:24-69 | a branch word carries the address of the label's last definition, wherever the label stands |
| `TestImage.UndefinedBranchFails` | test/test_image.py:69 | a branch to an undefined name makes the whole assembly fail |
| `Test16Bit.Operands16` | test/test_16bit.py:28-43 | a dispatch that succeeds used one of CONST/ADD/MUL/DIV/LDR/STR/RET |
| `Test16Bit.Assemble16` | test/test_16bit.py:18-45 | `assemble` returns the single-pass specification `SinglePass(splitlines(asm))` |
| `Test16Bit.ProgramWords16` | test/test_16bit.py:19-45 | each kept line gives exactly one word, in order; there is no label pass |
| `Test16Bit.NoBranchOrSub` | test/test_16bit.py:42-43 | CMP, BRn and SUB raise ValueError |
| `Test16Bit.LabelLineFails` | test/test_16bit.py:25-43 | a `NAME:` line is read as an unknown opcode |
| `Test16Bit.ConstOverflowFields` | test/test_16bit.py:56 | `CONST R2, #768` is read as register 2 and immediate 768: nothing limits the immediate |
| `Test16Bit.ConstOverflowWord` | test/test_16bit.py:29 | the unmasked immediate 768 bleeds into the register field: the word is `0x9300` |
| `Variants.SharedOpcodesAgree` | assembler.py:7-36 | from the same fields, CONST, ADD, MUL, LDR, STR and RET are read identically by all three copies, so all emit `Encode(i)` (the same line of text: `Variants.CanonicalLineAllCopies`) |
| `Variants.AssemblerImageAgree` | test/test_image.py:44-72 | every non-branch opcode of assembler.py, CMP included, is read identically by test_image.py |
| `Variants.BranchAgrees` | test/test_image.py:68-69 | BRn resolves identically in assembler.py and test_image.py, or fails in both |
| `Variants.SixteenLineWithinImage` | test/test_16bit.py:25-43 | where the 16-bit copy encodes a line, the image copy encodes it to the same word |
| `Variants.LabelFreeProgramsAgree` | test/test_16bit.py:18-45 | on label-free programs the single-pass copy and the two-pass image copy return the same words |
| `Variants.AssemblerCanonical` | assembler.py:59-67 | the text `OP Rd, Rs, Rt` (or `CONST Rd, #imm`, ...) assembles to the encoding of its instruction at any pc |
| `TestImage.TokensJoin` | test/test_image.py:41 | a line written `OP a, b, c` from plain fields tokenises back to exactly those fields |
| `Variants.CanonicalLineAllCopies` | test/test_16bit.py:25-43 | one and the same canonical line of a shared opcode is assembled to `Encode(i)` by assembler.py, test_image.py and test_16bit.py |
| `Variants.CanonicalLineImage` | test/test_image.py:41-72 | one and the same canonical line of every non-branch opcode of assembler.py gives `Encode(i)` in assembler.py and in test_image.py |
| `Variants.CanonicalBranchImage` | test/test_image.py:68-69 | the line `BRn name` gives the same word, or the same undefined-label failure, in assembler.py and test_image.py |
| `Vectors.ConstR1Zero` | test/test_kernel1_mul.py:19 | `CONST R1, #0` is `0x9100` |
| `Vectors.SampleWords` | assembler.py:41-71 | on the cleaned lines of a seven-line loop program, pass 1 binds LOOP to 2 and pass 2 yields `0x9100 0x9404 0x3111 0x2014 0x1802 0xF000` |
| `Vectors.DemoLabels` | assembler.py:72-94 | on the demo's cleaned lines (its blank lines already dropped), pass 1 binds LOOP to 6, after six instructions |
| `Vectors.DemoBranch` | assembler.py:90 | the demo's `BRn LOOP` encodes to `0x1806` at any pc |
| `Vectors.Kernel1Words` | test/test_kernel1_mul.py:18-28 | each hand-encoded word of kernel 1 is the encoding of the instruction its comment names |
| `Interleave.Lanes` | analyzegpu.py:6 | there are exactly `channels` lanes, none for a count of zero or less |
| `Interleave.LaneContents` | analyzegpu.py:6 | position j of lane l exists exactly when `l + j*C < len(data)` and holds `data[l + j*C]` |
| `Interleave.IndexLane` | analyzegpu.py:6 | element i lies in lane `i mod C` at position `i div C` |
| `Interleave.LanePositionUnique` | analyzegpu.py:6 | ...and at no other lane and position |
| `Interleave.LaneLengthsSum` | analyzegpu.py:6 | the lane lengths sum to `len(data)` |
| `Interleave.GuardHolds` | analyzegpu.py:13-16 | the guard `idx < len(data)` always holds inside the loop: there is never an out-of-range read |
| `Interleave.FullRows` | analyzegpu.py:13 | the complete rows hold at most `len(data)` elements and leave fewer than C over |
| `Interleave.DeInterleave` | analyzegpu.py:12-17 | `reconstructed` is the prefix of `data` of length `(len(data) div C) * C`; zero channels is a ZeroDivisionError, a negative count gives `[]` |
| `Interleave.RoundTrip` | analyzegpu.py:6-17 | when C divides `len(data)`, every lane has `len(data)/C` elements; flattening them channel-fastest gives `data`, and so does de-interleaving |
| `Interleave.AnalyzeGpuOutput` | analyzegpu.py:1-17 | both views together; a zero count fails with ZeroDivisionError at line 13, not at the slice |
| `Interleave.FourChannelExample` | analyzegpu.py:6 | `[10..17]` over four channels gives lanes `[10,14] [11,15] [12,16] [13,17]`, which flatten back to the buffer |

## Left out

- I/O: reading the program text and the data buffer, the `print`s of `assemble`'s demo and of `analyze_gpu_output`, log files, PIL/numpy image loading. The text and the buffer are parameters; the results are returned.
- The cocotb test bodies, clock, reset, device-control writes and done polling are an asynchronous driver of external hardware, and are not part of this model. So are the hand-written binary programs, which are data (test/test_kernel1_mul.py is used only as a check vector).
- The run-time meaning of the instructions (the negative flag of CMP, whether BRn jumps) lives in the hardware, which is not part of this model.
- The "as 2×4 matrix" and "2×2" views of `analyze_gpu_output` (analyzegpu.py:22-29) only print.
- `Text.Int`: Python's `int()` also accepts a sign, surrounding blanks, underscores and non-ASCII digits. The model reads only non-empty ASCII digit strings and treats everything else as ValueError. A token such as `R-1`, which Python reads as -1 (and then shifts and ORs as a negative number), fails in the model instead.
- `Text.IsSpace`: the blank characters of `strip`, `split()` and `\s` are taken as Python's `str.isspace` set. `\s` in `re` and `splitlines`' boundaries are modelled on the same character tables, not on the regular-expression engine.
- The exception messages are not modelled, only their kind and the offending token. The code reports no line number, so none is modelled.
- `Interleave.AnalyzeGpuOutput`: Python's default `channels=4` (analyzegpu.py:1) has no counterpart; the channel count is always passed explicitly.
- `Vectors.SampleWords`, `Vectors.DemoLabels`: these run the two passes on hand-cleaned line lists, not `assemble` on the raw program text, so cleaning (already proved in general by `Listing.CleanShape` and `Listing.CleanStep`) is not re-checked on these two programs.
- Register, immediate and label-address ranges are not checked by any copy. The model does not invent those errors. It states the ranges as preconditions of the field-separation lemmas (`Isa.WellFormed`).
