# vmtranslator in Dafny

A model of the core of `vmtranslator`, a translator from the stack-based
VM language of the Nand2Tetris course to Hack assembly, and proofs about it.

The model has two halves, following the two core source files:

- **The line reader** (`src/parser.rs`). A `Parser` is a cursor over the
  lines of one `.vm` file. `Advance` skips blank and comment-only lines,
  cuts a trailing `//` comment, trims whitespace and classifies the rest
  with `GetType`. `Cmd`, `Arg1` and `Arg2` split the current line on single
  spaces. Every Rust `panic!`, `assert!` and `todo!` becomes a `Failure`
  value of `ParseError`.
- **The emitter** (`src/code_writer.rs`). `WritePush`, `WritePop`,
  `WritePushPop`, `WriteArithmetic` and `Close` produce the Hack records of
  each block as a sequence of `Instr` values. Comments and blank lines are
  kept as inert records. The emitter's panics become `WriteError` values.

To state what the emitted code *means*, module `Hack` defines a small Hack
machine: 16-bit words, a RAM map in which an unwritten cell reads 0, the
`A`/`D` registers, a program counter, and a symbol table built from the
block's labels, the predefined symbols and the addresses given to static
variables. `RunBlock` runs a block with a step budget equal to its number of
records and succeeds only when execution leaves the block's end within it. The
lemmas in `CodeWriterSemantics`, `ArithmeticSemantics`,
`ComparisonSemantics` and `Translation` then prove the following about the
emitted code. Each segment push and pop moves the right cell. Each
arithmetic, logical and comparison command replaces its operands by the
right value, and that value is `x op y` for `x` below `y`. Labels of
different comparison blocks never clash. The closing loop never lets
execution fall off the program.

The proofs also pin down what the emitted code changes besides the stack.
Every binary and comparison block passes its operands through `temp 0`,
`temp 1` (RAM[5] and RAM[6]) and R13, while `neg` and `not` use only
`temp 0` and R13. So a VM program that keeps a value in `temp 0` across any
arithmetic command, or in `temp 1` across a binary or comparison command,
loses it. `PairReplaced` and
`TopReplaced` state exactly which cells change.

Modules: `Wrappers` (Option/Result), `Strings` (trim, find, split),
`Numbers` (decimal rendering, Rust's `i32` parsing), `VmParser`,
`VmParserProperties`, `Hack`, `VmCodeWriter`, `CodeWriterSemantics`,
`ArithmeticSemantics`, `ComparisonSemantics`, `Translation`.

Where the standard VM-to-Hack mapping of the Nand2Tetris course and the
code differ, the model follows the code. In the standard mapping a static
variable `static i` of file `Foo.vm` becomes the symbol `Foo.i`. `src/code_writer.rs` takes its `filename` from the path of the *output* file
(`src/code_writer.rs:28-33`) and names statics after it
(`src/code_writer.rs:274` and `:358`). The standard grammar also gives
`label`, `goto`, `if-goto`, `function` and `call` lines operands. The code
recognises those kinds only when the keyword is the whole line
(`VmParserProperties.ClassifyIntendedGrammar`).

## Model

| member | source | states |
|---|---|---|
| VmParser.GetType | src/parser.rs:20-110 | The nine arithmetic keywords classify as arithmetic, and nothing else does. Any other line that starts with `push` is a push, and then any line that starts with `pop` is a pop. The other kinds are recognised only when the keyword is the whole line. Everything else is an unknown-command failure, in both directions. |
| VmParser.New | src/parser.rs:126-138 | A fresh reader is in a valid state, holds the given lines and no current command, and has both counters at 0. It has lines left exactly when the file has at least one line, so an empty file has none. |
| VmParser.StripCommentCut | src/parser.rs:152-154 | The code part of a line is a prefix of the line that contains no `//`. No `//` in the line starts inside that prefix. When it is shorter than the line, the line has `//` exactly where it ends, so the cut is at the first `//`. |
| Strings.TrimEmptyIffBlank | src/parser.rs:155-156 | A string trims to the empty string exactly when every character in it is whitespace. |
| VmParser.CleanLineShape | src/parser.rs:152-157 | The cleaned line is a slice of the line's code part, and everything cut off on either side of it is whitespace. It has no `//`, starts and ends with a non-whitespace character, and is empty exactly when the line is blank up to its first comment. |
| Strings.FindFirst | src/parser.rs:152 | `find` gives the position of the first occurrence of the pattern, with none before it. It gives `None` exactly when the pattern occurs nowhere. |
| VmParser.Advance | src/parser.rs:144-164 | On success the line list is preserved and the line counter stays within the file. A reader with no lines left is returned unchanged. Otherwise the next-line counter strictly grows. |
| VmParserProperties.AdvanceFailure | src/parser.rs:144-164 | `advance` can fail only with an unknown-command error. It fails exactly when the first non-blank line from the cursor on is one `get_type` does not know; a later unknown line does not make it fail. |
| VmParser.AdvanceAllBlank | src/parser.rs:144-150 | When every remaining line is blank, `advance` consumes them all and keeps the previous command. |
| VmParser.AdvanceFirstCommand | src/parser.rs:144-164 | `advance` stops at the first non-blank line and reads exactly that line. |
| VmParserProperties.AdvanceCounters | src/parser.rs:144-164 | After `advance` on a reader with lines left, the line counter has grown but stays within the file. The command counter grows by one exactly when some non-blank line remained, and otherwise stays put. |
| VmParserProperties.AdvanceReadsCommand | src/parser.rs:151-162 | The command read is the first non-blank line, cleaned, and classified by `get_type`. The line counter points just past it. |
| VmParserProperties.AdvanceCmdType | src/parser.rs:144-168 | After a successful `advance` that reads line `j`, `get_cmd_type` reports the kind `get_type` gives line `j` once its comment and surrounding whitespace are cut. |
| VmParser.Cmd | src/parser.rs:170-178 | The call fails exactly when there is no current command, and then with the no-command error; with a current command it always succeeds. Otherwise the result is the part of the command before its first space: a prefix of the command that holds no space and is followed by a space or by the end of the command. |
| VmParser.Arg1 | src/parser.rs:180-200 | An arithmetic command is returned whole. A push or pop yields its second space-separated token, or a missing-argument failure when there is none. `return` and the absence of a command fail with their own errors, and the other kinds are unimplemented. |
| VmParser.Arg2 | src/parser.rs:202-223 | A push or pop yields its third token read as an `i32`. It fails with a missing-argument error when there are fewer than three tokens, and with a not-an-integer error when the token does not parse. Other kinds fail or are unimplemented as in the source. |
| VmParserProperties.ReadPushPopLine | src/parser.rs:144-223 | For any push or pop line in the canonical form `verb segment index`, reading it and then asking for `cmd`, `arg1` and `arg2` gives back the verb, the segment and the index. |
| VmParserProperties.ClassifyIntendedGrammar | src/parser.rs:41-110 | For lines in the standard VM grammar, only arithmetic, push, pop and `return` lines are accepted, each with its intended kind. `label`, `goto`, `if-goto`, `function` and `call` lines with operands are rejected. |
| Strings.JoinSplit | src/parser.rs:176 | Putting the pieces of a split back together with the separator between neighbours gives back the original string, so no character is lost or moved. |
| Strings.SplitJoin | src/parser.rs:176 | Splitting the join of space-free tokens on a space gives back the tokens. This is the fact `cmd`/`arg1`/`arg2` rely on. |
| Numbers.ParseShowInt | src/parser.rs:214 | Parsing the decimal rendering of any `i32` with the model of `str::parse::<i32>` gives back that number. |
| VmCodeWriter.BaseRegister | src/code_writer.rs:21-26 | Each of `local`, `argument`, `this`, `that` maps to the predefined symbol `LCL`, `ARG`, `THIS`, `THAT`, whose address lies in 1..4. |
| VmCodeWriter.PointerAddress | src/code_writer.rs:291 | `pointer 0` addresses the cell of the predefined symbol `THIS`, and every other index the cell of `THAT`. |
| VmCodeWriter.WritePush | src/code_writer.rs:238-330 | A block is produced exactly for `constant`, `temp`, `static`, `pointer` and the four mapped segments. The one exception is a temp index whose address overflows `i32`. Any other segment is an unknown-segment failure. Every push block is straight-line code with no jumps and no labels. |
| VmCodeWriter.WritePop | src/code_writer.rs:332-418 | The same as for push, except that `constant` is rejected. |
| VmCodeWriter.WritePushPop | src/code_writer.rs:230-236 | Every verb other than `push` and `pop` fails with a bad-verb error, and only such verbs fail that way. |
| Translation.WritePushPopEffect | src/code_writer.rs:230-418 | Whenever `_write_push_pop` yields a block, the verb was `push` or `pop`. `push constant k` pushes `k`, or faults when `k` is not loadable. Any other `push` pushes the content of the segment's cell. `pop` moves the top entry into that cell. Each faults exactly when its cell cannot be addressed. |
| VmCodeWriter.WriteArithmetic | src/code_writer.rs:42-222 | A block is produced exactly for the nine arithmetic keywords, and every other command is an unknown-command failure. Non-comparison blocks are straight-line. A comparison block declares exactly the two labels `HIT_id` and `CONTINUE_id`. |
| VmCodeWriter.Close | src/code_writer.rs:426-431 | The closing block declares exactly the label `END`. |
| CodeWriterSemantics.PushConstantEffect | src/code_writer.rs:240-255 | `push constant k` with `k` in 0..32767 pushes `k` and changes nothing else. A constant outside that range cannot be loaded by `@k`, so the block faults. |
| CodeWriterSemantics.PushTempEffect | src/code_writer.rs:256-272 | `push temp i` pushes RAM[5+i]. It faults when 5+i is not a loadable address. |
| CodeWriterSemantics.PushStaticEffect | src/code_writer.rs:273-289 | `push static i` pushes the cell the symbol table gives `file.i`. It faults when no address was given. |
| CodeWriterSemantics.PushPointerEffect | src/code_writer.rs:290-306 | `push pointer 0` pushes `THIS` and any other index pushes `THAT`. |
| CodeWriterSemantics.PushMemEffect | src/code_writer.rs:307-328 | `push local/argument/this/that i` pushes RAM[base + i], computed modulo 2^16. It faults when `i` is not a loadable constant. |
| CodeWriterSemantics.PopTempEffect | src/code_writer.rs:334-356 | `pop temp i` decrements `SP` and moves the old top into RAM[5+i], routing the address through R13. Nothing else changes. |
| CodeWriterSemantics.PopStaticEffect | src/code_writer.rs:357-373 | `pop static i` decrements `SP` and moves the old top into the cell of `file.i`. Nothing else changes. |
| CodeWriterSemantics.PopPointerEffect | src/code_writer.rs:374-390 | `pop pointer 0/1` decrements `SP` and moves the old top into `THIS` or `THAT`. |
| CodeWriterSemantics.PopMemEffect | src/code_writer.rs:391-416 | `pop local/argument/this/that i` decrements `SP` and moves the old top into RAM[base + i] through R13. It faults exactly when `i` is not loadable. |
| CodeWriterSemantics.PushEffect | src/code_writer.rs:238-330 | For every addressed segment, the push block faults exactly when the segment's cell cannot be addressed. Otherwise it pushes that cell's content. |
| CodeWriterSemantics.PopEffect | src/code_writer.rs:332-418 | For every segment, the pop block faults exactly when the segment's cell cannot be addressed. Otherwise it moves the top into that cell, with R13 overwritten for temp and the mapped segments. |
| CodeWriterSemantics.StaticNotPredefined | src/code_writer.rs:274 | A static symbol `file.i` never collides with a predefined Hack symbol. |
| CodeWriterSemantics.RunBlockSequence | src/code_writer.rs:420-424 | Concatenating two straight-line blocks, as successive writes to the output do, runs the first and then the second. |
| CodeWriterSemantics.PushConstantPopRoundTrip | src/code_writer.rs:240-255 | `push constant k` followed by `pop segment i` stores `k` in the addressed cell and leaves `SP` where it was. |
| CodeWriterSemantics.PopPushRoundTrip | src/code_writer.rs:332-418 | `pop segment i` followed by `push segment i` restores the top of the stack and `SP`. This holds unless the cell is `SP` itself or the base register the address is computed from. |
| ArithmeticSemantics.BinaryEffect | src/code_writer.rs:45-206 | For the `add`, `sub`, `and` and `or` arms (the range also holds the `neg` and comparison arms, modelled elsewhere) with `x` below `y`, the two entries become `x op y`, so `sub` gives `x - y`, and `SP` drops by one. Besides those cells only temp 0 (the result), temp 1 (`x`) and R13 change. |
| ArithmeticSemantics.UnaryEffect | src/code_writer.rs:79-219 | For the `neg` arm and the `not` arm at the end of the range, the top entry `y` becomes `-y` or `!y` modulo 2^16 and `SP` is unchanged. Besides the top only temp 0 and R13 change. |
| ComparisonSemantics.CompareEffect | src/code_writer.rs:92-172 | For `eq`, `gt`, `lt` with `x` below `y`, the two entries become -1 or 0. The choice follows the sign and zeroness of the 16-bit difference `x - y`, and both jump targets resolve inside the block. The frame is the same as for binary commands. |
| ComparisonSemantics.JumpHolds | src/code_writer.rs:106 | The jump condition chosen for each comparison (`JEQ`, `JGT`, `JLT`) fires on the 16-bit difference exactly when that difference, read as a two's-complement number, is zero, positive or negative. |
| ArithmeticSemantics.CompareValueOrder | src/code_writer.rs:92-172 | When `x - y` does not overflow 16 signed bits, `eq`, `gt` and `lt` yield true exactly when `x` equals, exceeds or is below `y` as signed numbers. |
| Translation.WriteArithmeticEffect | src/code_writer.rs:42-222 | Every block `_write_arithmetic` accepts runs to completion on a stack with enough entries, and replaces its operands by the value its command denotes. |
| Translation.LabelsUnique | src/code_writer.rs:105-112 | Comparison blocks with different ids declare disjoint labels, and none of them declares `END`. |
| Translation.CloseLoops | src/code_writer.rs:426-431 | However long it runs, the closing loop stays inside its records and writes no memory. |
| Translation.CloseNeverCompletes | src/code_writer.rs:426-431 | The closing block never falls off its end, so the machine halts by spinning. |
| Translation.BinaryOnConstants | src/code_writer.rs:45-206 | `push constant x`, `push constant y` and a binary command (the `add`, `sub`, `and` or `or` arm) leave `x op y` on top, one entry above where the stack started. |

## Left out

- File I/O: `Parser::new` reading the file, `CodeWriter::new` opening the output and every `write_all` are outside the model. A reader is built from its lines (`VmParser.New`), and the emitters return the record sequence instead of writing text.
- Text layout: the model keeps emitted comments and blank lines as inert records rather than as text, so the exact characters of the output file are not modelled.
- `src/main.rs` (the driver loop and the id passed to comparison blocks) is not part of this model. It calls emitters for branching and function commands that `src/code_writer.rs` does not define. `LabelsUnique` states what distinct ids buy.
- `src/test_file.rs` (test fixtures) is not part of this model.
- Symbol lexical rules of the Hack assembler are not modelled. A label or static name is any string, and `@` literals above 32767 make execution fault, since the assembler cannot encode them.
- VmParser.Advance: the `usize` counters are unbounded naturals, since a file long enough to overflow them cannot be held in memory.
- VmCodeWriter.WritePush: `arg2 + 5` for temp is checked against `i32` overflow and fails with `Overflow`, which is what a debug build panics on. A release build would wrap instead.
- VmCodeWriter.WritePop: the same `i32` overflow check on `arg2 + 5` for temp, failing with `Overflow` where a debug build panics and a release build would wrap.
- ArithmeticSemantics.BinaryEffect: the stack is assumed to lie above R15 (`UserCell`), so the operands do not alias `SP`, temp 0/1 or R13. The source makes no such check.
- CodeWriterSemantics.PushConstantEffect: assumes, as `BinaryEffect` does, that the stack cells it touches lie above R15 (`UserCell`). The source makes no such check, and nothing is promised for a stack that reaches into the registers.
- CodeWriterSemantics.PushTempEffect: assumes, as `BinaryEffect` does, that the stack cells it touches lie above R15 (`UserCell`). The source makes no such check, and nothing is promised for a stack that reaches into the registers.
- CodeWriterSemantics.PushStaticEffect: assumes, as `BinaryEffect` does, that the stack cells it touches lie above R15 (`UserCell`). The source makes no such check, and nothing is promised for a stack that reaches into the registers.
- CodeWriterSemantics.PushPointerEffect: assumes, as `BinaryEffect` does, that the stack cells it touches lie above R15 (`UserCell`). The source makes no such check, and nothing is promised for a stack that reaches into the registers.
- CodeWriterSemantics.PushMemEffect: assumes, as `BinaryEffect` does, that the stack cells it touches lie above R15 (`UserCell`). The source makes no such check, and nothing is promised for a stack that reaches into the registers.
- CodeWriterSemantics.PopTempEffect: assumes, as `BinaryEffect` does, that the stack cells it touches lie above R15 (`UserCell`). The source makes no such check, and nothing is promised for a stack that reaches into the registers.
- CodeWriterSemantics.PopStaticEffect: assumes, as `BinaryEffect` does, that the stack cells it touches lie above R15 (`UserCell`). The source makes no such check, and nothing is promised for a stack that reaches into the registers.
- CodeWriterSemantics.PopPointerEffect: assumes, as `BinaryEffect` does, that the stack cells it touches lie above R15 (`UserCell`). The source makes no such check, and nothing is promised for a stack that reaches into the registers.
- CodeWriterSemantics.PopMemEffect: assumes, as `BinaryEffect` does, that the stack cells it touches lie above R15 (`UserCell`). The source makes no such check, and nothing is promised for a stack that reaches into the registers.
- CodeWriterSemantics.PushEffect: assumes, as `BinaryEffect` does, that the stack cells it touches lie above R15 (`UserCell`). The source makes no such check, and nothing is promised for a stack that reaches into the registers.
- CodeWriterSemantics.PopEffect: assumes, as `BinaryEffect` does, that the stack cells it touches lie above R15 (`UserCell`). The source makes no such check, and nothing is promised for a stack that reaches into the registers.
- CodeWriterSemantics.PushConstantPopRoundTrip: assumes, as `BinaryEffect` does, that the stack cells it touches lie above R15 (`UserCell`). The source makes no such check, and nothing is promised for a stack that reaches into the registers.
- CodeWriterSemantics.PopPushRoundTrip: assumes, as `BinaryEffect` does, that the stack cells it touches lie above R15 (`UserCell`). The source makes no such check, and nothing is promised for a stack that reaches into the registers.
- ArithmeticSemantics.UnaryEffect: assumes, as `BinaryEffect` does, that the stack cells it touches lie above R15 (`UserCell`). The source makes no such check, and nothing is promised for a stack that reaches into the registers.
- ComparisonSemantics.CompareEffect: assumes, as `BinaryEffect` does, that the stack cells it touches lie above R15 (`UserCell`). The source makes no such check, and nothing is promised for a stack that reaches into the registers.
- Translation.WriteArithmeticEffect: assumes, as `BinaryEffect` does, that the stack cells it touches lie above R15 (`UserCell`). The source makes no such check, and nothing is promised for a stack that reaches into the registers.
- Translation.BinaryOnConstants: assumes, as `BinaryEffect` does, that the stack cells it touches lie above R15 (`UserCell`). The source makes no such check, and nothing is promised for a stack that reaches into the registers.
- Translation.WritePushPopEffect: assumes, as `BinaryEffect` does, that the stack cells it touches lie above R15 (`UserCell`). The source makes no such check, and nothing is promised for a stack that reaches into the registers.
- Per-input static naming: `src/main.rs:63` calls `set_source_file` with each input's name, but `src/code_writer.rs` defines no such method. So the model names statics after the output file, as `src/code_writer.rs` does. It does not say which static names a translation of several input files would produce.
- ComparisonSemantics.CompareEffect: `gt` and `lt` decide on the wrapped 16-bit difference, as the Hack code does. The result is stated on that difference, so it is the true signed order only when `x - y` does not overflow; `ArithmeticSemantics.CompareValueOrder` proves that it is the true order in that case.
- Words are integers in 0..65535 with addition, subtraction and negation modulo 2^16, rather than machine bit-vectors. `and`/`or` convert to 16-bit vectors internally.
