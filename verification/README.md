# A verified model of a Hack VM translator's core

The translator reads programs in the stack-based VM language of "The
Elements of Computing Systems" (chapters 7 and 8) and writes Hack assembly.
Its core has two parts:

- **The reader** (`VMParser.py`). It cleans the lines of a `.vm` file:
  strip, cut at the first `//`, drop empty lines. It then walks the cleaned
  commands with a cursor, classifies each one by its first token, and
  returns its arguments.
- **The code writer** (`CodeWriter.py`). It emits one fixed assembly
  template per command:
  - push/pop for every memory segment;
  - the nine arithmetic and logical commands;
  - `label`, `goto`, `if-goto` and `call`.

  Comparisons and calls synthesise labels from counters.

The model is split into these files:

- `strings.dfy`: the Python string operations the source relies on.
  - `strip`, `split('//')[0]`, `split(' ')` and `str(int)`;
  - `int()` on decimal text, with the round trip `int(str(n)) == n`.
- `hack.dfy`: Hack instructions and 16-bit words.
  - A small interpreter: `Step`, straight-line `Exec`, and `Run` over a
    block placed at a ROM address.
  - A label declaration takes one instruction slot and does nothing.
  - The symbol table (`env`) maps every symbol, label or variable, to its
    address.
- `code_writer.dfy`: one function per emitter. Each returns the template's
  instructions. The comment lines of the template are dropped.
- `code_writer_proofs.dfy`: one lemma per emitted block. Each runs the block
  and states the final RAM as an update of the initial RAM, against the VM
  language's own meaning of the command.
- `labels.dfy`: the labels the writer declares, and why they never clash.
  Also the one defect found (see Findings).
- `vm_parser.dfy`: the reader.

The two label counters are explicit state:

- `CodeWriter.comp_index` is a class attribute. The model keeps it in
  `Shared`, which all writers of a run thread through.
- `call_index` is assigned through `self`. It becomes a field of each
  `Writer`.

Python exceptions become `Result` errors:

- `KeyError` on a table gives `UnknownSegment`, `UnknownOperator` or
  `UnknownCommand`.
- `IndexError` gives `NoMoreCommands` or `MissingToken`.
- `ValueError` from `int()` gives `NotAnInteger`.

The second argument is described as a non-negative
integer. The code applies Python's `int()`, which also accepts a sign,
surrounding white space and digit-group underscores. The white space it
skips is space, `\t`..`\r` and the non-ASCII white space. The ASCII
separators `\x1c`..`\x1f` count as white space for `strip()` but make
`int()` fail. Since Python 3.11, and in the matching security releases of
3.7 to 3.10, `int()` also fails on more than 4300 digits. Leading zeros
count toward that limit, and underscores and the sign do not. The model
follows the code under that default limit.

## Model

| member | source | states |
|---|---|---|
| CodeWriter.WritePushPop | CodeWriter.py:48-73 | Fails exactly when the segment is in neither table, is not `static`, and is not `constant` on a push. So `pop constant` fails. The error is a KeyError on that segment. |
| CodeWriter.WriteArithmetic | CodeWriter.py:33-46 | Fails exactly on an operator outside the nine. The shared comparison counter advances by one exactly for `eq`, `gt` and `lt`, and is unchanged otherwise. |
| CodeWriterProofs.WritePushPopEffect | CodeWriter.py:48-73 | Whatever block `write_push_pop` picks does what the command means. A push stores the constant, or the content of the named cell, at the old top and increments SP. A pop decrements SP and writes the old top to the named cell. Offset segments also leave the target address in R13. The named cell is the static symbol's cell, RAM[5 + i] or RAM[3 + i], or RAM[base + i]. A number too wide for an A-instruction faults. |
| CodeWriterProofs.WriteArithmeticEffect | CodeWriter.py:33-46 | Whatever block `write_arithmetic` picks does what the command means. `neg`/`not` replace the top. The binary and comparison commands replace the two top entries by one result and decrement SP. Control falls through on every path. |
| CodeWriterProofs.ExecInternalPush | CodeWriter.py:354-361 | The internal push stores D at the stack top and increments SP. Nothing else changes. |
| CodeWriterProofs.PushConstantEffect | CodeWriter.py:85-102 | `push constant n` stores `n` at the old stack top and increments SP. It touches no other cell. A constant outside 0..32767 stops the machine. |
| CodeWriterProofs.PushSegmentEffect | CodeWriter.py:104-126 | `push local/argument/this/that i` copies RAM[base register + i] onto the stack and increments SP. Nothing else changes. An index that does not fit an A-instruction faults. |
| CodeWriterProofs.PopSegmentEffect | CodeWriter.py:128-152 | `pop local/argument/this/that i` decrements SP once. It writes the old top to RAM[base + i]. The only other change is R13, which holds the target address. A bad index faults. |
| CodeWriterProofs.SegmentRoundTrip | CodeWriter.py:104-152 | Pop then push of the same entry leaves SP as it was. The entry and the stack top both hold the popped value. This holds when the entry is neither SP nor the segment's own base register. |
| CodeWriterProofs.PushStaticEffect | CodeWriter.py:154-170 | `push static i` copies the cell of the symbol `File.i` onto the stack and increments SP. |
| CodeWriterProofs.PopStaticEffect | CodeWriter.py:172-185 | `pop static i` decrements SP and writes the old top to the cell of `File.i`. Nothing else changes. |
| CodeWriterProofs.StaticRoundTrip | CodeWriter.py:154-185 | Pop then push of a static leaves SP as it was. The static cell and the stack top hold the popped value. This includes a static cell that is the stack top itself. |
| Labels.StaticSymbolsDistinct | CodeWriter.py:169 | The static symbols of one file are equal exactly when their indices are. |
| CodeWriterProofs.PushTempPointerEffect | CodeWriter.py:202-220 | `push temp i` copies RAM[5 + i] and `push pointer i` copies RAM[3 + i]. Either copies onto the stack and increments SP. |
| CodeWriterProofs.PopTempPointerEffect | CodeWriter.py:222-238 | `pop temp/pointer i` decrements SP and writes the old top to RAM[5 + i] or RAM[3 + i], through the register symbol `R{base+i}`. |
| CodeWriterProofs.TempPointerRoundTrip | CodeWriter.py:202-238 | With the standard symbols, pop then push of a temp or pointer cell in R1..R15 leaves SP as it was. The cell holds the popped value. |
| CodeWriterProofs.UnaryEffect | CodeWriter.py:187-200 | `neg` and `not` replace the top by its 16-bit negation or bitwise complement. SP is unchanged. |
| CodeWriterProofs.BinaryEffect | CodeWriter.py:240-259 | `add`, `sub`, `and` and `or` replace the two top entries x (deeper) and y with `x op y`. SP goes down by one. `sub` yields x - y, because of the `D-M` to `M-D` rewrite. |
| CodeWriterProofs.PushPushBinary | CodeWriter.py:240-259 | `push constant a; push constant b; add` leaves one more entry than before, holding a + b as a 16-bit word. With `sub` it holds a - b. |
| CodeWriterProofs.PushConstantPopTemp | CodeWriter.py:222-238 | `push constant n; pop temp 0` leaves n in RAM[5] and SP where it started. |
| CodeWriterProofs.ComparisonEffect | CodeWriter.py:261-290 | `eq`/`gt`/`lt` replace x and y with -1 when the jump condition holds of the 16-bit difference x - y, and with 0 otherwise. SP goes down by one. Both branches leave the block at its end. |
| CodeWriterProofs.ComparisonAgrees | CodeWriter.py:274-276 | When x - y fits a word, the jump test on the difference is exactly the comparison x = y, x > y or x < y. |
| CodeWriterProofs.ComparisonOverflow | CodeWriter.py:274-276 | Testing the sign of the wrapped difference gets `20000 gt -20000` wrong: the block pushes false. |
| Labels.ArithmeticLabels | CodeWriter.py:275-282 | A comparison declares exactly the labels TRUE{c} and FINISHCOMP{c} of the current counter. Other operators declare none. |
| Labels.ComparisonLabelsDistinct | CodeWriter.py:288-289 | The comparisons numbered lo..hi-1 never share a label. |
| Labels.TranslateArithmetic | CodeWriter.py:261-290 | A run of arithmetic commands fails exactly when some operator is unknown. The error names the first unknown operator. Otherwise it advances the shared counter once per comparison. Every label it declares is distinct. |
| Labels.ComparisonLabelsAcrossFiles | CodeWriter.py:5 | Two files translated in turn, with the class-wide counter carried over, declare no comparison label twice. |
| CodeWriterProofs.LabelEffect | CodeWriter.py:297-299 | `label` changes no state and control goes on after it. |
| CodeWriterProofs.GotoEffect | CodeWriter.py:301-305 | `goto L` always continues at the address the symbol table gives L, and changes no RAM. |
| CodeWriterProofs.IfGotoEffect | CodeWriter.py:307-315 | `if-goto L` decrements SP once on both paths. It continues at L exactly when the popped value is not 0, and after the block otherwise. |
| CodeWriterProofs.CallEffect | CodeWriter.py:321-352 | `call f n` pushes the return address, then LCL, ARG, THIS and THAT as they were, and sets SP to sp + 5. It then sets ARG to sp - n and LCL to the new SP, and continues at f. The return address is the slot of the return label closing the block. Nothing else changes. |
| CodeWriterProofs.CallFrameLayout | CodeWriter.py:321-349 | After a call with n ≥ 1 arguments, RAM[ARG] is the first argument the caller pushed. The frame below LCL holds the return address and the caller's four bases. |
| CodeWriter.WriteCall | CodeWriter.py:321-352 | As written, the writer advances its own call counter by one and keeps its file name. The block starts by loading the address of `f$ret{k}` for the old count k, and declares that label last. |
| CodeWriter.WriteCallShared | CodeWriter.py:321-352 | The run-wide counter advances by one. The block loads, first, the address of the label `f$ret{k}` for the old count, and declares it last. |
| Labels.CallLabels | CodeWriter.py:348-351 | A call block declares exactly one label, `f$ret{k}`. |
| Labels.ReturnLabelInjective | CodeWriter.py:322-324 | A return label `f$ret{k}` determines both f and k. |
| Labels.PerWriterReturnLabelsCollide | CodeWriter.py:352 | As written, two files that each call f first both declare `f$ret0`. |
| Labels.TranslateCalls | CodeWriter.py:321-352 | With one call counter threaded through the run, the counter advances once per call. The return labels declared are those of the calls in order, and all are distinct. |
| Labels.SharedReturnLabelsDistinct | CodeWriter.py:352 | With the counter threaded from one file to the next, the first calls of f in two files declare different labels. |
| VMParser.CleanLine | VMParser.py:18-19 | A cleaned line is the prefix of the stripped line before its first `//`. It is the whole stripped line when there is none. It contains no `//`. |
| VMParser.CleanLineStartsWithText | VMParser.py:18-19 | A cleaned line does not start with white space, so its first token is the command word. |
| VMParser.DropEmptySelects | VMParser.py:20-21 | Dropping the empty entries keeps, in order, exactly the entries that are not empty, each at a listed position. |
| VMParser.CleanKeepsCommands | VMParser.py:16-21 | The command list holds, in file order, the cleaned form of every line whose cleaned form is not empty, and nothing else. |
| VMParser.Advance | VMParser.py:31-36 | `advance` succeeds exactly when `has_more_lines` holds. It makes the entry at the old index current and moves the index by one. |
| VMParser.ReadAll | VMParser.py:23-36 | Advancing while `has_more_lines` makes every command current once, in order, then stops after exactly as many advances as there are commands. |
| VMParser.CommandType | VMParser.py:53-63 | Fails, with the token, exactly when the first `' '`-separated token is not in the 17-entry table. Otherwise it returns that token's kind from the table. |
| VMParser.ArithmeticClassification | VMParser.py:54-58 | A command is arithmetic exactly when its first token is one of the nine arithmetic commands. |
| VMParser.Arg1 | VMParser.py:65-76 | An unknown command fails. An arithmetic command is its own first argument. Any other command yields its second token, and fails with a missing token when there is none. The result is one of the tokens and contains no space. |
| VMParser.Arg2 | VMParser.py:78-85 | With three or more tokens, the result is the third token read by `int()`. It fails with that token when it is not an integer, including one of more than 4300 digits. Fewer than three tokens fail with a missing token. |
| VMParser.SeparatorPaddedNumber | VMParser.py:85 | `int()` does not skip an ASCII separator `\x1c`..`\x1f`, although `strip()` does. So the second argument of `push constant \x1f5` is not an integer. |
| VMParser.ArgumentsRoundTrip | VMParser.py:65-85 | For `kind seg n` written with single spaces, the reader returns the kind, `seg` and n, when `str(n)` has at most 4300 digits. |
| VMParser.ArgumentsWithTrailingSpace | VMParser.py:65-85 | A command cleaned of a trailing comment keeps one trailing space, so it splits into four tokens with an empty last one. The reader still returns the kind, `seg` and n, when `str(n)` has at most 4300 digits. |
| VMParser.ArithmeticRoundTrip | VMParser.py:73-74 | An arithmetic command is classified as arithmetic and is its own first argument. |
| Strings.Strip | VMParser.py:18 | `strip()` leaves the infix with white space removed from both ends. |
| Strings.BeforeComment | VMParser.py:18 | `split('//')[0]` is the longest prefix in which no `//` starts. |
| Strings.SplitJoin | VMParser.py:53 | `split(' ')` undoes joining pieces that contain no space. |
| Strings.ParseIntToString | VMParser.py:85 | `int(str(n)) == n` for every integer whose `str(n)` has at most 4300 digits. Beyond that, `str(n)` itself raises ValueError. |
| Strings.ParseIntDigitLimit | VMParser.py:85 | `int()` rejects a run of more than 4300 decimal digits, leading zeros included. |

## Left out

- File I/O is not modelled. That covers opening the output in append mode, `comment` and `close`. Every emitter returns its block instead of writing it.
- `Main.py` and `VMtranslator.py` are not part of this model. They handle argument checking, directory listing and the driver loop. `ReadAll` stands for the driver's `has_more_lines`/`advance` loop.
  - `Main.py:44` calls `VMtranslator.bootstrap`, which `VMtranslator.py` does not define.
  - `translate` is meant to build one writer per file. As written, `VMtranslator.py:13` passes one of the constructor's two arguments (`CodeWriter.py:8`), so the call raises TypeError before any writer exists.
- A label declaration takes one instruction slot in the model, so that a label at index j of a block placed at `origin` stands for ROM address origin + j. The Hack assembler gives a label no ROM slot. The addresses in the model therefore differ from the assembled program's. The lemmas only ever compare them with the symbol table, through `LabelsPlaced`, and through the requirement in `CallEffect` that `f` and its return label have different addresses.
- Reading the file and `splitlines()` are not modelled. The reader is given the file's lines.
- `write_function` and `write_return` are unfinished stubs in the source. `WriteFunction` and `WriteReturn` return the empty block, and no lemma is stated about them.
- Assembly text is not modelled: the blocks are instruction sequences. A negative or too-large number after `@` is modelled as a fault of the interpreter, at the point the instruction runs.
- The symbol table `env` stands for the assembler's finished table. The assembler allocates a variable for any name not declared as a label, so `goto L` without `(L)` still assembles and jumps to that variable's address. A name missing from `env` is outside the model, and the interpreter stops on it.
- The interpreter stops at the first jump that is not forward within the block, and reports where it goes. Running whole programs with backward jumps is not modelled.
- Strings.ParseInt: accepts ASCII decimal digits only. Python's `int()` also accepts other Unicode decimal digits.
- Strings.ParseInt: uses the default digit limit of 4300. A limit changed with `sys.set_int_max_str_digits` is not modelled, and neither are older Pythons, which have no limit.
- Strings.ParseIntToString, VMParser.ArgumentsRoundTrip and VMParser.ArgumentsWithTrailingSpace: hold for numbers of at most 4300 digits. For longer numbers `str(n)` raises ValueError in Python.
- Strings.IsSpace: follows `str.isspace()` for the characters listed. Unicode data outside that list is not modelled.
- CodeWriterProofs.PopTempPointerEffect: requires that `R{base+i}` resolves to RAM[base+i].
  - The standard symbols guarantee this only up to R15.
  - `pop temp i` for i > 10 is not a valid VM command. It would name a variable, not RAM[5+i].
- CodeWriterProofs.PushSegmentEffect, CodeWriterProofs.PopSegmentEffect and CodeWriterProofs.SegmentRoundTrip: require the computed address to be a 16-bit word. Address arithmetic that wraps is not described.
- CodeWriterProofs.ComparisonEffect: states the hardware result, the jump condition on the wrapped difference. It agrees with the mathematical comparison only when x - y fits a word (`ComparisonAgrees`). `ComparisonOverflow` shows the case where it does not.
- CodeWriterProofs.StaticRoundTrip: requires the static cell not to be SP itself. The assembler places static variables from RAM[16] upward.
- The block lemmas require SP to lie between 16 and 32767 with room for the pushes. Stack overflow into the screen memory is not modelled.
- `one_operand` and `two_operands` are modelled only for the operators `write_arithmetic` sends them.

## Findings

| source | as written | input that shows it | evidently intended | confidence | as-written member | corrected member |
|---|---|---|---|---|---|---|
| CodeWriter.py:352 | `self.call_index += 1` makes the call counter an attribute of each writer. `translate` is meant to build one writer per file, so every file would number its return labels from 0. As written, VMtranslator.py:13 passes one of the constructor's two arguments. | Two `.vm` files of one directory each contain `call Main.f 0`. Both call blocks declare `(Main.f$ret0)`, so the assembler sees a duplicate label. | One counter for the whole run, as `comparison_op` does with `CodeWriter.comp_index += 1` (line 289). | medium, not executed (latent: this version's driver does not route `call` to `write_call`, and its constructor call has the wrong arity) | Labels.PerWriterReturnLabelsCollide | Labels.TranslateCalls |
