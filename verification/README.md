# AQA assembler and machine, modelled in Dafny

This project models the core of CS-NEA, an assembler and simulator for a small AQA-style
assembly language. The source is C#.

**The language.** It has five opcodes: `ADD`, `SUB`, `CMP`, `MOV` and `HALT`. Labels are
written `NAME:`, and a branch is written `B [EQ|NE|GT|LT] NAME`.

**Assembly** happens in one pass over the source:

- Blank lines are dropped.
- Each line is upper-cased and split by the regex `(B|\w+:|\w+|#\d+)`.
- Every line gets a line id from a running `uint` counter.
- A label records its own line id.
- A branch records a pending jump.
- Any other line has its operands parsed. A type checker then judges the operand classes,
  which are packed as 4-bit nibbles of a `ushort`. An accepted line gets an action.
- The linker then builds a dense array. Slot 0 holds a no-op, and the branches and accepted
  actions follow it in line order.
- `Parse` returns this array only if the checker's `success` flag still holds. Otherwise it
  returns null, and the caller prints the checker's diagnostics.

**The machine** has sixteen `int` registers, a comparison flag and a `uint` program counter
that starts at 1. Its loop runs `commands[PC]`, then increments the PC, for as long as the PC
indexes the program.

**Three snapshots.** The repository holds three versions of the assembler and two of the
machine state. One pipeline models all of them, and a `Snapshot` value chooses where they
differ:

| Snapshot | Assembler | Machine state |
|---|---|---|
| `Current` | `AQA-Assembler/Assembler.cs` with `AQA-Assembler/Checker.cs` | `AQA-Assembler/src/Simulation.cs` |
| `SingleFile` | `Assembler.cs`, which holds its own copy of the checker | `AQA-Assembler/SImulation.cs` |
| `Earliest` | `Compiler.cs`: no type checker, post-incremented ids, `Dtype` operands | `AQA-Assembler/SImulation.cs` (`Compiler.cs` has none of its own) |
| `Corrected` | `Current` with the three defects under "## Findings" repaired | as `Current`, with the HALT sentinel of the older state |

**Modules.** Each module has its own file:

- `Results`: the exceptions, as a `Fault` value.
- `Numbers`: the C# `int`/`uint` widths and `int.Parse`.
- `Text`: .NET character classes.
- `Tokenizer`: the regex.
- `Operands`: operand classes and `ParseArgs`.
- `Nibbles`: nibble reads of a `ushort`.
- `TypeChecker`: `Checker`.
- `Machine`: `State`.
- `Instructions`: the action closures.
- `Assembler`: `Parse`, `PreProcess`, `Jump`, `Linker`.
- `AssemblerProofs`: what the parse loop computes, line by line.
- `ProgramLayout`: where each line ends up in the linked array.
- `Simulation`: the fetch-execute loop.
- `SampleProgram`: a two-line source taken through the whole pipeline, from text to registers.

**Faults and parameters.**

- Every .NET exception on these paths is an `Err` value: an index out of range, a missing
  dictionary key, a duplicate key, a failing `int.Parse`, `BitSwitch`'s "NOT FOUND", or a null
  delegate.
- The source lines and the loop's iteration budget are parameters.

## Model

| member | source | states |
|---|---|---|
| Numbers.WrapInt32 | AQA-Assembler/Assembler.cs:154 | unchecked `int` arithmetic: the result is congruent to the exact sum modulo 2^32 and equal to it when it fits |
| Numbers.Wrap32IsMod | AQA-Assembler/Assembler.cs:33-42 | counting lines on a `uint` is reduction modulo 2^32 |
| Numbers.IncrUInt32 | AQA-Assembler/src/Simulation.cs:73-76 | `++` on a `uint` adds one below `uint.MaxValue` and wraps to 0 at it |
| Numbers.ParseInt32 | AQA-Assembler/Assembler.cs:116-117 | `int.Parse` on token text succeeds iff the text is a non-empty digit string whose value fits an `int`, and then yields that value; otherwise it is a format fault |
| Numbers.DecimalRoundTrip | AQA-Assembler/Assembler.cs:116 | `int.Parse` reads back the decimal rendering of every non-negative `int` |
| Text.ToUpper | AQA-Assembler/Assembler.cs:43 | upper-casing maps `a`..`z` to `A`..`Z` letter for letter and leaves every other character unchanged, so no lower-case letter remains and the word characters stay word characters |
| Text.UpperIdempotent | AQA-Assembler/Assembler.cs:43 | upper-casing an upper-cased string changes nothing |
| Operands.ClassBits | AQA-Assembler/Checker.cs:9-15 | REG, POSINT, NEGINT and FLOAT are distinct single bits; INT, NUM and NULL are 0x06, 0x0E and 0 |
| Operands.RegisterOperand | AQA-Assembler/Assembler.cs:214-218 | a register operand is classed REG and carries its index |
| Operands.LiteralOperand | AQA-Assembler/Assembler.cs:220-231 | a literal is classed POSINT iff it is not negative, else NEGINT, never REG, and carries its value |
| Operands.ParseArg | AQA-Assembler/Assembler.cs:112-120 | a token parses iff it starts with `#` or `R` and the rest is an `int`; `#n` gives the literal operand of n and `Rn` the register operand n; any other first character is the "PAIN" fault |
| Operands.ParseArgs | AQA-Assembler/Assembler.cs:57 | the operand list parses iff every token does, and then holds each token's operand in order |
| Operands.ParseArgRoundTrip | AQA-Assembler/Assembler.cs:112-120 | writing `R<n>` or `#<n>` and parsing it gives back the register or literal operand |
| Operands.TokensNeverNegative | AQA-Assembler/Assembler.cs:220-231 | after the tokeniser, a parsed operand is never NEGINT, since a token cannot carry a sign |
| Operands.ParseArgEarliest | Compiler.cs:76-82 | the same acceptance as ParseArg, tagged `Register` exactly for `R` |
| Operands.ParseArgsEarliest | Compiler.cs:40 | the operand list parses iff every token does, and holds their tagged operands in order |
| Operands.EarliestParseAgrees | Compiler.cs:76-82 | the `Dtype` and the byte-tagged ParseArgs accept the same tokens and agree on register-ness and value |
| Tokenizer.WordRun | AQA-Assembler/Assembler.cs:21 | greedy `\w+`: the longest prefix of word characters |
| Tokenizer.Tokens | AQA-Assembler/Assembler.cs:21 | every regex match is a lone `B`, a word not starting with B, `NAME:`, or `#digits` |
| Tokenizer.TokenizeShapes | AQA-Assembler/Assembler.cs:43 | every token of an upper-cased line has one of the four shapes and no lower-case letter |
| Tokenizer.TokenizeIgnoresCase | AQA-Assembler/Assembler.cs:43 | a line and its upper-cased form give the same tokens, so assembly ignores case |
| Tokenizer.TokensNoLower | AQA-Assembler/Assembler.cs:43 | matching an upper-case string yields only upper-case tokens |
| Tokenizer.TokensOfOne | AQA-Assembler/Assembler.cs:21 | a well-formed token followed by a blank is matched as exactly that token |
| Tokenizer.TokensOfJoin | AQA-Assembler/Assembler.cs:21 | tokenising well-formed tokens written out with blanks gives back the same tokens |
| Tokenizer.BranchKeywordSplitsWords | AQA-Assembler/Assembler.cs:21 | `BACK:` reads as `B`, `ACK:` and `b back` as `B`, `B`, `ACK`: labels starting with B cannot be used |
| TypeChecker.SignatureTable | AQA-Assembler/Checker.cs:17-24 | BitCheck has exactly ADD, SUB, CMP, MOV and HALT, with 3, 3, 2, 2 and 1 positions, every mask below 16 |
| TypeChecker.BitSwitch | AQA-Assembler/Checker.cs:26-37 | a mask has a name iff it is one of the eight listed; any other mask is the "NOT FOUND" fault |
| TypeChecker.BitSwitchNames | AQA-Assembler/Checker.cs:26-37 | distinct listed masks get distinct names, and the REG-or-INT mask used by ADD and SUB has none |
| TypeChecker.ShiftCount | AQA-Assembler/Checker.cs:44-48 | the shift of each entry is a multiple of 4 below 32 (byte counter wrapping, count masked to 5 bits) |
| TypeChecker.ShiftCountOfFirstFour | AQA-Assembler/Checker.cs:44-48 | entry k < 4 is shifted by 12 - 4k |
| TypeChecker.PlacedOnLane | AQA-Assembler/Checker.cs:47 | for the first four entries, a value below 16 lands in its own nibble |
| TypeChecker.BitAssembleNibbles | AQA-Assembler/Checker.cs:40-51 | for up to four entries below 16, nibble k holds entry k and the unused nibbles are 0 |
| TypeChecker.BitAssembleIsPack | AQA-Assembler/Checker.cs:40-51 | BitAssemble's XOR equals the reference OR-packing, most significant nibble first |
| TypeChecker.BitAssembleIgnoresFifthToEighth | AQA-Assembler/Checker.cs:44-48 | entries five to eight are shifted out of the ushort, and a ninth lands on nibble 0 again |
| TypeChecker.UsesAt | AQA-Assembler/Checker.cs:59 | the class list has one entry per operand, its class bits, in order |
| TypeChecker.Diagnose | AQA-Assembler/Checker.cs:67-79 | the diagnostic loop reports positions 0..3 in increasing order |
| TypeChecker.DiagnoseSound | AQA-Assembler/Checker.cs:70-77 | each diagnostic is for a position where the masked test is 0 but the nibbles differ, with BitSwitch's names for the expected and written masks |
| TypeChecker.DiagnoseRecords | AQA-Assembler/Checker.cs:67-79 | every failing position is reported unless the loop throws |
| TypeChecker.DiagnoseThrows | AQA-Assembler/Checker.cs:73-76 | the loop throws only on a failing position whose mask BitSwitch does not list |
| TypeChecker.FormatCheck | AQA-Assembler/Checker.cs:53-81 | the call accepts iff Accepts holds. An accepted call adds no error. A rejected one keeps the old errors and appends exactly what the diagnostic loop over positions 0..3 produces. Afterwards `success` holds only in the corrected checker, with success before and this call accepted |
| TypeChecker.AcceptanceByNibbles | AQA-Assembler/Checker.cs:60-65 | `(control & check) == check` iff every nibble of check fits the same nibble of control |
| TypeChecker.AcceptsIff | AQA-Assembler/Checker.cs:58-65 | for up to four parsed operands, accepted iff there are no more operands than positions and each class bit is allowed at its position |
| TypeChecker.ControlNibbles | AQA-Assembler/Checker.cs:58 | the control word holds the signature's masks, first position in the top nibble |
| TypeChecker.CheckNibbles | AQA-Assembler/Checker.cs:59 | the check word holds the operands' class bits, first operand in the top nibble |
| TypeChecker.HaltTakesNoOperands | AQA-Assembler/Checker.cs:23 | HALT is accepted iff it has no operand |
| TypeChecker.RejectionIsReported | AQA-Assembler/Checker.cs:62-80 | a call is rejected iff it records at least one diagnostic. A rejection appends one diagnostic per failing position, each for a failing position, in increasing position order |
| TypeChecker.FailingPositionExists | AQA-Assembler/Checker.cs:67-73 | a rejected call of parsed operands has a position the loop reports |
| TypeChecker.AddWords | AQA-Assembler/Checker.cs:19 | ADD's control word is 0x1770, and `#1 R2` packs to 0x2100 |
| TypeChecker.AddRejectionThrows | AQA-Assembler/Checker.cs:75-76 | `ADD #1, R2` makes BitSwitch throw on REG-or-INT instead of reporting |
| TypeChecker.SuccessNeverRestored | AQA-Assembler/Checker.cs:55 | in the checked snapshots, any call leaves `success` false, accepted or not |
| TypeChecker.Display | AQA-Assembler/Checker.cs:84-87 | one rendered message per recorded error, in recording order |
| TypeChecker.DisplayAppend | AQA-Assembler/Checker.cs:84-87 | recording more errors appends their messages after the earlier ones |
| Machine.NewState | AQA-Assembler/src/Simulation.cs:53-71 | a fresh state has flag NULL, PC 1 and all sixteen registers 0 |
| Machine.SetPC | AQA-Assembler/src/Simulation.cs:57-61 | the current setter stores a positive value and turns 0 into 1; the older SetPC stores any value; nothing else changes |
| Machine.IncrPC | AQA-Assembler/src/Simulation.cs:73-76 | the PC moves on by one modulo 2^32 and nothing else changes |
| Machine.Halt | AQA-Assembler/src/Simulation.cs:78-81 | HALT stores `uint.MaxValue` in the current state and `int.MaxValue` in the older one, keeping registers and flag |
| Machine.AccessorsRoundTrip | AQA-Assembler/SImulation.cs:61-75 | the older getters read back what the setters stored, and each setter touches only its own field |
| Machine.AssignRegister | AQA-Assembler/src/Simulation.cs:83-86 | the write succeeds iff the index is 0..15, sets that register and keeps every other register, the PC and the flag |
| Machine.GetValue | AQA-Assembler/src/Simulation.cs:96-100 | a REG operand reads its register (a fault outside 0..15); any other operand yields its payload |
| Machine.ReadAfterAssign | AQA-Assembler/src/Simulation.cs:83-100 | a register reads back the value last assigned, and other reads are unaffected |
| Instructions.ActionTableMatchesSignatures | AQA-Assembler/Assembler.cs:12-19 | the operand table and the checker's table have exactly the same five opcodes; any other is a missing-key fault |
| Instructions.Apply | AQA-Assembler/Assembler.cs:150-205 | only HALT and branches move the PC, only CMP touches the flag, only ADD, SUB and MOV write registers, and a null slot faults |
| Instructions.BranchSemantics | AQA-Assembler/Assembler.cs:86-111 | a branch sets the PC through the setter iff it is taken: NULL always, NE when the flag is not EQ (so also while NULL), the others when the flag equals the condition |
| Instructions.ArithmeticWritesOnlyDestination | AQA-Assembler/Assembler.cs:150-166 | ADD and SUB succeed iff their operands are there and in range; they write the wrapped sum or difference into operand 0's register and touch nothing else |
| Instructions.MoveCopies | AQA-Assembler/Assembler.cs:189-195 | MOV copies operand 1's value into operand 0's register and touches nothing else |
| Instructions.CompareSetsFlag | AQA-Assembler/Assembler.cs:168-187 | CMP sets the flag to exactly one of GT, LT or EQ by signed comparison, and nothing else |
| Instructions.HaltAndWait | AQA-Assembler/Assembler.cs:197-205 | HALT only moves the PC to the sentinel; the no-op changes nothing |
| Assembler.PreProcess | AQA-Assembler/Assembler.cs:79-84 | the kept lines are exactly the source lines that are not empty or white space |
| Assembler.ConditionOf | AQA-Assembler/Assembler.cs:250-257 | `EQ`, `NE`, `GT` and `LT` name their own condition, each exactly that keyword; any other token names NULL |
| Assembler.NewJump | AQA-Assembler/Assembler.cs:246-265 | `B L` jumps always to L. `B <cond> L` carries the condition its keyword names, to L. A missing label token is an index fault |
| Assembler.NewJumpRoundTrip | AQA-Assembler/Assembler.cs:246-265 | reading back a condition's keyword gives the condition, and `B <cond> L` builds exactly the jump on that condition to L |
| Assembler.AssembleLine | AQA-Assembler/Assembler.cs:40-68 | every processed line advances the id counter by one |
| Assembler.ResolveJumpsSucceeds | AQA-Assembler/Assembler.cs:124-128 | linking jumps succeeds iff every target label is declared and no two jumps share an id |
| Assembler.ResolveJumpsContents | AQA-Assembler/Assembler.cs:124-128 | the jump dictionary has exactly the jumps' ids, each mapped to a branch under its condition to its label's destination |
| Assembler.Linker | AQA-Assembler/Assembler.cs:130-132 | the linked array has one slot per id plus slot 0, which is the no-op |
| Assembler.Parse | AQA-Assembler/Assembler.cs:70-75 | with a checker, a program is returned iff `success` holds; without one, always |
| AssemblerProofs.LineKinds | AQA-Assembler/Assembler.cs:46-55 | a line with a token is exactly one of label, branch or instruction |
| AssemblerProofs.LineEffectHolds | AQA-Assembler/Assembler.cs:40-68 | one line's effect, field by field: the counter, `ids`, `labels`, `jumps`, `actionIDs` and the checker change only as the line's kind says |
| AssemblerProofs.AssembleStep | AQA-Assembler/Assembler.cs:40 | the loop over n lines is the loop over n - 1 lines plus the last line's effect |
| AssemblerProofs.AssembleCounter | AQA-Assembler/Assembler.cs:33-42 | after n lines the counter is n modulo 2^32 |
| AssemblerProofs.AssembleIds | AQA-Assembler/Assembler.cs:51-67 | `ids` lists the ids of the branch lines and accepted instruction lines, in line order |
| AssemblerProofs.AssembleLabels | AQA-Assembler/Assembler.cs:48-50 | the label table maps each label to its own line's id and holds nothing else, and no label is declared twice |
| AssemblerProofs.AssembleJumps | AQA-Assembler/Assembler.cs:51-54 | every branch line's jump is well formed, and `jumps` lists them in line order |
| AssemblerProofs.AssembleSuccess | AQA-Assembler/Checker.cs:38-65 | the flag after the loop: untouched without a checker; as written, true only with no instruction line; corrected, true iff every instruction line is accepted |
| AssemblerProofs.AssembleActions | AQA-Assembler/Assembler.cs:57-67 | `actionIDs` is the reference map from accepted lines' ids to their actions |
| AssemblerProofs.ExpectedActionsOnly | AQA-Assembler/Assembler.cs:66 | only accepted instruction lines' ids are in `actionIDs` |
| AssemblerProofs.ExpectedActionsFound | AQA-Assembler/Assembler.cs:66 | every accepted instruction line's action is in `actionIDs` under its id |
| AssemblerProofs.IdsDistinct | AQA-Assembler/Assembler.cs:42 | below 2^32 - 1 lines, distinct lines get distinct ids |
| ProgramLayout.SlotsFilled | AQA-Assembler/Assembler.cs:133-145 | when every id has an action or jump, the loop fills one slot per id in order, action first |
| ProgramLayout.LinkerFilled | AQA-Assembler/Assembler.cs:122-147 | the linked array is the no-op followed by the filled slots |
| ProgramLayout.LinkerActionSlot | AQA-Assembler/Assembler.cs:135-139 | slot k + 1 holds id k's action when it has one |
| ProgramLayout.LinkerJumpSlot | AQA-Assembler/Assembler.cs:140-144 | otherwise slot k + 1 holds the branch resolved for id k's jump |
| ProgramLayout.LinkedIdsAreKept | AQA-Assembler/Assembler.cs:53-67 | every id in `ids` is the id of a kept line |
| ProgramLayout.ParseLinks | AQA-Assembler/Assembler.cs:29-76 | the returned program is the linker's output on what the loop assembled from the kept lines |
| ProgramLayout.IdsCovered | AQA-Assembler/Assembler.cs:133-145 | every id in `ids` has an action or a pending jump, so no slot stays null |
| ProgramLayout.InstructionSlot | AQA-Assembler/Assembler.cs:130-139 | an accepted instruction line's action sits in its slot: one past the number of kept lines before it |
| ProgramLayout.BranchHasNoAction | AQA-Assembler/Assembler.cs:135-140 | a branch line's id has no action, so its slot takes the jump |
| ProgramLayout.IdOfInjective | AQA-Assembler/Assembler.cs:42 | without wrap-around a line id names one line |
| ProgramLayout.BranchSlot | AQA-Assembler/Assembler.cs:122-145 | a branch line's slot holds a branch under its condition to the destination of the line declaring its label |
| ProgramLayout.ParseReturnsProgram | AQA-Assembler/Assembler.cs:70-75 | with a checker, Parse returns a program iff the success the loop leaves behind holds |
| ProgramLayout.ParseVoidsInstructions | AQA-Assembler/Checker.cs:55 | as written, a program is returned iff success held before and there is no instruction line |
| ProgramLayout.CorrectedParseReturnsProgram | AQA-Assembler/Assembler.cs:70-75 | corrected, a program is returned iff success held before and every instruction line is accepted |
| ProgramLayout.CountBelowLinked | AQA-Assembler/Assembler.cs:130-145 | among all linked ids, exactly the kept lines before line j have ids below line j's |
| ProgramLayout.CorrectedDestination | AQA-Assembler/Assembler.cs:127 | corrected, a branch to a label stores the slot just before the first kept line after the label |
| ProgramLayout.DestinationOvershoots | AQA-Assembler/Assembler.cs:127 | as written, a branch stores the label's 1-based line number, never below the slot of the first kept line after it |
| ProgramLayout.LinkedIdsComplete | AQA-Assembler/Assembler.cs:130-145 | the program has one slot per line iff every line is kept |
| ProgramLayout.EarliestDestination | Compiler.cs:24-47 | with 0-based ids, a branch reaches the first kept line after its label iff every line before the label is kept |
| Simulation.Step | AQA-Assembler/src/Simulation.cs:28-30 | one iteration invokes the command in the PC's slot and then increments the PC: it fails exactly when that command throws, a null slot faults, and otherwise the result is the command's state with the PC one on |
| Simulation.StepExecutes | AQA-Assembler/src/Simulation.cs:28-30 | an iteration on an ADD or SUB slot writes the wrapped sum or difference into operand 0's register, on MOV copies operand 1 there, and on CMP sets the flag by signed comparison; every other register and the flag are kept, the PC moves on by one, and each fails exactly on a missing operand or an out-of-range register |
| Simulation.MoveThenAddComputes | AQA-Assembler/src/Simulation.cs:25-31 | the linked program `MOV R0, #5`; `ADD R1, R0, #3` run from a new State finishes after two iterations with R0 = 5, R1 = 8 and the other registers 0 |
| Simulation.Run | AQA-Assembler/src/Simulation.cs:26-31 | a finished run has the PC outside the program; an unfinished one has it inside |
| Simulation.RunAdditive | AQA-Assembler/src/Simulation.cs:26-31 | running a + b iterations is running a and then resuming with b |
| Simulation.RunSettles | AQA-Assembler/src/Simulation.cs:26 | once finished or faulted, more iterations change nothing |
| Simulation.BranchStep | AQA-Assembler/Assembler.cs:86-111 | a taken branch runs the slot after the stored destination next, an untaken one the next slot, and registers are kept |
| Simulation.TakenBranchLands | AQA-Assembler/src/Simulation.cs:57-61 | a taken branch to d runs slot d + 1 next when the setter keeps d and d + 1 does not wrap |
| Simulation.HaltRestartsProgram | AQA-Assembler/src/Simulation.cs:78-81 | two iterations after HALT the run is back at slot 1 with registers and flag kept |
| Simulation.HaltNeverFinishes | AQA-Assembler/src/Simulation.cs:26-31 | a program that reaches HALT from slot 1 runs out of any budget without finishing |
| Simulation.HaltStops | AQA-Assembler/SImulation.cs:81-83 | with the `int.MaxValue` sentinel, HALT finishes the run in one iteration with registers and flag kept |
| Simulation.BranchSkipsLabelSlot | AQA-Assembler/Assembler.cs:127 | as written, a taken branch next runs slot j + 2, past the slot of the first kept line after its label on line j |
| Simulation.BranchReachesLabelSlot | AQA-Assembler/Assembler.cs:130-145 | corrected, a taken branch next runs exactly the first kept line after its label |
| Simulation.Simulate | AQA-Assembler/src/Simulation.cs:11-33 | Simulate runs iff Parse returns a program, and then runs exactly that program from a new State with the given budget. Parse throwing is reported as such. A rejection only happens with a checker whose flag is false |
| SampleProgram.SourceParses | AQA-Assembler/Assembler.cs:29-76 | with the corrected checker, the source `MOV R0, #5` / `ADD R1, R0, #3` assembles to the no-op, the MOV and the ADD, with the checker left fresh |
| SampleProgram.SourceRuns | AQA-Assembler/src/Simulation.cs:11-33 | with the corrected checker, simulating that source finishes with R0 = 5 and R1 = 8 |
| Simulation.InstructionsNeverRun | AQA-Assembler/SImulation.cs:14-20 | as written, a source with any instruction line is never run |

## Left out

- File reading, console output and the GUI are left out. The source lines and the run's
  result are values, and `State.Display` is not modelled.
- Floating point is left out. The `float` side of `OneOf<int,float>`, the `Operand(float)`
  constructor and the FLOAT class exist in the source, but no token can produce a float. A
  register therefore holds an `int`, and `AsT0` never fails.
- The 1024-entry stack array is left out; no instruction uses it.
- The regex and `ToUpper` are modelled on ASCII. `\w`, `\d` and upper-casing of non-ASCII
  letters follow the .NET Unicode tables, which are not modelled.
- `line.ToUpper()` uses the current culture. The model assumes an invariant culture, where
  `i` becomes `I`; under a Turkish culture it becomes `İ`, which `\w` also matches.
- `IEnumerable` laziness is left out. `PreProcess` and `Select` are evaluated eagerly; the
  source has no side effect that depends on the order.
- Simulation.Run: the `while` loop is given an iteration budget. Non-termination shows as
  `OutOfFuel` for every budget (see HaltNeverFinishes), not as a run that never returns.
- Assembler.PreProcess: states which lines are kept, in both directions, but not that their
  order and multiplicity are preserved. The body is a plain filter.
- Tokenizer.Tokens: states only the shape of each match. The exact matches are stated for
  text built from well-formed tokens (TokensOfJoin) and on samples, not for arbitrary text.
- TypeChecker.AcceptsIff: stated for at most four operands. Longer operand lists are covered
  only by BitAssembleIgnoresFifthToEighth.
- AssemblerProofs.IdsDistinct: line ids wrap after 2^32 - 1 lines. The line-to-slot lemmas
  require fewer lines than that.
- ProgramLayout.InstructionSlot: requires fewer than 2^32 - 1 lines.
- ProgramLayout.BranchSlot: requires fewer than 2^32 - 1 lines.
- Simulation.HaltStops: requires a program of at most 2^31 slots, so that the sentinel is
  past its end.
- In the corrected snapshot the PC setter no longer turns 0 into 1. The corrected destination
  of a label before the first slot is 0, and the increment then lands on slot 1.

### Where the code departs from its evident intent (the model follows the code)

- **Label positions.** `Compiler.cs:30-31` stores a label's 0-based id, so that the `++PC` after a
  taken branch lands on the next slot when no line before the label was dropped. The current
  `AQA-Assembler/Assembler.cs:49` stores the label's own 1-based id, which `labels[jump.Label]` at
  `AQA-Assembler/Assembler.cs:127` hands to the branch, so the increment overshoots by one (finding 3).
- **HALT sentinel.** The older `AQA-Assembler/SImulation.cs:81` stores `int.MaxValue`, which is past
  every program and ends the loop. The current `AQA-Assembler/src/Simulation.cs:80` stores
  `uint.MaxValue`, and the loop's increment wraps it to slot 0 (finding 2).
- **Diagnostics.** `Parse` returns a program only if `success` holds at `AQA-Assembler/Assembler.cs:71`, but
  `AQA-Assembler/Checker.cs:55` clears `success` on every call, accepted or not (finding 1).
- **Signed literals.** `AQA-Assembler/Checker.cs:11` declares a NEGINT class and `AQA-Assembler/Assembler.cs:228` assigns it to
  a negative literal, but the token `#\d+` of `AQA-Assembler/Assembler.cs:21` carries no sign, so NEGINT never occurs.
- **Runtime faults.** The code has no handler: a register index outside 0..15, a missing operand or
  a null slot throws out of the simulation loop, and the model makes each a fault.
- **Duplicate labels.** `labels.Add` at `AQA-Assembler/Assembler.cs:49` throws on a second declaration of the same
  label, and the model makes it a fault.

## Findings

| source | as written | input that shows it | evidently intended | confidence | as-written member | corrected member |
|---|---|---|---|---|---|---|
| AQA-Assembler/Checker.cs:55 | every call clears `success` and nothing sets it again, so `Parse` returns null for every source with an instruction line, accepted or not | the one-line source `HALT` | clear `success` only when a call rejects its operands | not executed | ProgramLayout.ParseVoidsInstructions | ProgramLayout.CorrectedParseReturnsProgram |
| AQA-Assembler/src/Simulation.cs:80 | HALT stores `uint.MaxValue`, and the `++pc` after it wraps to 0. Slot 0's no-op runs and the program restarts at slot 1, so a run never ends | the linked program [no-op, HALT] run from a fresh state. In `Current` no source with an instruction yields a program, because of the Checker.cs:55 row, so the hang becomes reachable once that is fixed | a sentinel beyond the program that ends the loop, as the `int.MaxValue` of AQA-Assembler/SImulation.cs:81 does | not executed | Simulation.HaltNeverFinishes | Simulation.HaltStops |
| AQA-Assembler/Assembler.cs:127 | a branch stores its label's 1-based line id as the PC, and the loop then adds one. The next slot run is one past the label's own line number: the first kept line after the label is skipped, and so is every slot shifted by dropped lines | `L:` then `B L` links to [no-op, branch to 1]. The taken branch sets the PC to 1 and the increment makes it 2, so the run ends instead of looping on the branch | store the slot before the first kept line after the label, so that the increment lands on that line | not executed | Simulation.BranchSkipsLabelSlot | Simulation.BranchReachesLabelSlot |
