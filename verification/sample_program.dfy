/**
  * A two-line source followed from text to registers under the corrected snapshot:
  * `MOV R0, #5` and `ADD R1, R0, #3` are tokenised, parsed, checked, assembled and linked,
  * and running the program leaves 5 in R0 and 8 in R1.
  */
module SampleProgram {
  import opened Results
  import opened Numbers
  import opened Text
  import opened Tokenizer
  import opened Snapshots
  import opened TypeChecker
  import opened Instructions
  import opened Operands
  import opened Assembler
  import opened Simulation
  import Machine

  const MoveLine: string := "MOV R0, #5"
  const AddLine: string := "ADD R1, R0, #3"

  /** The two lines are already upper case, and read as opcode, blank, operands with commas. */
  lemma MoveLineText()
    ensures Upper(MoveLine) == MoveLine
    ensures MoveLine == "MOV" + ([' '] + ("R0" + ([','] + ([' '] + "#5"))))
  {
    assert NoLower(MoveLine);
  }

  lemma AddLineText()
    ensures Upper(AddLine) == AddLine
    ensures AddLine == "ADD" + ([' '] + ("R1" + ([','] + ([' '] + ("R0" + ([','] + ([' '] + "#3")))))))
  {
    assert NoLower(AddLine);
  }

  /** `OP R, #n`: an opcode, a word operand and a literal, comma separated. */
  lemma TwoOperandTokens(op: string, a: string, b: string, line: string)
    requires IsWord(op) && op[0] != 'B' && IsWord(a) && a[0] != 'B' && IsLiteral(b)
    requires line == op + ([' '] + (a + ([','] + ([' '] + b))))
    requires Upper(line) == line
    ensures Tokenize(line) == [op] + [a, b]
  {
    LiteralAlone(b);
    WordCommaThen(a, b);
    WordBlankThen(op, a + ([','] + ([' '] + b)));
  }

  /** `OP R, R, #n`. */
  lemma ThreeOperandTokens(op: string, a: string, b: string, c: string, line: string)
    requires IsWord(op) && op[0] != 'B' && IsWord(a) && a[0] != 'B' && IsWord(b) && b[0] != 'B' && IsLiteral(c)
    requires line == op + ([' '] + (a + ([','] + ([' '] + (b + ([','] + ([' '] + c)))))))
    requires Upper(line) == line
    ensures Tokenize(line) == [op] + [a, b, c]
  {
    LiteralAlone(c);
    WordCommaThen(b, c);
    WordCommaThen(a, b + ([','] + ([' '] + c)));
    WordBlankThen(op, a + ([','] + ([' '] + (b + ([','] + ([' '] + c))))));
  }

  lemma MoveLineTokens(line: string)
    requires line == MoveLine
    ensures Tokenize(line) == ["MOV"] + ["R0", "#5"]
  {
    MoveLineText();
    TwoOperandTokens("MOV", "R0", "#5", line);
  }

  lemma AddLineTokens(line: string)
    requires line == AddLine
    ensures Tokenize(line) == ["ADD"] + ["R1", "R0", "#3"]
  {
    AddLineText();
    ThreeOperandTokens("ADD", "R1", "R0", "#3", line);
  }

  /** The operands the two lines parse to. */
  const MoveOperands: seq<Operand> := [RegisterOperand(0), LiteralOperand(5)]
  const AddOperands: seq<Operand> := [RegisterOperand(1), RegisterOperand(0), LiteralOperand(3)]

  lemma OperandsParse()
    ensures ParseArgs(["R0", "#5"]) == Ok(MoveOperands)
    ensures ParseArgs(["R1", "R0", "#3"]) == Ok(AddOperands)
  {
    OneDigitArg(0);
    OneDigitArg(1);
    OneDigitArg(3);
    OneDigitArg(5);
    assert ParseArg("R0") == Ok(RegisterOperand(0));
    assert ParseArg("R1") == Ok(RegisterOperand(1));
    assert ParseArg("#5") == Ok(LiteralOperand(5));
    assert ParseArg("#3") == Ok(LiteralOperand(3));
    var m := ParseArgs(["R0", "#5"]);
    assert m.Ok? && |m.value| == 2 && m.value[0] == MoveOperands[0] && m.value[1] == MoveOperands[1];
    assert m.value == MoveOperands;
    var a := ParseArgs(["R1", "R0", "#3"]);
    assert a.Ok? && |a.value| == 3 && a.value[0] == AddOperands[0] && a.value[1] == AddOperands[1] && a.value[2] == AddOperands[2];
    assert a.value == AddOperands;
  }

  /** A register or a literal of one digit. */
  lemma OneDigitArg(n: nat)
    requires n < 10
    ensures ParseArg(['R', DigitChar(n)]) == Ok(RegisterOperand(n))
    ensures ParseArg(['#', DigitChar(n)]) == Ok(LiteralOperand(n))
  {
    ParseArgRoundTrip(n);
    assert "R" + Decimal(n) == ['R', DigitChar(n)];
    assert "#" + Decimal(n) == ['#', DigitChar(n)];
  }

  /** The checker accepts both lines: R0 is a REG, #5 and #3 are POSINT, allowed by MOV's and ADD's masks. */
  lemma BothAccepted()
    ensures Accepts("MOV", MoveOperands)
    ensures Accepts("ADD", AddOperands)
  {
    AcceptsIff("MOV", MoveOperands);
    AcceptsIff("ADD", AddOperands);
  }

  /** The assembler's state after each line: ids 1 and 2, an action under each, the checker still fresh. */
  const AfterMove: Pass := Pass(1, [1], map[1 := Move(MoveOperands)], [], map[], Fresh)
  const AfterAdd: Pass := Pass(2, [1, 2], map[1 := Move(MoveOperands), 2 := Add(AddOperands)], [], map[], Fresh)

  /** An accepted call of the corrected checker on a fresh checker leaves it fresh. */
  lemma FreshAccepts(lineNumber: nat, line: string, opcode: string, operands: seq<Operand>)
    requires Signature(opcode).Ok? && Accepts(opcode, operands)
    ensures FormatCheck(Corrected, Fresh, lineNumber, line, opcode, operands) == Ok(Verdict(true, Fresh))
  {
    AcceptanceByNibbles(Control(opcode), Check(operands));
  }

  /** An accepted instruction line, under the corrected checker, appends its id and its action. */
  lemma AcceptedLine(p: Pass, lineNumber: nat, line: string, opcode: string, arguments: seq<string>,
                     operands: seq<Operand>, instr: Instr)
    requires Tokenize(line) == [opcode] + arguments
    requires |opcode| > 0 && opcode[|opcode| - 1] != ':' && opcode != "B"
    requires ParseArgs(arguments) == Ok(operands) && Action(opcode, operands) == Ok(instr)
    requires Signature(opcode).Ok? && Accepts(opcode, operands)
    requires p.checker == Fresh && IncrUInt32(p.id) !in p.actions
    ensures AssembleLine(Corrected, p, lineNumber, line) ==
      Ok(p.(id := IncrUInt32(p.id), actions := p.actions[IncrUInt32(p.id) := instr], ids := p.ids + [IncrUInt32(p.id)]))
  {
    assert Tokenize(line)[0] == opcode;
    assert Tokenize(line)[1..] == arguments;
    FreshAccepts(lineNumber, line, opcode, operands);
  }

  /** The two states above are what appending each line's id and action gives. */
  lemma PassesAfter()
    ensures var p := Begin(Fresh);
      && p.checker == Fresh && IncrUInt32(p.id) !in p.actions
      && p.(id := IncrUInt32(p.id), actions := p.actions[IncrUInt32(p.id) := Move(MoveOperands)], ids := p.ids + [IncrUInt32(p.id)]) == AfterMove
    ensures var p := AfterMove;
      && p.checker == Fresh && IncrUInt32(p.id) !in p.actions
      && p.(id := IncrUInt32(p.id), actions := p.actions[IncrUInt32(p.id) := Add(AddOperands)], ids := p.ids + [IncrUInt32(p.id)]) == AfterAdd
  {
  }

  lemma MoveLineAssembles(p: Pass, line: string, q: Pass)
    requires p == Begin(Fresh) && line == MoveLine && q == AfterMove
    ensures AssembleLine(Corrected, p, 0, line) == Ok(q)
  {
    PassesAfter();
    MoveLineTokens(line);
    OperandsParse();
    BothAccepted();
    AcceptedLine(p, 0, line, "MOV", ["R0", "#5"], MoveOperands, Move(MoveOperands));
  }

  lemma AddLineAssembles(p: Pass, line: string, q: Pass)
    requires p == AfterMove && line == AddLine && q == AfterAdd
    ensures AssembleLine(Corrected, p, 1, line) == Ok(q)
  {
    PassesAfter();
    AddLineTokens(line);
    OperandsParse();
    BothAccepted();
    AcceptedLine(p, 1, line, "ADD", ["R1", "R0", "#3"], AddOperands, Add(AddOperands));
  }

  /** Neither line is blank, so PreProcess keeps both. */
  lemma SourceKept(lines: seq<string>)
    requires lines == [MoveLine, AddLine]
    ensures PreProcess(lines) == lines
  {
    assert !IsWhiteSpace(lines[0][0]) && !IsWhiteSpace(lines[1][0]);
    assert lines[..1] == [MoveLine];
    assert lines[..1][..0] == [];
  }

  lemma SourceAssembles(lines: seq<string>)
    requires lines == [MoveLine, AddLine]
    ensures Assemble(Corrected, Fresh, lines) == Ok(AfterAdd)
  {
    var first := lines[..1];
    assert first[..0] == [];
    MoveLineAssembles(Begin(Fresh), first[0], AfterMove);
    assert Assemble(Corrected, Fresh, first) == Ok(AfterMove);
    AddLineAssembles(AfterMove, lines[1], AfterAdd);
  }

  /** With no branches, the linker lays out the no-op, the MOV and the ADD. */
  lemma SourceLinks(ids: seq<uint32>, actions: map<uint32, Instr>)
    requires ids == AfterAdd.ids && actions == AfterAdd.actions
    ensures Linker(Corrected, ids, actions, [], map[]) == Ok(MoveThenAdd)
  {
    assert ids[..1] == [1];
    assert ids[..1][..0] == [];
    assert Slots(ids[..1], actions, map[]) == [Move(MoveOperands)];
    var slots := Slots(ids, actions, map[]);
    assert slots == [Move(MoveOperands), Add(AddOperands)];
    assert ResolveJumps(Corrected, ids, [], map[]) == Ok(map[]);
    assert [Wait] + slots + seq(|ids| - |slots|, _ => Unset) == MoveThenAdd;
  }

  /** Parse returns exactly that program, with the checker untouched. */
  lemma SourceParses(source: seq<string>)
    requires source == [MoveLine, AddLine]
    ensures Parse(Corrected, Fresh, source) == Ok(Parsed(Some(MoveThenAdd), Fresh))
  {
    SourceKept(source);
    SourceAssembles(source);
    SourceLinks(AfterAdd.ids, AfterAdd.actions);
  }

  /** Simulate runs it to the end in two iterations: R0 holds 5 and R1 holds 5 + 3. */
  lemma SourceRuns()
    ensures var r := Simulate(Corrected, Fresh, [MoveLine, AddLine], 2);
      && r.Ran? && r.outcome.Finished?
      && r.outcome.state.registers[0] == 5 && r.outcome.state.registers[1] == 8
  {
    var source := [MoveLine, AddLine];
    SourceParses(source);
    MoveThenAddComputes(Corrected);
    assert Simulate(Corrected, Fresh, source, 2) == Ran(Run(Corrected, MoveThenAdd, Machine.NewState(), 2));
  }
}
