/**
  * The fetch-execute loop of Simulate: while the PC indexes the program, invoke the command
  * there, then increment the PC. A run is bounded by a step budget; reading the source file
  * and printing the registers are left to the caller.
  */
module Simulation {
  import opened Results
  import opened Numbers
  import opened Snapshots
  import opened TypeChecker
  import opened Instructions
  import opened Operands
  import opened Assembler
  import opened AssemblerProofs
  import opened ProgramLayout
  import Machine

  /** How a bounded run ends. */
  datatype Outcome =
    | Finished(state: Machine.State)   // the PC left the program
    | Faulted(fault: Fault)            // a command threw
    | OutOfFuel(state: Machine.State)  // the budget ran out with the PC still inside

  /** One iteration of the loop body: `commands[PC](state); state.IncrPC();`. */
  function Step(snap: Snapshot, commands: seq<Instr>, s: Machine.State): (r: Result<Machine.State>)
    requires s.pc < |commands|
    ensures r.Ok? <==> Apply(snap, commands[s.pc], s).Ok?
    ensures r.Ok? ==> r.value == Machine.IncrPC(Apply(snap, commands[s.pc], s).value)
    ensures commands[s.pc].Unset? ==> r == Err(NullCommand)
    ensures r.Ok? && !commands[s.pc].Halt? && !commands[s.pc].Branch? ==> r.value.pc == (s.pc + 1) % TWO_32
    ensures r.Ok? && !commands[s.pc].Compare? ==> r.value.cmpRegister == s.cmpRegister
  {
    var t :- Apply(snap, commands[s.pc], s);
    Ok(Machine.IncrPC(t))
  }

  /**
    * One iteration executes the slot's instruction: ADD and SUB write the wrapped sum or
    * difference into operand 0's register, MOV copies operand 1 there, CMP sets the flag by
    * signed comparison; every other register and the flag are kept, and the PC moves on by one.
    */
  lemma StepExecutes(snap: Snapshot, commands: seq<Instr>, s: Machine.State)
    requires s.pc < |commands|
    requires commands[s.pc].Add? || commands[s.pc].Sub? || commands[s.pc].Move? || commands[s.pc].Compare?
    ensures var instr := commands[s.pc]; var ops := instr.operands; var r := Step(snap, commands, s);
      && (instr.Add? || instr.Sub? ==>
            (r.Ok? <==> Readable(ops, 1) && Readable(ops, 2) && 0 <= ops[0].value < Machine.REGISTER_COUNT))
      && (instr.Move? ==> (r.Ok? <==> Readable(ops, 1) && 0 <= ops[0].value < Machine.REGISTER_COUNT))
      && (instr.Compare? ==> (r.Ok? <==> Readable(ops, 0) && Readable(ops, 1)))
    ensures var instr := commands[s.pc]; var ops := instr.operands; var r := Step(snap, commands, s);
      r.Ok? && !instr.Compare? ==>
        && r.value.registers[ops[0].value] ==
             (if instr.Move? then ValueAt(s, ops, 1).value
              else WrapInt32(if instr.Add? then ValueAt(s, ops, 1).value + ValueAt(s, ops, 2).value
                             else ValueAt(s, ops, 1).value - ValueAt(s, ops, 2).value))
        && (forall i :: 0 <= i < Machine.REGISTER_COUNT && i != ops[0].value ==> r.value.registers[i] == s.registers[i])
        && r.value.cmpRegister == s.cmpRegister
    ensures var instr := commands[s.pc]; var ops := instr.operands; var r := Step(snap, commands, s);
      r.Ok? && instr.Compare? ==>
        && r.value.cmpRegister == Compared(ValueAt(s, ops, 0).value, ValueAt(s, ops, 1).value)
        && r.value.registers == s.registers
    ensures var r := Step(snap, commands, s);
      r.Ok? ==> r.value.pc == (s.pc + 1) % TWO_32
  {
    var instr := commands[s.pc];
    if instr.Add? || instr.Sub? {
      ArithmeticWritesOnlyDestination(snap, instr, s);
    } else if instr.Move? {
      MoveCopies(snap, instr.operands, s);
    } else {
      CompareSetsFlag(snap, instr.operands, s);
    }
  }

  /** `MOV R0, #5` then `ADD R1, R0, #3`, linked behind the no-op of slot 0. */
  const MoveThenAdd: seq<Instr> := [
    Wait,
    Move([RegisterOperand(0), LiteralOperand(5)]),
    Add([RegisterOperand(1), RegisterOperand(0), LiteralOperand(3)])]

  /** Run from a fresh state, the program stops after two iterations with R0 == 5 and R1 == 8. */
  lemma MoveThenAddComputes(snap: Snapshot)
    ensures var o := Run(snap, MoveThenAdd, Machine.NewState(), 2);
      && o.Finished? && o.state.pc == 3
      && o.state.registers[0] == 5 && o.state.registers[1] == 8
      && (forall i :: 2 <= i < Machine.REGISTER_COUNT ==> o.state.registers[i] == 0)
  {
    var s0 := Machine.NewState();
    StepExecutes(snap, MoveThenAdd, s0);
    var s1 := Step(snap, MoveThenAdd, s0).value;
    StepExecutes(snap, MoveThenAdd, s1);
    var s2 := Step(snap, MoveThenAdd, s1).value;
    assert Run(snap, MoveThenAdd, s2, 0) == Finished(s2);
  }

  /** `while (PC < commands.Length)` for at most `fuel` iterations. */
  function Run(snap: Snapshot, commands: seq<Instr>, s: Machine.State, fuel: nat): (r: Outcome)
    ensures r.Finished? ==> r.state.pc >= |commands|
    ensures r.OutOfFuel? ==> r.state.pc < |commands|
    ensures fuel == 0 ==> !r.Faulted?
    decreases fuel
  {
    if s.pc >= |commands| then Finished(s)
    else if fuel == 0 then OutOfFuel(s)
    else
      match Step(snap, commands, s)
      case Err(f) => Faulted(f)
      case Ok(t) => Run(snap, commands, t, fuel - 1)
  }

  /** Carry on an unfinished run with more budget; a finished or faulted run stays as it is. */
  function Resume(snap: Snapshot, commands: seq<Instr>, o: Outcome, fuel: nat): Outcome {
    if o.OutOfFuel? then Run(snap, commands, o.state, fuel) else o
  }

  /** Running a + b iterations is running a, then resuming with b. */
  lemma {:induction false} RunAdditive(snap: Snapshot, commands: seq<Instr>, s: Machine.State, a: nat, b: nat)
    ensures Run(snap, commands, s, a + b) == Resume(snap, commands, Run(snap, commands, s, a), b)
    decreases a
  {
    if s.pc < |commands| && a > 0 {
      match Step(snap, commands, s)
      case Err(f) =>
      case Ok(t) =>
        RunAdditive(snap, commands, t, a - 1, b);
        assert a + b - 1 == (a - 1) + b;
    }
  }

  /** Once a run has finished or faulted, more budget changes nothing. */
  lemma RunSettles(snap: Snapshot, commands: seq<Instr>, s: Machine.State, a: nat, k: nat)
    requires !Run(snap, commands, s, a).OutOfFuel?
    ensures Run(snap, commands, s, a + k) == Run(snap, commands, s, a)
  {
    RunAdditive(snap, commands, s, a, k);
  }

  /** The PC value the snapshot's setter stores for a branch to d. */
  function Landing(snap: Snapshot, d: uint32): uint32 {
    if ClampsPC(snap) && d == 0 then 1 else d
  }

  /**
    * A branch step: taken, the PC becomes the stored destination and then moves on by one, so
    * the next command run is the one after the destination; not taken, the PC just moves on.
    * Registers and flag are untouched either way.
    */
  lemma BranchStep(snap: Snapshot, commands: seq<Instr>, s: Machine.State)
    requires s.pc < |commands| && commands[s.pc].Branch?
    ensures Step(snap, commands, s).Ok?
    ensures var d := commands[s.pc].destination;
      Step(snap, commands, s).value.pc ==
        if Taken(commands[s.pc].condition, s.cmpRegister) then (Landing(snap, d) + 1) % TWO_32 else (s.pc + 1) % TWO_32
    ensures Step(snap, commands, s).value.registers == s.registers
  {
    BranchSemantics(snap, commands[s.pc].condition, commands[s.pc].destination, s);
  }

  /** A taken branch to d, when the setter stores d unchanged and d + 1 does not wrap, runs slot d + 1 next. */
  lemma TakenBranchLands(snap: Snapshot, commands: seq<Instr>, s: Machine.State, d: uint32)
    requires s.pc < |commands| && commands[s.pc].Branch? && commands[s.pc].destination == d
    requires d < UINT_MAX && (d > 0 || !ClampsPC(snap))
    ensures Step(snap, commands, s).Ok?
    ensures Taken(commands[s.pc].condition, s.cmpRegister) ==> Step(snap, commands, s).value.pc == d + 1
  {
    BranchStep(snap, commands, s);
  }

  /**
    * HALT in the current State: the PC becomes uint.MaxValue, the increment wraps it to 0, slot
    * 0's no-op runs and the PC is back at 1, with every register and the flag kept. Two
    * iterations after a HALT the program starts over.
    */
  lemma HaltRestartsProgram(commands: seq<Instr>, s: Machine.State, k: nat)
    requires s.pc < |commands| && commands[s.pc] == Halt && commands[0] == Wait
    ensures Run(Current, commands, s, k + 2) == Run(Current, commands, s.(pc := 1), k)
  {
    var t := Step(Current, commands, s).value;
    assert t == s.(pc := 0);
    assert Step(Current, commands, t) == Ok(s.(pc := 1));
    assert Run(Current, commands, s, k + 2) == Run(Current, commands, t, k + 1);
  }

  /** So in the current State a program that reaches HALT from slot 1 never finishes, however large the budget. */
  lemma {:induction false} HaltNeverFinishes(commands: seq<Instr>, s: Machine.State, fuel: nat)
    requires 1 < |commands| && commands[0] == Wait && commands[1] == Halt && s.pc == 1
    ensures Run(Current, commands, s, fuel).OutOfFuel?
    decreases fuel
  {
    if fuel >= 2 {
      HaltRestartsProgram(commands, s, fuel - 2);
      HaltNeverFinishes(commands, s.(pc := 1), fuel - 2);
      assert s.(pc := 1) == s;
    } else if fuel == 1 {
      assert Step(Current, commands, s) == Ok(s.(pc := 0));
    }
  }

  /**
    * HALT in the older State (and corrected): the PC becomes int.MaxValue and the increment
    * gives 2^31, past the end of any program of at most 2^31 slots, so the run finishes in one
    * iteration with the registers and flag as they were.
    */
  lemma HaltStops(snap: Snapshot, commands: seq<Instr>, s: Machine.State, k: nat)
    requires snap != Current
    requires s.pc < |commands| <= TWO_31 && commands[s.pc] == Halt
    ensures Run(snap, commands, s, k + 1) == Finished(s.(pc := TWO_31))
  {
    assert Step(snap, commands, s) == Ok(s.(pc := TWO_31));
  }

  /**
    * As written, a taken branch in the linked program runs next the slot one past its label's
    * 1-based line number, which lies beyond the first kept line after the label: that line is
    * skipped (and so is every line compacted away before it).
    */
  lemma BranchSkipsLabelSlot(snap: Snapshot, c: Checker, source: seq<string>, i: nat, s: Machine.State) returns (j: nat)
    requires snap == Current || snap == SingleFile
    requires Parse(snap, c, source).Ok? && Parse(snap, c, source).value.commands.Some?
    requires |PreProcess(source)| < TWO_32 - 1
    requires i < |PreProcess(source)| && IsBranchLine(PreProcess(source)[i])
    requires s.pc == SlotOf(snap, PreProcess(source), i)
    ensures var lines := PreProcess(source);
      && NewJump(ArgumentsOf(lines[i]), IdOf(snap, i)).Ok?
      && j < |lines| && IsLabelLine(lines[j]) && LabelOf(lines[j]) == JumpOf(snap, lines, i).target
      && s.pc < |Program(snap, c, source)|
      && Step(snap, Program(snap, c, source), s).Ok?
      && (Taken(JumpOf(snap, lines, i).condition, s.cmpRegister) ==>
            Step(snap, Program(snap, c, source), s).value.pc == j + 2 > SlotOf(snap, lines, j))
  {
    var lines := PreProcess(source);
    j := BranchSlot(snap, c, source, i);
    DestinationOvershoots(snap, lines, j);
    TakenBranchLands(snap, Program(snap, c, source), s, DestinationOf(snap, lines, j));
  }

  /** Corrected, a taken branch runs next exactly the first kept line after its label. */
  lemma BranchReachesLabelSlot(c: Checker, source: seq<string>, i: nat, s: Machine.State) returns (j: nat)
    requires Parse(Corrected, c, source).Ok? && Parse(Corrected, c, source).value.commands.Some?
    requires |PreProcess(source)| < TWO_32 - 1
    requires i < |PreProcess(source)| && IsBranchLine(PreProcess(source)[i])
    requires s.pc == SlotOf(Corrected, PreProcess(source), i)
    ensures var lines := PreProcess(source);
      && NewJump(ArgumentsOf(lines[i]), IdOf(Corrected, i)).Ok?
      && j < |lines| && IsLabelLine(lines[j]) && LabelOf(lines[j]) == JumpOf(Corrected, lines, i).target
      && s.pc < |Program(Corrected, c, source)|
      && Step(Corrected, Program(Corrected, c, source), s).Ok?
      && (Taken(JumpOf(Corrected, lines, i).condition, s.cmpRegister) ==>
            Step(Corrected, Program(Corrected, c, source), s).value.pc == SlotOf(Corrected, lines, j))
  {
    var lines := PreProcess(source);
    j := BranchSlot(Corrected, c, source, i);
    CorrectedDestination(lines, j);
    TakenBranchLands(Corrected, Program(Corrected, c, source), s, DestinationOf(Corrected, lines, j));
  }

  /** What Simulate does with a source: report a throw, print the diagnostics, or run. */
  datatype Session =
    | NotAssembled(fault: Fault)   // Parse threw
    | Rejected(checker: Checker)   // Parse returned null; the caller prints checker's Display
    | Ran(outcome: Outcome)        // the loop ran from a fresh State

  /** Simulate, given the source lines and a budget for the loop. */
  function Simulate(snap: Snapshot, c: Checker, source: seq<string>, fuel: nat): (r: Session)
    ensures r.NotAssembled? <==> Parse(snap, c, source).Err?
    ensures r.Rejected? ==> TypeChecks(snap) && !r.checker.success
    ensures r.Ran? <==> Parse(snap, c, source).Ok? && Parse(snap, c, source).value.commands.Some?
    ensures r.Ran? ==> r.outcome == Run(snap, Parse(snap, c, source).value.commands.value, Machine.NewState(), fuel)
  {
    match Parse(snap, c, source)
    case Err(f) => NotAssembled(f)
    case Ok(parsed) =>
      if parsed.commands.None? then Rejected(parsed.checker)
      else Ran(Run(snap, parsed.commands.value, Machine.NewState(), fuel))
  }

  /** As written, Simulate never runs a source that has an instruction line in it. */
  lemma InstructionsNeverRun(snap: Snapshot, c: Checker, source: seq<string>, fuel: nat, i: nat)
    requires snap == Current || snap == SingleFile
    requires i < |PreProcess(source)| && IsInstructionLine(PreProcess(source)[i])
    ensures !Simulate(snap, c, source, fuel).Ran?
  {
    if Parse(snap, c, source).Ok? {
      ParseVoidsInstructions(snap, c, source);
    }
  }
}
