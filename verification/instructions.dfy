/**
  * The instructions the assembler produces, as data, and the effect each one has on the
  * machine state (the closures of FuncAdd, FuncSub, FuncCMP, FuncMov, FuncHalt, FuncJump, Wait).
  */
module Instructions {
  import opened Results
  import opened Numbers
  import opened Operands
  import opened Snapshots
  import opened TypeChecker
  import Machine

  datatype Instr =
    | Wait                                                // slot 0
    | Unset                                               // a linker slot never filled (a null delegate)
    | Add(operands: seq<Operand>)                         // FuncAdd
    | Sub(operands: seq<Operand>)                         // FuncSub
    | Compare(operands: seq<Operand>)                     // FuncCMP
    | Move(operands: seq<Operand>)                        // FuncMov
    | Halt                                                // FuncHalt
    | Branch(condition: Machine.Cmp, destination: uint32) // FuncJump

  /** operandTable[opcode](operands): the action an opcode denotes, or KeyNotFound. */
  function Action(opcode: string, operands: seq<Operand>): Result<Instr> {
    if opcode == "ADD" then Ok(Add(operands))
    else if opcode == "SUB" then Ok(Sub(operands))
    else if opcode == "CMP" then Ok(Compare(operands))
    else if opcode == "MOV" then Ok(Move(operands))
    else if opcode == "HALT" then Ok(Halt)
    else Err(UnknownOpcode(opcode))
  }

  /** The operand table and the checker's signature table have the same keys. */
  lemma ActionTableMatchesSignatures(opcode: string, operands: seq<Operand>)
    ensures Action(opcode, operands).Ok? <==> Signature(opcode).Ok?
    ensures Action(opcode, operands).Ok? <==> opcode in OPCODES
    ensures Action(opcode, operands).Err? ==> Action(opcode, operands).fault == UnknownOpcode(opcode)
  {
  }

  /** `operands[k]`, or IndexOutOfRange. */
  function OperandAt(operands: seq<Operand>, k: nat): (r: Result<Operand>)
    ensures r.Ok? <==> k < |operands|
    ensures r.Ok? ==> r.value == operands[k]
    ensures r.Err? ==> r.fault == MissingOperand(k)
  {
    if k < |operands| then Ok(operands[k]) else Err(MissingOperand(k))
  }

  /** `state.GetValue(operands[k]).AsT0`. */
  function ValueAt(s: Machine.State, operands: seq<Operand>, k: nat): Result<int32> {
    var operand :- OperandAt(operands, k);
    Machine.GetValue(s, operand)
  }

  /** Whether a branch with this condition is taken under this flag. */
  predicate Taken(condition: Machine.Cmp, flag: Machine.Cmp) {
    || condition == Machine.NULL
    || (condition == Machine.NE && flag != Machine.EQ)
    || (condition in {Machine.EQ, Machine.LT, Machine.GT} && flag == condition)
  }

  /** FuncJump's closure: NULL always jumps, NE unless the flag is EQ, the others on an equal flag. */
  function Jump(snap: Snapshot, condition: Machine.Cmp, destination: uint32, s: Machine.State): Machine.State {
    if condition == Machine.NULL then Machine.SetPC(snap, s, destination)
    else if condition == Machine.NE then
      if Machine.GetCmp(s) != Machine.EQ then Machine.SetPC(snap, s, destination) else s
    else if condition == Machine.GetCmp(s) then Machine.SetPC(snap, s, destination)
    else s
  }

  /** The signed comparison FuncCMP stores. */
  function Compared(x: int32, y: int32): Machine.Cmp {
    if x > y then Machine.GT else if x < y then Machine.LT else Machine.EQ
  }

  /** Invoking an instruction on a state; a thrown exception is an Err. */
  function Apply(snap: Snapshot, instr: Instr, s: Machine.State): (r: Result<Machine.State>)
    ensures r.Ok? && !instr.Halt? && !instr.Branch? ==> r.value.pc == s.pc
    ensures r.Ok? && !instr.Compare? ==> r.value.cmpRegister == s.cmpRegister
    ensures r.Ok? && !instr.Add? && !instr.Sub? && !instr.Move? ==> r.value.registers == s.registers
    ensures instr.Unset? ==> r == Err(NullCommand)
  {
    match instr
    case Wait => Ok(s)
    case Unset => Err(NullCommand)
    case Add(operands) =>
      var a :- ValueAt(s, operands, 1);
      var b :- ValueAt(s, operands, 2);
      var destination :- OperandAt(operands, 0);
      Machine.AssignRegister(s, destination.value, WrapInt32(a + b))
    case Sub(operands) =>
      var a :- ValueAt(s, operands, 1);
      var b :- ValueAt(s, operands, 2);
      var destination :- OperandAt(operands, 0);
      Machine.AssignRegister(s, destination.value, WrapInt32(a - b))
    case Compare(operands) =>
      var x :- ValueAt(s, operands, 0);
      var y :- ValueAt(s, operands, 1);
      Ok(Machine.SetCmp(s, Compared(x, y)))
    case Move(operands) =>
      var destination :- OperandAt(operands, 0);
      var v :- ValueAt(s, operands, 1);
      Machine.AssignRegister(s, destination.value, v)
    case Halt => Ok(Machine.Halt(snap, s))
    case Branch(condition, destination) => Ok(Jump(snap, condition, destination, s))
  }

  /**
    * A branch sets the PC (through the snapshot's setter) exactly when it is taken: always for
    * NULL, for NE whenever the flag is not EQ (so also while it is NULL), for EQ/LT/GT when the
    * flag equals the condition; otherwise the state is unchanged.
    */
  lemma BranchSemantics(snap: Snapshot, condition: Machine.Cmp, destination: uint32, s: Machine.State)
    ensures Apply(snap, Branch(condition, destination), s) ==
      Ok(if Taken(condition, s.cmpRegister) then Machine.SetPC(snap, s, destination) else s)
    ensures condition == Machine.NE && s.cmpRegister == Machine.NULL ==> Taken(condition, s.cmpRegister)
  {
  }

  /** Both register operands read in range (literals always read). */
  predicate Readable(operands: seq<Operand>, k: nat) {
    k < |operands| && (operands[k].use == REG ==> 0 <= operands[k].value < Machine.REGISTER_COUNT)
  }

  /**
    * ADD and SUB write the wrapped int sum or difference of the values of operands 1 and 2 into
    * the register operand 0 names, and touch nothing else; they fail iff an operand is missing
    * or a register index is outside 0..15.
    */
  lemma ArithmeticWritesOnlyDestination(snap: Snapshot, instr: Instr, s: Machine.State)
    requires instr.Add? || instr.Sub?
    ensures var ops := instr.operands;
      Apply(snap, instr, s).Ok? <==>
        Readable(ops, 1) && Readable(ops, 2) && 0 <= ops[0].value < Machine.REGISTER_COUNT
    ensures var ops := instr.operands; var r := Apply(snap, instr, s);
      r.Ok? ==>
        var a := ValueAt(s, ops, 1).value;
        var b := ValueAt(s, ops, 2).value;
        && r.value.registers[ops[0].value] == WrapInt32(if instr.Add? then a + b else a - b)
        && (forall i :: 0 <= i < Machine.REGISTER_COUNT && i != ops[0].value ==> r.value.registers[i] == s.registers[i])
        && r.value.pc == s.pc && r.value.cmpRegister == s.cmpRegister
  {
  }

  /** MOV copies the value of operand 1 into the register operand 0 names and touches nothing else. */
  lemma MoveCopies(snap: Snapshot, operands: seq<Operand>, s: Machine.State)
    ensures Apply(snap, Move(operands), s).Ok? <==>
      Readable(operands, 1) && 0 <= operands[0].value < Machine.REGISTER_COUNT
    ensures var r := Apply(snap, Move(operands), s);
      r.Ok? ==>
        && r.value.registers[operands[0].value] == ValueAt(s, operands, 1).value
        && (forall i :: 0 <= i < Machine.REGISTER_COUNT && i != operands[0].value ==> r.value.registers[i] == s.registers[i])
        && r.value.pc == s.pc && r.value.cmpRegister == s.cmpRegister
  {
  }

  /** CMP sets the flag to exactly one of GT, LT, EQ by signed comparison, and nothing else. */
  lemma CompareSetsFlag(snap: Snapshot, operands: seq<Operand>, s: Machine.State)
    ensures Apply(snap, Compare(operands), s).Ok? <==> Readable(operands, 0) && Readable(operands, 1)
    ensures var r := Apply(snap, Compare(operands), s);
      r.Ok? ==>
        var x := ValueAt(s, operands, 0).value;
        var y := ValueAt(s, operands, 1).value;
        && r.value.cmpRegister in {Machine.GT, Machine.LT, Machine.EQ}
        && (r.value.cmpRegister == Machine.GT <==> x > y)
        && (r.value.cmpRegister == Machine.LT <==> x < y)
        && (r.value.cmpRegister == Machine.EQ <==> x == y)
        && r.value.registers == s.registers && r.value.pc == s.pc
  {
  }

  /** HALT only moves the PC to the snapshot's sentinel; Wait does nothing. */
  lemma HaltAndWait(snap: Snapshot, s: Machine.State)
    ensures Apply(snap, Halt, s) == Ok(s.(pc := HaltPC(snap)))
    ensures Apply(snap, Wait, s) == Ok(s)
  {
  }
}
