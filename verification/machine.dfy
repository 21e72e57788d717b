/**
  * The machine state: sixteen int registers, the comparison flag and the uint program counter,
  * with the accessors of both State snapshots.
  */
module Machine {
  import opened Results
  import opened Numbers
  import opened Operands
  import opened Snapshots

  /** enum CMP: the comparison flag, and a branch's condition. */
  datatype Cmp = EQ | NE | LT | GT | NULL

  const REGISTER_COUNT: nat := 16

  type Registers = r: seq<int32> | |r| == REGISTER_COUNT
    witness [0, 0, 0, 0, 0, 0, 0, 0, 0, 0, 0, 0, 0, 0, 0, 0]

  datatype State = State(cmpRegister: Cmp, pc: uint32, registers: Registers)

  /** new State(): flag NULL, PC 1 (slot 0 is the linker's no-op), registers at their default 0. */
  function NewState(): (s: State)
    ensures s.cmpRegister == NULL && s.pc == 1
    ensures forall i :: 0 <= i < REGISTER_COUNT ==> s.registers[i] == 0
  {
    State(NULL, 1, seq(REGISTER_COUNT, _ => 0))
  }

  /**
    * Assigning the PC: the current State's setter stores a positive value and turns 0 into 1;
    * the older SetPC stores any value.
    */
  function SetPC(snap: Snapshot, s: State, value: uint32): (r: State)
    ensures ClampsPC(snap) ==> r.pc == (if value > 0 then value else 1)
    ensures !ClampsPC(snap) ==> r.pc == value
    ensures r.cmpRegister == s.cmpRegister && r.registers == s.registers
  {
    if ClampsPC(snap) then s.(pc := if value > 0 then value else 1) else s.(pc := value)
  }

  /** IncrPC: `++pc` on the field itself, which bypasses the setter and wraps at uint.MaxValue. */
  function IncrPC(s: State): (r: State)
    ensures r.pc == (s.pc + 1) % TWO_32
    ensures r.cmpRegister == s.cmpRegister && r.registers == s.registers
  {
    s.(pc := IncrUInt32(s.pc))
  }

  /** Halt: the PC becomes the snapshot's sentinel (uint.MaxValue now, int.MaxValue before). */
  function Halt(snap: Snapshot, s: State): (r: State)
    ensures snap == Current ==> r.pc == UINT_MAX
    ensures snap != Current ==> r.pc == 0x7FFF_FFFF
    ensures r.cmpRegister == s.cmpRegister && r.registers == s.registers
  {
    s.(pc := HaltPC(snap))
  }

  /** Setting the flag (the CmpRegister setter, SetCMP before). */
  function SetCmp(s: State, c: Cmp): State {
    s.(cmpRegister := c)
  }

  /** Reading the flag (the CmpRegister getter, GetCmp before). */
  function GetCmp(s: State): Cmp {
    s.cmpRegister
  }

  /** The older accessors store what they are given and read back what was stored. */
  lemma AccessorsRoundTrip(s: State, c: Cmp, v: uint32)
    ensures GetCmp(SetCmp(s, c)) == c
    ensures SetCmp(s, c).pc == s.pc && SetCmp(s, c).registers == s.registers
    ensures SetPC(SingleFile, s, v).pc == v && SetPC(Earliest, s, v).pc == v
  {
  }

  /** AssignRegister: `registers[index] = value`, throwing when index is outside 0..15. */
  function AssignRegister(s: State, index: int, value: int32): (r: Result<State>)
    ensures r.Ok? <==> 0 <= index < REGISTER_COUNT
    ensures r.Err? ==> r.fault == RegisterOutOfRange(index)
    ensures r.Ok? ==> r.value.pc == s.pc && r.value.cmpRegister == s.cmpRegister
    ensures r.Ok? ==> r.value.registers[index] == value
    ensures r.Ok? ==> forall i :: 0 <= i < REGISTER_COUNT && i != index ==> r.value.registers[i] == s.registers[i]
  {
    if 0 <= index < REGISTER_COUNT then Ok(s.(registers := s.registers[index := value]))
    else Err(RegisterOutOfRange(index))
  }

  /** GetValue: a register operand reads its register, any other operand yields its payload. */
  function GetValue(s: State, operand: Operand): (r: Result<int32>)
    ensures operand.use != REG ==> r == Ok(operand.value)
    ensures operand.use == REG ==> (r.Ok? <==> 0 <= operand.value < REGISTER_COUNT)
    ensures operand.use == REG && r.Ok? ==> r.value == s.registers[operand.value]
    ensures operand.use == REG && r.Err? ==> r.fault == RegisterOutOfRange(operand.value)
  {
    if operand.use == REG then
      if 0 <= operand.value < REGISTER_COUNT then Ok(s.registers[operand.value])
      else Err(RegisterOutOfRange(operand.value))
    else Ok(operand.value)
  }

  /** A register reads back the value last assigned to it, and assigning one register leaves the others' reads alone. */
  lemma ReadAfterAssign(s: State, index: int, value: int32, operand: Operand)
    requires AssignRegister(s, index, value).Ok?
    ensures operand == RegisterOperand(index) ==> GetValue(AssignRegister(s, index, value).value, operand) == Ok(value)
    ensures operand.use != REG || operand.value != index ==>
      GetValue(AssignRegister(s, index, value).value, operand) == GetValue(s, operand)
  {
  }
}
