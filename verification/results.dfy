/** Every exception the assembler, the checker and the machine can throw, as a value. */
module Results {

  /** The faults the source raises as .NET exceptions. */
  datatype Fault =
    | NoTokens(line: string)           // tokens[0] on a line the tokeniser found nothing in
    | MissingToken(position: nat)      // arguements[k] past the end of a branch line
    | MissingOperand(position: nat)    // operands[k] past the end inside an action
    | DuplicateLabel(name: string)     // labels.Add with a name already present
    | DuplicateId(id: int)             // Dictionary.Add / ToDictionary with an id already present
    | UnknownOpcode(opcode: string)    // operandTable[opcode] or BitCheck[opcode] without that key
    | MalformedOperand(token: string)  // ParseArgs on a token that starts with neither '#' nor 'R'
    | NotAnInt32(digits: string)       // int.Parse failing (format or overflow)
    | UnresolvedLabel(name: string)    // labels[jump.Label] without that key
    | UnlistedMask(mask: bv8)          // BitSwitch on a mask outside its table
    | RegisterOutOfRange(index: int)   // registers[index] outside 0..15
    | NullCommand                      // invoking a linker slot that was never filled

  /** A present or absent value (a C# reference that may be null). */
  datatype Option<+T> = None | Some(value: T)

  /** A value or the fault that stopped the computation; usable with `:-`. */
  datatype Result<+T> = Ok(value: T) | Err(fault: Fault) {

    predicate IsFailure() {
      Err?
    }

    function PropagateFailure<U>(): Result<U>
      requires Err?
    {
      Err(fault)
    }

    function Extract(): T
      requires Ok?
    {
      value
    }
  }
}
