/**
  * The repository holds three snapshots of the same assembler and two of the machine state.
  * The model runs one pipeline and lets the snapshot decide the points where they differ.
  */
module Snapshots {
  import opened Numbers

  datatype Snapshot =
    | Current     // AQA-Assembler/Assembler.cs, AQA-Assembler/Checker.cs, AQA-Assembler/src/Simulation.cs
    | SingleFile  // Assembler.cs with the State of AQA-Assembler/SImulation.cs
    | Earliest    // Compiler.cs (no type check) with the State of AQA-Assembler/SImulation.cs
    | Corrected   // Current with the three defects listed under Findings repaired

  /** Earliest uses a line's id before incrementing the counter; the others increment first. */
  predicate PreIncrements(s: Snapshot) {
    s != Earliest
  }

  /** Earliest has no type checker and always returns the linked program. */
  predicate TypeChecks(s: Snapshot) {
    s != Earliest
  }

  /**
    * The current State's PC setter turns 0 into 1; the older SetPC stores any value. The
    * corrected linker sends a branch to a label before the first slot to 0, so the corrected
    * State stores the PC as given.
    */
  predicate ClampsPC(s: Snapshot) {
    s == Current
  }

  /** What Halt stores in the program counter. */
  function HaltPC(s: Snapshot): uint32 {
    if s == Current then UINT_MAX else INT_MAX as uint32
  }

  /** Only the corrected checker leaves `success` true after an accepted line. */
  predicate SuccessSurvivesAcceptance(s: Snapshot) {
    s == Corrected
  }

  /** Only the corrected linker translates a label's line id into a slot index. */
  predicate CompactsDestinations(s: Snapshot) {
    s == Corrected
  }
}
