/**
  * What Parse computes, stated line by line: which id each line gets, which lines are linked,
  * what the label table holds, when the success flag survives and where a branch lands.
  */
module AssemblerProofs {
  import opened Results
  import opened Numbers
  import opened Tokenizer
  import opened Operands
  import opened TypeChecker
  import opened Snapshots
  import opened Instructions
  import opened Assembler

  /** The id line i (0-based, after PreProcess) is given: `++id` first, or `id++` in the earliest snapshot. */
  function IdOf(snap: Snapshot, i: nat): uint32 {
    Wrap32(if PreIncrements(snap) then i + 1 else i)
  }

  /** A label declaration: the first token ends in ':'. */
  predicate IsLabelLine(line: string) {
    var t := Tokenize(line);
    |t| > 0 && |t[0]| > 0 && t[0][|t[0]| - 1] == ':'
  }

  function LabelOf(line: string): string
    requires IsLabelLine(line)
  {
    var t := Tokenize(line)[0];
    t[..|t| - 1]
  }

  /** A branch: the first token is the keyword B. */
  predicate IsBranchLine(line: string) {
    var t := Tokenize(line);
    |t| > 0 && t[0] == "B"
  }

  /** Any other line with a token: an opcode and its operands. */
  predicate IsInstructionLine(line: string) {
    |Tokenize(line)| > 0 && !IsLabelLine(line) && !IsBranchLine(line)
  }

  function OpcodeOf(line: string): string
    requires |Tokenize(line)| > 0
  {
    Tokenize(line)[0]
  }

  function ArgumentsOf(line: string): seq<string>
    requires |Tokenize(line)| > 0
  {
    Tokenize(line)[1..]
  }

  /** An instruction line whose operands parse, whose opcode is known and which the snapshot's checker accepts. */
  predicate Passes(snap: Snapshot, line: string)
    requires IsInstructionLine(line)
  {
    var operands := ParseOperands(snap, ArgumentsOf(line));
    && operands.Ok?
    && Signature(OpcodeOf(line)).Ok?
    && (TypeChecks(snap) ==> Accepts(OpcodeOf(line), operands.value))
  }

  /** A line that gets a slot in the linked program: every branch, and every passing instruction. */
  predicate Kept(snap: Snapshot, line: string) {
    IsBranchLine(line) || (IsInstructionLine(line) && Passes(snap, line))
  }

  /** Reference for `ids`: the ids of the kept lines, in line order. */
  function LinkedIds(snap: Snapshot, lines: seq<string>): (r: seq<uint32>)
    ensures |r| <= |lines|
  {
    if |lines| == 0 then []
    else
      var n := |lines| - 1;
      LinkedIds(snap, lines[..n]) + (if Kept(snap, lines[n]) then [IdOf(snap, n)] else [])
  }

  /** Reference for `jumps`: the pending jump of each well-formed branch line, in line order. */
  function JumpsOf(snap: Snapshot, lines: seq<string>): (r: seq<Jump>)
    ensures |r| <= |lines|
  {
    if |lines| == 0 then []
    else
      var n := |lines| - 1;
      JumpsOf(snap, lines[..n]) + JumpOfLine(snap, lines[n], n)
  }

  /** The pending jump line n contributes: its jump if it is a well-formed branch, else none. */
  function JumpOfLine(snap: Snapshot, line: string, n: nat): (r: seq<Jump>)
    ensures |r| <= 1
  {
    if IsBranchLine(line) && NewJump(ArgumentsOf(line), IdOf(snap, n)).Ok?
    then [NewJump(ArgumentsOf(line), IdOf(snap, n)).value] else []
  }

  /** Reference for the success flag after the loop. */
  predicate ExpectedSuccess(snap: Snapshot, c: Checker, lines: seq<string>) {
    if !TypeChecks(snap) then c.success
    else if SuccessSurvivesAcceptance(snap) then
      c.success && forall i :: 0 <= i < |lines| && IsInstructionLine(lines[i]) ==> Passes(snap, lines[i])
    else
      c.success && forall i :: 0 <= i < |lines| ==> !IsInstructionLine(lines[i])
  }

  /** The id a line gets from the running counter. */
  function LineId(snap: Snapshot, counter: uint32): uint32 {
    if PreIncrements(snap) then IncrUInt32(counter) else counter
  }

  /**
    * The effect of one line on the assembler's state q after p, part by part: the line has a
    * token, and each of the pass's fields changes only as its own predicate below says.
    */
  predicate LineEffect(snap: Snapshot, p: Pass, q: Pass, lineNumber: nat, line: string) {
    && |Tokenize(line)| > 0
    && IdsEffect(snap, p, q, line)
    && LabelsEffect(snap, p, q, line)
    && JumpsEffect(snap, p, q, line)
    && ActionsEffect(snap, p, q, line)
    && CheckerEffect(snap, p, q, lineNumber, line)
  }

  /** The counter moves on by one; a kept line appends its id. */
  predicate IdsEffect(snap: Snapshot, p: Pass, q: Pass, line: string) {
    && q.id == IncrUInt32(p.id)
    && q.ids == p.ids + (if Kept(snap, line) then [LineId(snap, p.id)] else [])
  }

  /** A label line adds a fresh name for its own id; no other line touches the table. */
  predicate LabelsEffect(snap: Snapshot, p: Pass, q: Pass, line: string) {
    && (IsLabelLine(line) ==> LabelOf(line) !in p.labels)
    && q.labels == if IsLabelLine(line) then p.labels[LabelOf(line) := LineId(snap, p.id)] else p.labels
  }

  /** A branch line appends its pending jump; no other line touches the list. */
  predicate JumpsEffect(snap: Snapshot, p: Pass, q: Pass, line: string) {
    && (IsBranchLine(line) ==> NewJump(ArgumentsOf(line), LineId(snap, p.id)).Ok?)
    && q.jumps == if IsBranchLine(line) then p.jumps + [NewJump(ArgumentsOf(line), LineId(snap, p.id)).value] else p.jumps
  }

  /** A passing instruction line adds its action under a fresh id; no other line touches the map. */
  predicate ActionsEffect(snap: Snapshot, p: Pass, q: Pass, line: string) {
    if IsInstructionLine(line) && Passes(snap, line) then
      LineId(snap, p.id) !in p.actions && q.actions == p.actions[LineId(snap, p.id) := ActionOf(snap, line)]
    else q.actions == p.actions
  }

  /** An instruction line parses and, where there is a checker, goes through it; other lines leave it alone. */
  predicate CheckerEffect(snap: Snapshot, p: Pass, q: Pass, lineNumber: nat, line: string) {
    if IsInstructionLine(line) then
      && ParseOperands(snap, ArgumentsOf(line)).Ok?
      && Signature(OpcodeOf(line)).Ok?
      && (TypeChecks(snap) ==>
            var verdict := FormatCheck(snap, p.checker, lineNumber, line, OpcodeOf(line), ParseOperands(snap, ArgumentsOf(line)).value);
            verdict.Ok? && q.checker == verdict.value.checker)
      && (!TypeChecks(snap) ==> q.checker == p.checker)
    else q.checker == p.checker
  }

  /** The action a passing instruction line denotes. */
  function ActionOf(snap: Snapshot, line: string): Instr
    requires IsInstructionLine(line) && Passes(snap, line)
  {
    var operands := ParseOperands(snap, ArgumentsOf(line)).value;
    ActionTableMatchesSignatures(OpcodeOf(line), operands);
    Action(OpcodeOf(line), operands).value
  }

  lemma LineEffectHolds(snap: Snapshot, p: Pass, lineNumber: nat, line: string)
    requires AssembleLine(snap, p, lineNumber, line).Ok?
    ensures LineEffect(snap, p, AssembleLine(snap, p, lineNumber, line).value, lineNumber, line)
  {
    if IsLabelLine(line) {
      LabelLineEffect(snap, p, lineNumber, line);
    } else if IsBranchLine(line) {
      BranchLineEffect(snap, p, lineNumber, line);
    } else {
      InstructionLineEffect(snap, p, lineNumber, line);
    }
  }

  lemma LabelLineEffect(snap: Snapshot, p: Pass, lineNumber: nat, line: string)
    requires AssembleLine(snap, p, lineNumber, line).Ok? && IsLabelLine(line)
    ensures LineEffect(snap, p, AssembleLine(snap, p, lineNumber, line).value, lineNumber, line)
  {
  }

  lemma BranchLineEffect(snap: Snapshot, p: Pass, lineNumber: nat, line: string)
    requires AssembleLine(snap, p, lineNumber, line).Ok? && IsBranchLine(line)
    ensures LineEffect(snap, p, AssembleLine(snap, p, lineNumber, line).value, lineNumber, line)
  {
  }

  lemma InstructionLineEffect(snap: Snapshot, p: Pass, lineNumber: nat, line: string)
    requires AssembleLine(snap, p, lineNumber, line).Ok? && !IsLabelLine(line) && !IsBranchLine(line)
    ensures LineEffect(snap, p, AssembleLine(snap, p, lineNumber, line).value, lineNumber, line)
  {
    var tokens := Tokenize(line);
    ActionTableMatchesSignatures(tokens[0], ParseOperands(snap, tokens[1..]).value);
    if Passes(snap, line) {
      PassingLineEffect(snap, p, lineNumber, line);
    } else {
      FailingLineEffect(snap, p, lineNumber, line);
    }
  }

  lemma PassingLineEffect(snap: Snapshot, p: Pass, lineNumber: nat, line: string)
    requires AssembleLine(snap, p, lineNumber, line).Ok? && IsInstructionLine(line) && Passes(snap, line)
    ensures LineEffect(snap, p, AssembleLine(snap, p, lineNumber, line).value, lineNumber, line)
  {
    var tokens := Tokenize(line);
    ActionTableMatchesSignatures(tokens[0], ParseOperands(snap, tokens[1..]).value);
  }

  lemma FailingLineEffect(snap: Snapshot, p: Pass, lineNumber: nat, line: string)
    requires AssembleLine(snap, p, lineNumber, line).Ok? && IsInstructionLine(line) && !Passes(snap, line)
    ensures LineEffect(snap, p, AssembleLine(snap, p, lineNumber, line).value, lineNumber, line)
  {
  }

  /** One assembled line is exactly one of the three kinds. */
  lemma LineKinds(line: string)
    requires |Tokenize(line)| > 0
    ensures IsLabelLine(line) || IsBranchLine(line) || IsInstructionLine(line)
    ensures !(IsLabelLine(line) && IsBranchLine(line))
  {
  }

  /** Assemble is one more line's effect on the result for the lines before it. */
  lemma AssembleStep(snap: Snapshot, c: Checker, lines: seq<string>)
    requires |lines| > 0 && Assemble(snap, c, lines).Ok?
    ensures Assemble(snap, c, lines[..|lines| - 1]).Ok?
    ensures LineEffect(snap, Assemble(snap, c, lines[..|lines| - 1]).value, Assemble(snap, c, lines).value, |lines| - 1, lines[|lines| - 1])
  {
    LineEffectHolds(snap, Assemble(snap, c, lines[..|lines| - 1]).value, |lines| - 1, lines[|lines| - 1]);
  }

  lemma IncrementWraps(n: nat)
    ensures IncrUInt32(n % TWO_32) == (n + 1) % TWO_32
  {
  }

  lemma LineIdOf(snap: Snapshot, n: nat)
    ensures LineId(snap, n % TWO_32) == IdOf(snap, n)
  {
    IncrementWraps(n);
    Wrap32IsMod(if PreIncrements(snap) then n + 1 else n);
  }

  /** After n lines the counter has been incremented n times, wrapping as a uint. */
  lemma {:induction false} AssembleCounter(snap: Snapshot, c: Checker, lines: seq<string>)
    requires Assemble(snap, c, lines).Ok?
    ensures Assemble(snap, c, lines).value.id == |lines| % TWO_32
  {
    if |lines| > 0 {
      var n := |lines| - 1;
      AssembleStep(snap, c, lines);
      AssembleCounter(snap, c, lines[..n]);
      IncrementWraps(n);
    }
  }

  /** `ids` lists the kept lines' ids in line order; label lines and rejected lines get none. */
  lemma {:induction false} AssembleIds(snap: Snapshot, c: Checker, lines: seq<string>)
    requires Assemble(snap, c, lines).Ok?
    ensures Assemble(snap, c, lines).value.ids == LinkedIds(snap, lines)
  {
    if |lines| > 0 {
      var n := |lines| - 1;
      AssembleStep(snap, c, lines);
      AssembleIds(snap, c, lines[..n]);
      AssembleCounter(snap, c, lines[..n]);
      LineKinds(lines[n]);
      LineIdOf(snap, n);
    }
  }

  /**
    * The label table maps each label to the id of its own declaration line, holds nothing
    * else, and no label is declared twice (a second declaration is an error).
    */
  predicate LabelsMatch(snap: Snapshot, lines: seq<string>, labels: map<string, uint32>) {
    LabelsRecorded(snap, lines, labels) && LabelsNamed(lines, labels) && LabelsDistinct(lines)
  }

  /** Each label line's name maps to that line's id. */
  predicate LabelsRecorded(snap: Snapshot, lines: seq<string>, labels: map<string, uint32>) {
    forall i :: 0 <= i < |lines| && IsLabelLine(lines[i]) ==>
      LabelOf(lines[i]) in labels && labels[LabelOf(lines[i])] == IdOf(snap, i)
  }

  /** Every recorded name comes from some label line. */
  predicate LabelsNamed(lines: seq<string>, labels: map<string, uint32>) {
    forall name :: name in labels ==> exists i :: 0 <= i < |lines| && IsLabelLine(lines[i]) && LabelOf(lines[i]) == name
  }

  /** No two label lines carry the same name. */
  predicate LabelsDistinct(lines: seq<string>) {
    forall i, j :: 0 <= i < j < |lines| && IsLabelLine(lines[i]) && IsLabelLine(lines[j]) ==>
      LabelOf(lines[i]) != LabelOf(lines[j])
  }

  lemma {:induction false} AssembleLabels(snap: Snapshot, c: Checker, lines: seq<string>)
    requires Assemble(snap, c, lines).Ok?
    ensures LabelsMatch(snap, lines, Assemble(snap, c, lines).value.labels)
  {
    if |lines| > 0 {
      var n := |lines| - 1;
      AssembleStep(snap, c, lines);
      AssembleLabels(snap, c, lines[..n]);
      AssembleCounter(snap, c, lines[..n]);
      LabelsStep(snap, Assemble(snap, c, lines[..n]).value, Assemble(snap, c, lines).value, lines);
    }
  }

  lemma LabelsStep(snap: Snapshot, p: Pass, q: Pass, lines: seq<string>)
    requires |lines| > 0 && p.id == (|lines| - 1) % TWO_32
    requires LabelsEffect(snap, p, q, lines[|lines| - 1])
    requires LabelsMatch(snap, lines[..|lines| - 1], p.labels)
    ensures LabelsMatch(snap, lines, q.labels)
  {
    var n := |lines| - 1;
    LineIdOf(snap, n);
    var next := if IsLabelLine(lines[n]) then p.labels[LabelOf(lines[n]) := IdOf(snap, n)] else p.labels;
    assert q.labels == next;
    LabelsRecordedStep(snap, lines, p.labels, next);
    LabelsNamedStep(lines, p.labels, next);
    LabelsDistinctStep(lines, p.labels);
  }

  lemma LabelsRecordedStep(snap: Snapshot, lines: seq<string>, labels: map<string, uint32>, next: map<string, uint32>)
    requires |lines| > 0
    requires IsLabelLine(lines[|lines| - 1]) ==> LabelOf(lines[|lines| - 1]) !in labels
    requires next == if IsLabelLine(lines[|lines| - 1]) then labels[LabelOf(lines[|lines| - 1]) := IdOf(snap, |lines| - 1)] else labels
    requires LabelsRecorded(snap, lines[..|lines| - 1], labels)
    ensures LabelsRecorded(snap, lines, next)
  {
    var n := |lines| - 1;
    var prefix := lines[..n];
    forall i | 0 <= i < |lines| && IsLabelLine(lines[i])
      ensures LabelOf(lines[i]) in next && next[LabelOf(lines[i])] == IdOf(snap, i)
    {
      if i < n {
        assert lines[i] == prefix[i];
        var name := LabelOf(prefix[i]);
        assert name in labels && labels[name] == IdOf(snap, i);
        if IsLabelLine(lines[n]) {
          assert name != LabelOf(lines[n]);
        }
      }
    }
  }

  lemma LabelsNamedStep(lines: seq<string>, labels: map<string, uint32>, next: map<string, uint32>)
    requires |lines| > 0
    requires next.Keys <= labels.Keys + (if IsLabelLine(lines[|lines| - 1]) then {LabelOf(lines[|lines| - 1])} else {})
    requires LabelsNamed(lines[..|lines| - 1], labels)
    ensures LabelsNamed(lines, next)
  {
    var n := |lines| - 1;
    var prefix := lines[..n];
    forall name | name in next
      ensures exists i :: 0 <= i < |lines| && IsLabelLine(lines[i]) && LabelOf(lines[i]) == name
    {
      if !(IsLabelLine(lines[n]) && name == LabelOf(lines[n])) {
        var i :| 0 <= i < n && IsLabelLine(prefix[i]) && LabelOf(prefix[i]) == name;
        assert lines[i] == prefix[i];
      }
    }
  }

  lemma LabelsDistinctStep(lines: seq<string>, labels: map<string, uint32>)
    requires |lines| > 0
    requires IsLabelLine(lines[|lines| - 1]) ==> LabelOf(lines[|lines| - 1]) !in labels
    requires forall i :: 0 <= i < |lines| - 1 && IsLabelLine(lines[i]) ==> LabelOf(lines[i]) in labels
    requires LabelsDistinct(lines[..|lines| - 1])
    ensures LabelsDistinct(lines)
  {
    var n := |lines| - 1;
    var prefix := lines[..n];
    forall i, j | 0 <= i < j < |lines| && IsLabelLine(lines[i]) && IsLabelLine(lines[j])
      ensures LabelOf(lines[i]) != LabelOf(lines[j])
    {
      if j == n {
        assert lines[i] == prefix[i];
        assert LabelOf(prefix[i]) in labels;
      } else {
        assert lines[i] == prefix[i] && lines[j] == prefix[j];
      }
    }
  }

  /** Every branch line's jump is well formed, and `jumps` lists them in line order. */
  predicate JumpsMatch(snap: Snapshot, lines: seq<string>, jumps: seq<Jump>) {
    && (forall i :: 0 <= i < |lines| && IsBranchLine(lines[i]) ==> NewJump(ArgumentsOf(lines[i]), IdOf(snap, i)).Ok?)
    && jumps == JumpsOf(snap, lines)
  }

  lemma {:induction false} AssembleJumps(snap: Snapshot, c: Checker, lines: seq<string>)
    requires Assemble(snap, c, lines).Ok?
    ensures JumpsMatch(snap, lines, Assemble(snap, c, lines).value.jumps)
  {
    if |lines| > 0 {
      var n := |lines| - 1;
      AssembleStep(snap, c, lines);
      AssembleJumps(snap, c, lines[..n]);
      AssembleCounter(snap, c, lines[..n]);
      JumpsStep(snap, Assemble(snap, c, lines[..n]).value, Assemble(snap, c, lines).value, lines);
    }
  }

  lemma JumpsStep(snap: Snapshot, p: Pass, q: Pass, lines: seq<string>)
    requires |lines| > 0 && p.id == (|lines| - 1) % TWO_32
    requires JumpsEffect(snap, p, q, lines[|lines| - 1])
    requires JumpsMatch(snap, lines[..|lines| - 1], p.jumps)
    ensures JumpsMatch(snap, lines, q.jumps)
  {
    var n := |lines| - 1;
    var prefix := lines[..n];
    LineIdOf(snap, n);
    forall i | 0 <= i < |lines| && IsBranchLine(lines[i]) ensures NewJump(ArgumentsOf(lines[i]), IdOf(snap, i)).Ok? {
      if i < n {
        assert lines[i] == prefix[i];
      }
    }
  }

  /**
    * The success flag after the loop: untouched without a checker; in the checked snapshots
    * as written it survives only a program with no instruction line at all; corrected, it
    * survives iff every instruction line is accepted.
    */
  lemma {:induction false} AssembleSuccess(snap: Snapshot, c: Checker, lines: seq<string>)
    requires Assemble(snap, c, lines).Ok?
    ensures Assemble(snap, c, lines).value.checker.success == ExpectedSuccess(snap, c, lines)
    ensures !TypeChecks(snap) ==> Assemble(snap, c, lines).value.checker == c
  {
    if |lines| > 0 {
      var n := |lines| - 1;
      AssembleStep(snap, c, lines);
      AssembleSuccess(snap, c, lines[..n]);
      SuccessStep(snap, c, Assemble(snap, c, lines[..n]).value, Assemble(snap, c, lines).value, lines);
    }
  }

  lemma SuccessStep(snap: Snapshot, c: Checker, p: Pass, q: Pass, lines: seq<string>)
    requires |lines| > 0
    requires |Tokenize(lines[|lines| - 1])| > 0
    requires CheckerEffect(snap, p, q, |lines| - 1, lines[|lines| - 1])
    requires p.checker.success == ExpectedSuccess(snap, c, lines[..|lines| - 1])
    requires !TypeChecks(snap) ==> p.checker == c
    ensures q.checker.success == ExpectedSuccess(snap, c, lines)
    ensures !TypeChecks(snap) ==> q.checker == c
  {
    var n := |lines| - 1;
    var prefix := lines[..n];
    var line := lines[n];
    LineKinds(line);
    forall i | 0 <= i < n ensures lines[i] == prefix[i] {
    }
    if IsInstructionLine(line) && TypeChecks(snap) {
      var operands := ParseOperands(snap, ArgumentsOf(line)).value;
      var v := FormatCheck(snap, p.checker, n, line, OpcodeOf(line), operands).value;
      assert v.accepted == Passes(snap, line);
      assert q.checker.success == (SuccessSurvivesAcceptance(snap) && p.checker.success && Passes(snap, line));
      if !SuccessSurvivesAcceptance(snap) {
        assert !ExpectedSuccess(snap, c, lines) by {
          assert IsInstructionLine(lines[n]);
        }
      }
    }
  }

  /** Reference for `actionIDs`: each passing instruction line's id mapped to its action, in line order. */
  function ExpectedActions(snap: Snapshot, lines: seq<string>): map<uint32, Instr> {
    if |lines| == 0 then map[]
    else
      var n := |lines| - 1;
      var line := lines[n];
      if IsInstructionLine(line) && Passes(snap, line) then ExpectedActions(snap, lines[..n])[IdOf(snap, n) := ActionOf(snap, line)]
      else ExpectedActions(snap, lines[..n])
  }

  /** `actionIDs` after the loop is the reference map. */
  lemma {:induction false} AssembleActions(snap: Snapshot, c: Checker, lines: seq<string>)
    requires Assemble(snap, c, lines).Ok?
    ensures Assemble(snap, c, lines).value.actions == ExpectedActions(snap, lines)
  {
    if |lines| > 0 {
      var n := |lines| - 1;
      AssembleStep(snap, c, lines);
      AssembleActions(snap, c, lines[..n]);
      AssembleCounter(snap, c, lines[..n]);
      LineIdOf(snap, n);
    }
  }

  /** Only passing instruction lines' ids are in the map. */
  lemma {:induction false} ExpectedActionsOnly(snap: Snapshot, lines: seq<string>, id: uint32)
    requires id in ExpectedActions(snap, lines)
    ensures exists i :: 0 <= i < |lines| && IsInstructionLine(lines[i]) && Passes(snap, lines[i]) && IdOf(snap, i) == id
  {
    var n := |lines| - 1;
    var line := lines[n];
    if !(IsInstructionLine(line) && Passes(snap, line) && id == IdOf(snap, n)) {
      ExpectedActionsOnly(snap, lines[..n], id);
      var i :| 0 <= i < n && IsInstructionLine(lines[..n][i]) && Passes(snap, lines[..n][i]) && IdOf(snap, i) == id;
      assert lines[..n][i] == lines[i];
    }
  }

  /** Ids below 2^32 - 1 lines do not wrap, so distinct lines get distinct ids. */
  lemma IdsDistinct(snap: Snapshot, i: nat, j: nat)
    requires i < j < TWO_32 - 1
    ensures IdOf(snap, i) != IdOf(snap, j)
  {
  }

  /** With fewer than 2^32 - 1 lines, every passing instruction line's action is in the map under its id. */
  lemma {:induction false} ExpectedActionsFound(snap: Snapshot, lines: seq<string>, i: nat)
    requires |lines| < TWO_32 - 1
    requires i < |lines| && IsInstructionLine(lines[i]) && Passes(snap, lines[i])
    ensures IdOf(snap, i) in ExpectedActions(snap, lines)
    ensures ExpectedActions(snap, lines)[IdOf(snap, i)] == ActionOf(snap, lines[i])
  {
    var n := |lines| - 1;
    if i < n {
      assert lines[..n][i] == lines[i];
      ExpectedActionsFound(snap, lines[..n], i);
      IdsDistinct(snap, i, n);
      ExpectedActionsKeep(snap, lines, IdOf(snap, i));
    } else {
      ExpectedActionsLast(snap, lines);
    }
  }

  /** A later line leaves the entries of other ids alone. */
  lemma ExpectedActionsKeep(snap: Snapshot, lines: seq<string>, id: uint32)
    requires |lines| > 0
    requires id in ExpectedActions(snap, lines[..|lines| - 1]) && id != IdOf(snap, |lines| - 1)
    ensures id in ExpectedActions(snap, lines)
    ensures ExpectedActions(snap, lines)[id] == ExpectedActions(snap, lines[..|lines| - 1])[id]
  {
  }

  /** A passing last line is in the map under its own id. */
  lemma ExpectedActionsLast(snap: Snapshot, lines: seq<string>)
    requires |lines| > 0
    requires IsInstructionLine(lines[|lines| - 1]) && Passes(snap, lines[|lines| - 1])
    ensures IdOf(snap, |lines| - 1) in ExpectedActions(snap, lines)
    ensures ExpectedActions(snap, lines)[IdOf(snap, |lines| - 1)] == ActionOf(snap, lines[|lines| - 1])
  {
  }
}
