/**
  * Where each line ends up in the linked program: slot 0 is the no-op, and the kept lines
  * (branches and passing instructions) fill the following slots in line order, so a kept
  * line's slot is one more than the number of kept lines before it.
  */
module ProgramLayout {
  import opened Results
  import opened Numbers
  import opened Snapshots
  import opened TypeChecker
  import opened Instructions
  import opened Assembler
  import opened AssemblerProofs

  /** When every id has an action or a jump, the linker loop fills one slot per id, in order. */
  lemma {:induction false} SlotsFilled(ids: seq<uint32>, actions: map<uint32, Instr>, jumps: map<uint32, Instr>)
    requires forall k :: 0 <= k < |ids| ==> ids[k] in actions || ids[k] in jumps
    ensures |Slots(ids, actions, jumps)| == |ids|
    ensures forall k :: 0 <= k < |ids| ==>
      Slots(ids, actions, jumps)[k] == if ids[k] in actions then actions[ids[k]] else jumps[ids[k]]
  {
    if |ids| > 0 {
      var n := |ids| - 1;
      assert forall k :: 0 <= k < n ==> ids[..n][k] == ids[k];
      SlotsFilled(ids[..n], actions, jumps);
    }
  }

  /** Every id with no action has a pending jump, so the resolved dictionary has it. */
  predicate Covered(ids: seq<uint32>, actions: map<uint32, Instr>, jumps: seq<Jump>) {
    forall k :: 0 <= k < |ids| ==> ids[k] in actions || exists m :: 0 <= m < |jumps| && jumps[m].id == ids[k]
  }

  lemma ResolvedCovers(snap: Snapshot, ids: seq<uint32>, actions: map<uint32, Instr>, jumps: seq<Jump>, labels: map<string, uint32>)
    requires ResolveJumps(snap, ids, jumps, labels).Ok? && Covered(ids, actions, jumps)
    ensures forall k :: 0 <= k < |ids| ==> ids[k] in actions || ids[k] in ResolveJumps(snap, ids, jumps, labels).value
  {
    ResolveJumpsContents(snap, ids, jumps, labels);
  }

  /** The linked array is the no-op followed by one filled slot per id. */
  lemma LinkerFilled(snap: Snapshot, ids: seq<uint32>, actions: map<uint32, Instr>, jumps: seq<Jump>, labels: map<string, uint32>)
    requires Linker(snap, ids, actions, jumps, labels).Ok? && Covered(ids, actions, jumps)
    ensures Linker(snap, ids, actions, jumps, labels).value
      == [Wait] + Slots(ids, actions, ResolveJumps(snap, ids, jumps, labels).value)
  {
    var resolved := ResolveJumps(snap, ids, jumps, labels).value;
    ResolvedCovers(snap, ids, actions, jumps, labels);
    SlotsFilled(ids, actions, resolved);
  }

  /** Slot k + 1 of the linked array holds the action of id k when there is one. */
  lemma LinkerActionSlot(snap: Snapshot, ids: seq<uint32>, actions: map<uint32, Instr>, jumps: seq<Jump>, labels: map<string, uint32>, k: nat)
    requires Linker(snap, ids, actions, jumps, labels).Ok? && Covered(ids, actions, jumps)
    requires k < |ids| && ids[k] in actions
    ensures Linker(snap, ids, actions, jumps, labels).value[k + 1] == actions[ids[k]]
  {
    var resolved := ResolveJumps(snap, ids, jumps, labels).value;
    LinkerFilled(snap, ids, actions, jumps, labels);
    ResolvedCovers(snap, ids, actions, jumps, labels);
    SlotsFilled(ids, actions, resolved);
  }

  /** Otherwise it holds the resolved branch of the jump recorded under that id. */
  lemma LinkerJumpSlot(snap: Snapshot, ids: seq<uint32>, actions: map<uint32, Instr>, jumps: seq<Jump>, labels: map<string, uint32>, k: nat, m: nat)
    requires Linker(snap, ids, actions, jumps, labels).Ok? && Covered(ids, actions, jumps)
    requires k < |ids| && ids[k] !in actions && m < |jumps| && jumps[m].id == ids[k]
    ensures jumps[m].target in labels
    ensures Linker(snap, ids, actions, jumps, labels).value[k + 1]
      == Branch(jumps[m].condition, Destination(snap, ids, labels[jumps[m].target]))
  {
    var resolved := ResolveJumps(snap, ids, jumps, labels).value;
    LinkerFilled(snap, ids, actions, jumps, labels);
    ResolvedCovers(snap, ids, actions, jumps, labels);
    SlotsFilled(ids, actions, resolved);
    ResolveJumpsContents(snap, ids, jumps, labels);
  }

  /** The kept lines' ids before line m are a prefix of all kept lines' ids. */
  lemma {:induction false} LinkedIdsPrefix(snap: Snapshot, lines: seq<string>, m: nat)
    requires m <= |lines|
    ensures LinkedIds(snap, lines[..m]) <= LinkedIds(snap, lines)
  {
    if m < |lines| {
      var n := |lines| - 1;
      assert lines[..n][..m] == lines[..m];
      LinkedIdsPrefix(snap, lines[..n], m);
    } else {
      assert lines[..m] == lines;
    }
  }

  /** The kept lines' ids up to and including line i. */
  lemma LinkedIdsSnoc(snap: Snapshot, lines: seq<string>, i: nat)
    requires i < |lines|
    ensures LinkedIds(snap, lines[..i + 1]) == LinkedIds(snap, lines[..i]) + (if Kept(snap, lines[i]) then [IdOf(snap, i)] else [])
  {
    assert lines[..i + 1][..i] == lines[..i];
    assert lines[..i + 1][i] == lines[i];
  }

  /** A kept line's id sits in `ids` right after the ids of the kept lines before it. */
  lemma LinkedIdAt(snap: Snapshot, lines: seq<string>, i: nat)
    requires i < |lines| && Kept(snap, lines[i])
    ensures |LinkedIds(snap, lines[..i])| < |LinkedIds(snap, lines)|
    ensures LinkedIds(snap, lines)[|LinkedIds(snap, lines[..i])|] == IdOf(snap, i)
  {
    LinkedIdsSnoc(snap, lines, i);
    LinkedIdsPrefix(snap, lines, i + 1);
  }

  /** Every id in `ids` belongs to a kept line. */
  lemma {:induction false} LinkedIdsAreKept(snap: Snapshot, lines: seq<string>, k: nat)
    requires k < |LinkedIds(snap, lines)|
    ensures exists i :: 0 <= i < |lines| && Kept(snap, lines[i]) && LinkedIds(snap, lines)[k] == IdOf(snap, i)
  {
    var n := |lines| - 1;
    var before := LinkedIds(snap, lines[..n]);
    if k < |before| {
      LinkedIdsAreKept(snap, lines[..n], k);
      var i :| 0 <= i < n && Kept(snap, lines[..n][i]) && before[k] == IdOf(snap, i);
      assert lines[..n][i] == lines[i];
    } else {
      assert LinkedIds(snap, lines)[k] == IdOf(snap, n);
    }
  }

  /** The jumps of the lines before line m are a prefix of all the jumps. */
  lemma {:induction false} JumpsOfPrefix(snap: Snapshot, lines: seq<string>, m: nat)
    requires m <= |lines|
    ensures JumpsOf(snap, lines[..m]) <= JumpsOf(snap, lines)
  {
    if m < |lines| {
      var n := |lines| - 1;
      assert lines[..n][..m] == lines[..m];
      JumpsOfPrefix(snap, lines[..n], m);
      JumpsOfExtends(snap, lines);
    } else {
      assert lines[..m] == lines;
    }
  }

  /** One more line only appends to the jumps. */
  lemma JumpsOfExtends(snap: Snapshot, lines: seq<string>)
    requires |lines| > 0
    ensures JumpsOf(snap, lines[..|lines| - 1]) <= JumpsOf(snap, lines)
  {
  }

  /** A branch line's jump sits in the list right after the jumps of the lines before it. */
  lemma JumpAt(snap: Snapshot, lines: seq<string>, i: nat)
    requires i < |lines| && IsBranchLine(lines[i]) && NewJump(ArgumentsOf(lines[i]), IdOf(snap, i)).Ok?
    ensures |JumpsOf(snap, lines[..i])| < |JumpsOf(snap, lines)|
    ensures JumpsOf(snap, lines)[|JumpsOf(snap, lines[..i])|] == NewJump(ArgumentsOf(lines[i]), IdOf(snap, i)).value
  {
    JumpsOfSnoc(snap, lines, i);
    JumpsOfPrefix(snap, lines, i + 1);
  }

  /** A well-formed branch line appends its jump to those of the lines before it. */
  lemma JumpsOfSnoc(snap: Snapshot, lines: seq<string>, i: nat)
    requires i < |lines| && IsBranchLine(lines[i]) && NewJump(ArgumentsOf(lines[i]), IdOf(snap, i)).Ok?
    ensures JumpsOf(snap, lines[..i + 1]) == JumpsOf(snap, lines[..i]) + [NewJump(ArgumentsOf(lines[i]), IdOf(snap, i)).value]
  {
    assert lines[..i + 1][..i] == lines[..i];
    assert lines[..i + 1][i] == lines[i];
  }

  /** The slot a kept line i is linked into: one past the kept lines before it. */
  function SlotOf(snap: Snapshot, lines: seq<string>, i: nat): nat
    requires i <= |lines|
  {
    |LinkedIds(snap, lines[..i])| + 1
  }

  /** The linked program Parse returns. */
  function Program(snap: Snapshot, c: Checker, source: seq<string>): seq<Instr>
    requires Parse(snap, c, source).Ok? && Parse(snap, c, source).value.commands.Some?
  {
    Parse(snap, c, source).value.commands.value
  }

  /** What the loop leaves behind, in terms of the lines alone. */
  predicate Assembled(snap: Snapshot, lines: seq<string>, p: Pass) {
    && p.ids == LinkedIds(snap, lines)
    && p.actions == ExpectedActions(snap, lines)
    && JumpsMatch(snap, lines, p.jumps)
    && LabelsMatch(snap, lines, p.labels)
  }

  /** Parse links exactly what the loop assembled from the preprocessed lines. */
  lemma ParseLinks(snap: Snapshot, c: Checker, source: seq<string>)
    requires Parse(snap, c, source).Ok? && Parse(snap, c, source).value.commands.Some?
    ensures var lines := PreProcess(source);
      && Assemble(snap, c, lines).Ok?
      && var p := Assemble(snap, c, lines).value;
      && Assembled(snap, lines, p)
      && Linker(snap, p.ids, p.actions, p.jumps, p.labels).Ok?
      && Program(snap, c, source) == Linker(snap, p.ids, p.actions, p.jumps, p.labels).value
  {
    var lines := PreProcess(source);
    AssembleIds(snap, c, lines);
    AssembleActions(snap, c, lines);
    AssembleJumps(snap, c, lines);
    AssembleLabels(snap, c, lines);
  }

  /** Every id in `ids` has an action or a pending jump. */
  lemma IdsCovered(snap: Snapshot, lines: seq<string>, p: Pass)
    requires Assembled(snap, lines, p)
    requires |lines| < TWO_32 - 1
    ensures Covered(p.ids, p.actions, p.jumps)
  {
    forall k | 0 <= k < |p.ids|
      ensures p.ids[k] in p.actions || exists m :: 0 <= m < |p.jumps| && p.jumps[m].id == p.ids[k]
    {
      LinkedIdsAreKept(snap, lines, k);
      var i :| 0 <= i < |lines| && Kept(snap, lines[i]) && p.ids[k] == IdOf(snap, i);
      if IsBranchLine(lines[i]) {
        JumpAt(snap, lines, i);
      } else {
        ExpectedActionsFound(snap, lines, i);
      }
    }
  }

  /** In the linked array, a passing instruction line's action is in its slot. */
  lemma LinkedInstruction(snap: Snapshot, lines: seq<string>, p: Pass, i: nat)
    requires Assembled(snap, lines, p) && Linker(snap, p.ids, p.actions, p.jumps, p.labels).Ok?
    requires |lines| < TWO_32 - 1
    requires i < |lines| && IsInstructionLine(lines[i]) && Passes(snap, lines[i])
    ensures SlotOf(snap, lines, i) < |Linker(snap, p.ids, p.actions, p.jumps, p.labels).value|
    ensures Linker(snap, p.ids, p.actions, p.jumps, p.labels).value[SlotOf(snap, lines, i)] == ActionOf(snap, lines[i])
  {
    IdsCovered(snap, lines, p);
    LinkedIdAt(snap, lines, i);
    ExpectedActionsFound(snap, lines, i);
    LinkerActionSlot(snap, p.ids, p.actions, p.jumps, p.labels, SlotOf(snap, lines, i) - 1);
  }

  /** A passing instruction line's action is in its slot of the program Parse returns. */
  lemma InstructionSlot(snap: Snapshot, c: Checker, source: seq<string>, i: nat)
    requires Parse(snap, c, source).Ok? && Parse(snap, c, source).value.commands.Some?
    requires |PreProcess(source)| < TWO_32 - 1
    requires i < |PreProcess(source)| && IsInstructionLine(PreProcess(source)[i]) && Passes(snap, PreProcess(source)[i])
    ensures SlotOf(snap, PreProcess(source), i) < |Program(snap, c, source)|
    ensures Program(snap, c, source)[SlotOf(snap, PreProcess(source), i)] == ActionOf(snap, PreProcess(source)[i])
  {
    ParseLinks(snap, c, source);
    LinkedInstruction(snap, PreProcess(source), Assemble(snap, c, PreProcess(source)).value, i);
  }

  /** A branch line's id is not an instruction line's, so its slot is not taken by an action. */
  lemma BranchHasNoAction(snap: Snapshot, lines: seq<string>, i: nat)
    requires |lines| < TWO_32 - 1
    requires i < |lines| && IsBranchLine(lines[i])
    ensures IdOf(snap, i) !in ExpectedActions(snap, lines)
  {
    if IdOf(snap, i) in ExpectedActions(snap, lines) {
      ExpectedActionsOnly(snap, lines, IdOf(snap, i));
      var j :| 0 <= j < |lines| && IsInstructionLine(lines[j]) && Passes(snap, lines[j]) && IdOf(snap, j) == IdOf(snap, i);
      IdOfInjective(snap, i, j);
      assert false;
    }
  }

  /** Without wrap-around, a line id names one line. */
  lemma IdOfInjective(snap: Snapshot, i: nat, j: nat)
    requires i < TWO_32 - 1 && j < TWO_32 - 1 && IdOf(snap, i) == IdOf(snap, j)
    ensures i == j
  {
  }

  /** The jump a branch line records. */
  function JumpOf(snap: Snapshot, lines: seq<string>, i: nat): Jump
    requires i < |lines| && IsBranchLine(lines[i])
    requires NewJump(ArgumentsOf(lines[i]), IdOf(snap, i)).Ok?
  {
    NewJump(ArgumentsOf(lines[i]), IdOf(snap, i)).value
  }

  /** The destination a branch to the label declared on line j is linked with. */
  function DestinationOf(snap: Snapshot, lines: seq<string>, j: nat): uint32 {
    Destination(snap, LinkedIds(snap, lines), IdOf(snap, j))
  }

  /** In the linked array, a branch line's slot branches to the destination of its label's line. */
  lemma LinkedBranch(snap: Snapshot, lines: seq<string>, p: Pass, i: nat) returns (j: nat)
    requires Assembled(snap, lines, p) && Linker(snap, p.ids, p.actions, p.jumps, p.labels).Ok?
    requires |lines| < TWO_32 - 1
    requires i < |lines| && IsBranchLine(lines[i])
    ensures NewJump(ArgumentsOf(lines[i]), IdOf(snap, i)).Ok?
    ensures SlotOf(snap, lines, i) < |Linker(snap, p.ids, p.actions, p.jumps, p.labels).value|
    ensures j < |lines| && IsLabelLine(lines[j]) && LabelOf(lines[j]) == JumpOf(snap, lines, i).target
    ensures Linker(snap, p.ids, p.actions, p.jumps, p.labels).value[SlotOf(snap, lines, i)]
      == Branch(JumpOf(snap, lines, i).condition, DestinationOf(snap, lines, j))
  {
    IdsCovered(snap, lines, p);
    LinkedIdAt(snap, lines, i);
    BranchHasNoAction(snap, lines, i);
    JumpAt(snap, lines, i);
    var jump := JumpOf(snap, lines, i);
    var m := |JumpsOf(snap, lines[..i])|;
    var k := SlotOf(snap, lines, i) - 1;
    assert p.ids[k] == jump.id && p.jumps[m] == jump;
    LinkerJumpSlot(snap, p.ids, p.actions, p.jumps, p.labels, k, m);
    j := LabelLine(snap, lines, p.labels, jump.target);
    assert Destination(snap, p.ids, p.labels[jump.target]) == DestinationOf(snap, lines, j);
  }

  /** A recorded label name is declared by a label line whose id it maps to. */
  lemma LabelLine(snap: Snapshot, lines: seq<string>, labels: map<string, uint32>, name: string) returns (j: nat)
    requires LabelsMatch(snap, lines, labels) && name in labels
    ensures j < |lines| && IsLabelLine(lines[j]) && LabelOf(lines[j]) == name && labels[name] == IdOf(snap, j)
  {
    j :| 0 <= j < |lines| && IsLabelLine(lines[j]) && LabelOf(lines[j]) == name;
  }

  /**
    * A branch line's slot in the program Parse returns holds a branch, under the line's
    * condition, to the destination of the line that declares its label.
    */
  lemma BranchSlot(snap: Snapshot, c: Checker, source: seq<string>, i: nat) returns (j: nat)
    requires Parse(snap, c, source).Ok? && Parse(snap, c, source).value.commands.Some?
    requires |PreProcess(source)| < TWO_32 - 1
    requires i < |PreProcess(source)| && IsBranchLine(PreProcess(source)[i])
    ensures var lines := PreProcess(source);
      && NewJump(ArgumentsOf(lines[i]), IdOf(snap, i)).Ok?
      && SlotOf(snap, lines, i) < |Program(snap, c, source)|
      && j < |lines| && IsLabelLine(lines[j]) && LabelOf(lines[j]) == JumpOf(snap, lines, i).target
      && Program(snap, c, source)[SlotOf(snap, lines, i)] == Branch(JumpOf(snap, lines, i).condition, DestinationOf(snap, lines, j))
  {
    ParseLinks(snap, c, source);
    j := LinkedBranch(snap, PreProcess(source), Assemble(snap, c, PreProcess(source)).value, i);
  }

  /** With a checker, Parse returns a program exactly when the success flag the loop leaves behind holds. */
  lemma ParseReturnsProgram(snap: Snapshot, c: Checker, source: seq<string>)
    requires TypeChecks(snap) && Parse(snap, c, source).Ok?
    ensures Parse(snap, c, source).value.commands.Some? <==> ExpectedSuccess(snap, c, PreProcess(source))
  {
    var lines := PreProcess(source);
    var p := Assemble(snap, c, lines).value;
    assert Parse(snap, c, source).value.commands.Some? <==> p.checker.success;
    AssembleSuccess(snap, c, lines);
  }

  /**
    * As written, the checked snapshots return a program only when the incoming flag holds and
    * no line is an instruction: one ADD, accepted or not, makes Parse return null.
    */
  lemma ParseVoidsInstructions(snap: Snapshot, c: Checker, source: seq<string>)
    requires snap == Current || snap == SingleFile
    requires Parse(snap, c, source).Ok?
    ensures var lines := PreProcess(source);
      Parse(snap, c, source).value.commands.Some? <==>
        c.success && forall i :: 0 <= i < |lines| ==> !IsInstructionLine(lines[i])
  {
    ParseReturnsProgram(snap, c, source);
  }

  /** Corrected, Parse returns a program iff the incoming flag holds and every instruction line is accepted. */
  lemma CorrectedParseReturnsProgram(c: Checker, source: seq<string>)
    requires Parse(Corrected, c, source).Ok?
    ensures var lines := PreProcess(source);
      Parse(Corrected, c, source).value.commands.Some? <==>
        c.success && forall i :: 0 <= i < |lines| && IsInstructionLine(lines[i]) ==> Passes(Corrected, lines[i])
  {
    ParseReturnsProgram(Corrected, c, source);
  }

  /** Appending one id adds one to the count below x iff that id is below x. */
  lemma CountBelowSnoc(ids: seq<uint32>, y: uint32, x: uint32)
    ensures CountBelow(ids + [y], x) == CountBelow(ids, x) + (if y < x then 1 else 0)
  {
    assert (ids + [y])[..|ids|] == ids;
  }

  /** When every id lies below x, all of them are counted. */
  lemma {:induction false} CountBelowAll(ids: seq<uint32>, x: uint32)
    requires forall k :: 0 <= k < |ids| ==> ids[k] < x
    ensures CountBelow(ids, x) == |ids|
  {
    if |ids| > 0 {
      CountBelowAll(ids[..|ids| - 1], x);
    }
  }

  /** The kept lines before line m all have smaller ids than line m. */
  lemma LinkedIdsBelow(snap: Snapshot, lines: seq<string>, m: nat)
    requires m < TWO_32 - 1 && m <= |lines|
    ensures forall k :: 0 <= k < |LinkedIds(snap, lines[..m])| ==> LinkedIds(snap, lines[..m])[k] < IdOf(snap, m)
  {
    forall k | 0 <= k < |LinkedIds(snap, lines[..m])|
      ensures LinkedIds(snap, lines[..m])[k] < IdOf(snap, m)
    {
      LinkedIdsAreKept(snap, lines[..m], k);
      var i :| 0 <= i < m && Kept(snap, lines[..m][i]) && LinkedIds(snap, lines[..m])[k] == IdOf(snap, i);
      IdOfBelow(snap, i, m);
    }
  }

  /** Among all linked ids, exactly the kept lines before line j have ids below line j's. */
  lemma {:induction false} CountBelowLinked(snap: Snapshot, lines: seq<string>, j: nat)
    requires j < |lines| < TWO_32 - 1
    ensures CountBelow(LinkedIds(snap, lines), IdOf(snap, j)) == |LinkedIds(snap, lines[..j])|
  {
    var n := |lines| - 1;
    if j == n {
      CountBelowLast(snap, lines);
    } else {
      var tail := LinkedIdsTail(snap, lines);
      IdOfBelow(snap, j, n);
      CountBelowAbove(LinkedIds(snap, lines[..n]), tail, IdOf(snap, j));
      CountBelowLinked(snap, lines[..n], j);
      assert lines[..n][..j] == lines[..j];
    }
  }

  /** The last line's id counts every kept line before it. */
  lemma CountBelowLast(snap: Snapshot, lines: seq<string>)
    requires 0 < |lines| < TWO_32 - 1
    ensures CountBelow(LinkedIds(snap, lines), IdOf(snap, |lines| - 1)) == |LinkedIds(snap, lines[..|lines| - 1])|
  {
    var n := |lines| - 1;
    var tail := LinkedIdsTail(snap, lines);
    LinkedIdsBelow(snap, lines, n);
    CountBelowAll(LinkedIds(snap, lines[..n]), IdOf(snap, n));
    CountBelowAbove(LinkedIds(snap, lines[..n]), tail, IdOf(snap, n));
  }

  /** All the kept ids are those before the last line, then at most the last line's. */
  lemma LinkedIdsTail(snap: Snapshot, lines: seq<string>) returns (tail: seq<uint32>)
    requires 0 < |lines|
    ensures LinkedIds(snap, lines) == LinkedIds(snap, lines[..|lines| - 1]) + tail
    ensures |tail| <= 1 && forall k :: 0 <= k < |tail| ==> tail[k] == IdOf(snap, |lines| - 1)
  {
    var n := |lines| - 1;
    tail := if Kept(snap, lines[n]) then [IdOf(snap, n)] else [];
  }

  /** Ids at or above x add nothing to the count below x. */
  lemma CountBelowAbove(ids: seq<uint32>, tail: seq<uint32>, x: uint32)
    requires |tail| <= 1 && forall k :: 0 <= k < |tail| ==> tail[k] >= x
    ensures CountBelow(ids + tail, x) == CountBelow(ids, x)
  {
    if |tail| == 1 {
      CountBelowSnoc(ids, tail[0], x);
      assert ids + tail == ids + [tail[0]];
    } else {
      assert ids + tail == ids;
    }
  }

  /** Without wrap-around, ids grow with the line number. */
  lemma IdOfBelow(snap: Snapshot, i: nat, m: nat)
    requires i < m < TWO_32 - 1
    ensures IdOf(snap, i) < IdOf(snap, m)
  {
  }

  /**
    * Corrected: a branch to a label sets the PC to the slot just before the first kept line
    * after the label, so the loop's increment lands on that line.
    */
  lemma CorrectedDestination(lines: seq<string>, j: nat)
    requires j < |lines| < TWO_32 - 1
    ensures DestinationOf(Corrected, lines, j) + 1 == SlotOf(Corrected, lines, j)
  {
    CountBelowLinked(Corrected, lines, j);
    LinkedIdsPrefix(Corrected, lines, j);
  }

  /**
    * As written: a branch to a label sets the PC to the label's 1-based line number, which is
    * never below the slot of the first kept line after the label, so the loop's increment
    * always steps past that slot.
    */
  lemma DestinationOvershoots(snap: Snapshot, lines: seq<string>, j: nat)
    requires snap == Current || snap == SingleFile
    requires j < |lines| < TWO_32 - 1
    ensures DestinationOf(snap, lines, j) == j + 1
    ensures DestinationOf(snap, lines, j) >= SlotOf(snap, lines, j)
  {
  }

  /** The kept lines are all the lines iff no line is dropped. */
  lemma {:induction false} LinkedIdsComplete(snap: Snapshot, lines: seq<string>)
    ensures |LinkedIds(snap, lines)| == |lines| <==> AllKept(snap, lines)
  {
    if |lines| > 0 {
      var n := |lines| - 1;
      LinkedIdsCount(snap, lines);
      LinkedIdsComplete(snap, lines[..n]);
      AllKeptSplit(snap, lines);
    }
  }

  /** Every line is kept. */
  predicate AllKept(snap: Snapshot, lines: seq<string>) {
    forall i :: 0 <= i < |lines| ==> Kept(snap, lines[i])
  }

  /** The last line adds one kept id iff it is kept. */
  lemma LinkedIdsCount(snap: Snapshot, lines: seq<string>)
    requires 0 < |lines|
    ensures |LinkedIds(snap, lines)| == |LinkedIds(snap, lines[..|lines| - 1])| + (if Kept(snap, lines[|lines| - 1]) then 1 else 0)
  {
  }

  /** Every line is kept iff every line before the last is, and the last is. */
  lemma AllKeptSplit(snap: Snapshot, lines: seq<string>)
    requires 0 < |lines|
    ensures AllKept(snap, lines) <==> AllKept(snap, lines[..|lines| - 1]) && Kept(snap, lines[|lines| - 1])
  {
    var n := |lines| - 1;
    assert forall i :: 0 <= i < n ==> lines[..n][i] == lines[i];
  }

  /**
    * Earliest: 0-based ids make a branch land on the first kept line after its label exactly
    * when every line before the label is kept, which a label line before it already breaks.
    */
  lemma EarliestDestination(lines: seq<string>, j: nat)
    requires j < |lines| < TWO_32 - 1
    ensures DestinationOf(Earliest, lines, j) + 1 == SlotOf(Earliest, lines, j) <==>
      AllKept(Earliest, lines[..j])
  {
    LinkedIdsComplete(Earliest, lines[..j]);
  }
}
