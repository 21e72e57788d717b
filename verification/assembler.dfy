/**
  * The assembler: drop blank lines, walk the lines once recording labels, pending jumps and
  * checked actions against a running line id, then link everything into a dense array whose
  * slot 0 is a no-op.
  */
module Assembler {
  import opened Results
  import opened Numbers
  import opened Text
  import opened Tokenizer
  import opened Operands
  import opened TypeChecker
  import opened Snapshots
  import opened Instructions
  import Machine

  /** PreProcess: keep the lines that are not null, empty or white space only, in order. */
  function PreProcess(source: seq<string>): (r: seq<string>)
    ensures |r| <= |source|
    ensures forall i :: 0 <= i < |r| ==> !IsNullOrWhiteSpace(r[i])
    ensures forall i :: 0 <= i < |source| && !IsNullOrWhiteSpace(source[i]) ==> source[i] in r
    ensures forall i :: 0 <= i < |r| ==> r[i] in source
  {
    if |source| == 0 then []
    else
      var last := source[|source| - 1];
      PreProcess(source[..|source| - 1]) + (if IsNullOrWhiteSpace(last) then [] else [last])
  }

  /** The condition a branch's first argument names, NULL for anything else. */
  function ConditionOf(token: string): (c: Machine.Cmp)
    ensures token == "EQ" <==> c == Machine.EQ
    ensures token == "NE" <==> c == Machine.NE
    ensures token == "GT" <==> c == Machine.GT
    ensures token == "LT" <==> c == Machine.LT
  {
    if token == "EQ" then Machine.EQ
    else if token == "NE" then Machine.NE
    else if token == "GT" then Machine.GT
    else if token == "LT" then Machine.LT
    else Machine.NULL
  }

  /** struct Jump: a pending branch, its condition, target label and line id. */
  datatype Jump = Jump(condition: Machine.Cmp, target: string, id: uint32)

  /** The condition keywords a branch may start with. */
  const CONDITIONS: set<string> := {"EQ", "NE", "GT", "LT"}

  /** new Jump(arguements, id): `B <cond> <label>` or `B <label>`. */
  function NewJump(arguments: seq<string>, id: uint32): (r: Result<Jump>)
    ensures |arguments| == 0 ==> r == Err(MissingToken(0))
    ensures |arguments| > 0 && arguments[0] !in CONDITIONS ==> r == Ok(Jump(Machine.NULL, arguments[0], id))
    ensures |arguments| == 1 && arguments[0] in CONDITIONS ==> r == Err(MissingToken(1))
    ensures |arguments| > 1 && arguments[0] in CONDITIONS ==>
      r.Ok? && r.value.target == arguments[1] && r.value.id == id && r.value.condition == ConditionOf(arguments[0])
    ensures r.Ok? ==> (r.value.condition == Machine.NULL <==> arguments[0] !in CONDITIONS)
  {
    if |arguments| == 0 then Err(MissingToken(0))
    else
      var condition := ConditionOf(arguments[0]);
      if condition == Machine.NULL then Ok(Jump(condition, arguments[0], id))
      else if |arguments| > 1 then Ok(Jump(condition, arguments[1], id))
      else Err(MissingToken(1))
  }

  /** The keyword that names a condition, the inverse of ConditionOf. */
  function ConditionName(c: Machine.Cmp): string
    requires c != Machine.NULL
  {
    match c
    case EQ => "EQ"
    case NE => "NE"
    case GT => "GT"
    case LT => "LT"
  }

  /**
    * Writing a condition's keyword and reading it back gives the condition, and `B <cond> L`
    * builds the jump on exactly that condition to L; `B L` builds an unconditional one.
    */
  lemma NewJumpRoundTrip(c: Machine.Cmp, target: string, id: uint32)
    requires c != Machine.NULL
    ensures ConditionName(c) in CONDITIONS
    ensures ConditionOf(ConditionName(c)) == c
    ensures NewJump([ConditionName(c), target], id) == Ok(Jump(c, target, id))
    ensures target !in CONDITIONS ==> NewJump([target], id) == Ok(Jump(Machine.NULL, target, id))
  {
  }

  /** The assembler's working state between lines. */
  datatype Pass = Pass(
    id: uint32,                       // the running line id
    ids: seq<uint32>,                 // ids of the lines that get a slot, in order
    actions: map<uint32, Instr>,      // actionIDs
    jumps: seq<Jump>,                 // pending jumps
    labels: map<string, uint32>,      // label name -> id
    checker: Checker)

  function Begin(c: Checker): Pass {
    Pass(0, [], map[], [], map[], c)
  }

  /** The operand parser each snapshot uses. */
  function ParseOperands(snap: Snapshot, arguments: seq<string>): Result<seq<Operand>> {
    if snap == Earliest then ParseArgsEarliest(arguments) else ParseArgs(arguments)
  }

  /** One iteration of Parse's loop over the preprocessed lines. */
  function AssembleLine(snap: Snapshot, p: Pass, lineNumber: nat, line: string): (r: Result<Pass>)
    ensures r.Ok? ==> r.value.id == IncrUInt32(p.id)
  {
    var id := if PreIncrements(snap) then IncrUInt32(p.id) else p.id;
    var counter := IncrUInt32(p.id);
    var tokens := Tokenize(line);
    if |tokens| == 0 then Err(NoTokens(line))
    else
      var opcode := tokens[0];
      var arguments := tokens[1..];
      if opcode[|opcode| - 1] == ':' then
        var name := opcode[..|opcode| - 1];
        if name in p.labels then Err(DuplicateLabel(name))
        else Ok(p.(id := counter, labels := p.labels[name := id]))
      else if opcode == "B" then
        var jump :- NewJump(arguments, id);
        Ok(p.(id := counter, ids := p.ids + [id], jumps := p.jumps + [jump]))
      else
        var operands :- ParseOperands(snap, arguments);
        var instr :- Action(opcode, operands);
        var checked :- if TypeChecks(snap) then FormatCheck(snap, p.checker, lineNumber, line, opcode, operands)
                       else Ok(Verdict(true, p.checker));
        if !checked.accepted then Ok(p.(id := counter, checker := checked.checker))
        else if id in p.actions then Err(DuplicateId(id))
        else Ok(p.(id := counter, checker := checked.checker, actions := p.actions[id := instr], ids := p.ids + [id]))
  }

  /** Parse's loop: every line in order, the index among the kept lines as its line number. */
  function Assemble(snap: Snapshot, c: Checker, lines: seq<string>): (r: Result<Pass>)
    decreases |lines|
  {
    if |lines| == 0 then Ok(Begin(c))
    else
      var p :- Assemble(snap, c, lines[..|lines| - 1]);
      AssembleLine(snap, p, |lines| - 1, lines[|lines| - 1])
  }

  /** How many linked ids lie below a label's id: the slot the label's line would precede. */
  function CountBelow(ids: seq<uint32>, labelId: uint32): (n: nat)
    ensures n <= |ids|
  {
    if |ids| == 0 then 0
    else CountBelow(ids[..|ids| - 1], labelId) + (if ids[|ids| - 1] < labelId then 1 else 0)
  }

  /**
    * Where a branch to a label sets the PC: the label's raw line id as written; in the
    * corrected linker, the number of slots before the label's line.
    */
  function Destination(snap: Snapshot, ids: seq<uint32>, labelId: uint32): uint32 {
    if CompactsDestinations(snap) then CountBelow(ids, labelId) % TWO_32 else labelId
  }

  /** `jumps.ToDictionary(jump => jump.ID, jump => FuncJump(jump.Condition, labels[jump.Label]))`. */
  function ResolveJumps(snap: Snapshot, ids: seq<uint32>, jumps: seq<Jump>, labels: map<string, uint32>): Result<map<uint32, Instr>>
    decreases |jumps|
  {
    if |jumps| == 0 then Ok(map[])
    else
      var n := |jumps| - 1;
      var earlier :- ResolveJumps(snap, ids, jumps[..n], labels);
      var jump := jumps[n];
      if jump.target !in labels then Err(UnresolvedLabel(jump.target))
      else if jump.id in earlier then Err(DuplicateId(jump.id))
      else Ok(earlier[jump.id := Branch(jump.condition, Destination(snap, ids, labels[jump.target]))])
  }

  /** Every branch names a declared label. */
  predicate TargetsDeclared(jumps: seq<Jump>, labels: map<string, uint32>) {
    forall k :: 0 <= k < |jumps| ==> jumps[k].target in labels
  }

  /** No two branches share a line id (ToDictionary's key condition). */
  predicate DistinctJumpIds(jumps: seq<Jump>) {
    forall k, m :: 0 <= k < m < |jumps| ==> jumps[k].id != jumps[m].id
  }

  /** The dictionary is built iff every label is declared and no id repeats. */
  lemma {:induction false} ResolveJumpsSucceeds(snap: Snapshot, ids: seq<uint32>, jumps: seq<Jump>, labels: map<string, uint32>)
    ensures ResolveJumps(snap, ids, jumps, labels).Ok? <==> TargetsDeclared(jumps, labels) && DistinctJumpIds(jumps)
  {
    if |jumps| > 0 {
      var n := |jumps| - 1;
      var prefix := jumps[..n];
      ResolveJumpsSucceeds(snap, ids, prefix, labels);
      assert forall k :: 0 <= k < n ==> prefix[k] == jumps[k];
      var r := ResolveJumps(snap, ids, prefix, labels);
      if r.Ok? {
        ResolveJumpsContents(snap, ids, prefix, labels);
        if jumps[n].id in r.value {
          var k :| 0 <= k < n && prefix[k].id == jumps[n].id;
          assert !DistinctJumpIds(jumps);
        }
      }
    }
  }

  /** The dictionary maps each branch's id, and only those, to a branch to its label's destination. */
  lemma {:induction false} ResolveJumpsContents(snap: Snapshot, ids: seq<uint32>, jumps: seq<Jump>, labels: map<string, uint32>)
    requires ResolveJumps(snap, ids, jumps, labels).Ok?
    ensures var r := ResolveJumps(snap, ids, jumps, labels).value;
      forall id :: id in r <==> exists k :: 0 <= k < |jumps| && jumps[k].id == id
    ensures var r := ResolveJumps(snap, ids, jumps, labels).value;
      forall k :: 0 <= k < |jumps| ==>
        jumps[k].target in labels && jumps[k].id in r
        && r[jumps[k].id] == Branch(jumps[k].condition, Destination(snap, ids, labels[jumps[k].target]))
  {
    if |jumps| > 0 {
      var n := |jumps| - 1;
      var prefix := jumps[..n];
      ResolveJumpsContents(snap, ids, prefix, labels);
      assert forall k :: 0 <= k < n ==> prefix[k] == jumps[k];
      var r := ResolveJumps(snap, ids, jumps, labels).value;
      var earlier := ResolveJumps(snap, ids, prefix, labels).value;
      assert r == earlier[jumps[n].id := Branch(jumps[n].condition, Destination(snap, ids, labels[jumps[n].target]))];
      forall id | id in r
        ensures exists k :: 0 <= k < |jumps| && jumps[k].id == id
      {
        if id != jumps[n].id {
          var k :| 0 <= k < n && prefix[k].id == id;
          assert jumps[k].id == id;
        }
      }
      forall k | 0 <= k < |jumps|
        ensures jumps[k].target in labels && jumps[k].id in r
          && r[jumps[k].id] == Branch(jumps[k].condition, Destination(snap, ids, labels[jumps[k].target]))
      {
        if k < n {
          assert jumps[k].id in earlier;
          assert jumps[k].id != jumps[n].id;
        }
      }
    }
  }

  /** The filled slots of the linker loop: for each id, its action, else its jump, else nothing. */
  function Slots(ids: seq<uint32>, actions: map<uint32, Instr>, jumps: map<uint32, Instr>): (r: seq<Instr>)
    ensures |r| <= |ids|
  {
    if |ids| == 0 then []
    else
      var id := ids[|ids| - 1];
      Slots(ids[..|ids| - 1], actions, jumps)
        + (if id in actions then [actions[id]] else if id in jumps then [jumps[id]] else [])
  }

  /** Linker: an array of ids.Count + 1 slots, slot 0 Wait, the rest filled in id order. */
  function Linker(snap: Snapshot, ids: seq<uint32>, actions: map<uint32, Instr>, jumps: seq<Jump>, labels: map<string, uint32>): (r: Result<seq<Instr>>)
    ensures r.Ok? ==> |r.value| == |ids| + 1 && r.value[0] == Wait
  {
    var resolved :- ResolveJumps(snap, ids, jumps, labels);
    var slots := Slots(ids, actions, resolved);
    Ok([Wait] + slots + seq(|ids| - |slots|, _ => Unset))
  }

  /** What Parse hands back: the program or null, and the checker the caller reads diagnostics from. */
  datatype Parsed = Parsed(commands: Option<seq<Instr>>, checker: Checker)

  /** Parse: assemble, link, and return the program only if the checker's success flag holds. */
  function Parse(snap: Snapshot, c: Checker, source: seq<string>): (r: Result<Parsed>)
    ensures r.Ok? && r.value.commands.Some? ==> |r.value.commands.value| >= 1 && r.value.commands.value[0] == Wait
    ensures r.Ok? && TypeChecks(snap) ==> (r.value.commands.Some? <==> r.value.checker.success)
    ensures r.Ok? && !TypeChecks(snap) ==> r.value.commands.Some?
  {
    var lines := PreProcess(source);
    var p :- Assemble(snap, c, lines);
    var commands :- Linker(snap, p.ids, p.actions, p.jumps, p.labels);
    if !TypeChecks(snap) || p.checker.success then Ok(Parsed(Some(commands), p.checker))
    else Ok(Parsed(None, p.checker))
  }
}
