/**
  * The operand type checker: operand classes are bits, a signature lists one allowed-class
  * mask per position, and both sides are packed into the 4-bit nibbles of a ushort.
  */
module TypeChecker {
  import opened Results
  import opened Numbers
  import opened Operands
  import opened Snapshots
  import opened Nibbles

  /** BitCheck: the allowed-class mask of each operand position, per opcode. */
  function Signature(opcode: string): Result<seq<bv8>> {
    if opcode == "ADD" then Ok([REG, REG | INT, REG | INT])
    else if opcode == "SUB" then Ok([REG, REG | INT, REG | INT])
    else if opcode == "CMP" then Ok([REG | NUM, REG | NUM])
    else if opcode == "MOV" then Ok([REG, REG | NUM])
    else if opcode == "HALT" then Ok([NULL])
    else Err(UnknownOpcode(opcode))
  }

  /** The opcodes BitCheck lists. */
  const OPCODES: set<string> := {"ADD", "SUB", "CMP", "MOV", "HALT"}

  /** BitCheck has exactly the five opcodes, with 3, 3, 2, 2 and 1 positions. */
  lemma SignatureTable(opcode: string)
    ensures Signature(opcode).Ok? <==> opcode in OPCODES
    ensures opcode in {"ADD", "SUB"} ==> |Signature(opcode).value| == 3
    ensures opcode in {"CMP", "MOV"} ==> |Signature(opcode).value| == 2
    ensures opcode == "HALT" ==> Signature(opcode).value == [NULL]
    ensures Signature(opcode).Ok? ==> forall k :: 0 <= k < |Signature(opcode).value| ==> Signature(opcode).value[k] < 16
  {
  }

  /** BitSwitch: the printable name of a class mask; any other mask throws. */
  function BitSwitch(num: bv8): (r: Result<string>)
    ensures r.Ok? <==> num in {0x01, 0x02, 0x04, 0x08, 0x06, 0x0E, 0x0F, 0x00}
    ensures r.Err? ==> r.fault == UnlistedMask(num)
  {
    if num == 0x01 then Ok("REGISTER")
    else if num == 0x02 then Ok("POSITIVE INTEGER")
    else if num == 0x04 then Ok("NEGATIVE INTEGER")
    else if num == 0x08 then Ok("FLOAT")
    else if num == 0x06 then Ok("INT")
    else if num == 0x0E then Ok("NUMERIC")
    else if num == 0x0F then Ok("ANY")
    else if num == 0x00 then Ok("NONE")
    else Err(UnlistedMask(num))
  }

  /** Distinct masks get distinct names; the ADD/SUB mask REG|INT has none. */
  lemma BitSwitchNames(a: bv8, b: bv8)
    requires BitSwitch(a).Ok? && BitSwitch(b).Ok?
    ensures BitSwitch(a).value == BitSwitch(b).value ==> a == b
    ensures BitSwitch(REG | INT).Err?
  {
  }

  /**
    * BitAssemble's shift for entry k: `shift` is a byte that starts at 3 and is decremented
    * per entry (wrapping at 0), and C# masks an int shift count to its low five bits.
    */
  function ShiftCount(k: nat): (n: nat)
    ensures n < 32 && n % 4 == 0
  {
    (4 * ((3 - k) % 256)) % 32
  }

  /** `(ushort)(num << count)`: the byte widened to an int, shifted, cut back to 16 bits. */
  function Shifted(num: bv8, count: bv5): bv16 {
    (((num as bv32) << count) & 0xFFFF) as bv16
  }

  /** `(ushort)(num << NIBBLE * shift)` for entry k. */
  function Placed(num: bv8, k: nat): bv16 {
    Shifted(num, ShiftCount(k) as bv5)
  }

  /** BitAssemble: XOR of every entry placed at its shift. */
  function BitAssemble(entries: seq<bv8>): bv16 {
    if |entries| == 0 then 0
    else BitAssemble(entries[..|entries| - 1]) ^ Placed(entries[|entries| - 1], |entries| - 1)
  }

  /** The reference packing: entry k ORed into nibble position k, most significant first. */
  function Pack(entries: seq<bv8>): bv16
    requires |entries| <= 4
  {
    if |entries| == 0 then 0
    else Pack(entries[..|entries| - 1]) | Lane(entries[|entries| - 1], |entries| - 1)
  }

  lemma ShiftCountOfFirstFour(k: nat)
    requires k < 4
    ensures ShiftCount(k) == 12 - 4 * k
  {
  }

  /** A shift of 12 - 4q puts a value below 16 on lane q. */
  lemma ShiftedOnLane(v: bv8, q: bv2)
    requires v < 16
    ensures Shifted(v, 12 - 4 * (q as bv5)) == LaneAt(v, q)
  {
  }

  /** For the first four entries the shift count is 12 - 4k, as a five-bit count. */
  lemma ShiftCountBits(k: nat)
    requires k < 4
    ensures ShiftCount(k) as bv5 == 12 - 4 * ((k as bv2) as bv5)
  {
    ShiftCountOfFirstFour(k);
  }

  /** For the first four entries, BitAssemble's shift puts a value below 16 on its own lane. */
  lemma PlacedOnLane(v: bv8, k: nat)
    requires v < 16 && k < 4
    ensures Placed(v, k) == Lane(v, k)
  {
    ShiftCountBits(k);
    ShiftedOnLane(v, k as bv2);
  }

  /** For at most four entries below 16, nibble k holds entry k and unused nibbles are 0. */
  lemma {:induction false} BitAssembleNibbles(entries: seq<bv8>)
    requires |entries| <= 4
    requires forall k :: 0 <= k < |entries| ==> entries[k] < 16
    ensures forall p :: 0 <= p < 4 ==> Nibble(BitAssemble(entries), p) == if p < |entries| then entries[p] else 0
  {
    if |entries| > 0 {
      var n := |entries| - 1;
      var prefix := entries[..n];
      BitAssembleNibbles(prefix);
      PlacedOnLane(entries[n], n);
      forall p | 0 <= p < 4
        ensures Nibble(BitAssemble(entries), p) == if p < |entries| then entries[p] else 0
      {
        XorLane(BitAssemble(prefix), entries[n], n, p);
      }
    }
  }

  lemma {:induction false} PackNibbles(entries: seq<bv8>)
    requires |entries| <= 4
    requires forall k :: 0 <= k < |entries| ==> entries[k] < 16
    ensures forall p :: 0 <= p < 4 ==> Nibble(Pack(entries), p) == if p < |entries| then entries[p] else 0
  {
    if |entries| > 0 {
      var n := |entries| - 1;
      var prefix := entries[..n];
      PackNibbles(prefix);
      forall p | 0 <= p < 4
        ensures Nibble(Pack(entries), p) == if p < |entries| then entries[p] else 0
      {
        OrLane(Pack(prefix), entries[n], n, p);
      }
    }
  }

  /** The nibbles do not overlap, so BitAssemble's XOR builds the same word as an OR would. */
  lemma BitAssembleIsPack(entries: seq<bv8>)
    requires |entries| <= 4
    requires forall k :: 0 <= k < |entries| ==> entries[k] < 16
    ensures BitAssemble(entries) == Pack(entries)
  {
    BitAssembleNibbles(entries);
    PackNibbles(entries);
    NibblesDetermine(BitAssemble(entries), Pack(entries));
  }

  /** A shift of 16 or more moves a byte out of the low 16 bits. */
  lemma ShiftedOut(v: bv8, count: bv5)
    requires count >= 16
    ensures Shifted(v, count) == 0
  {
  }

  lemma PlacedVanishes(v: bv8, k: nat)
    requires 4 <= k < 8
    ensures Placed(v, k) == 0
  {
    assert ShiftCount(k) == 44 - 4 * k;
    ShiftedOut(v, ShiftCount(k) as bv5);
  }

  /**
    * Entries five to eight are shifted out of the ushort entirely (the shift count wraps to
    * 28, 24, 20, 16), so they never reach the check; a ninth entry lands on nibble 0 again.
    */
  lemma {:induction false} BitAssembleIgnoresFifthToEighth(entries: seq<bv8>)
    requires 4 <= |entries| <= 8
    ensures BitAssemble(entries) == BitAssemble(entries[..4])
    ensures ShiftCount(8) == ShiftCount(0)
  {
    if |entries| > 4 {
      var n := |entries| - 1;
      assert entries[..n][..4] == entries[..4];
      BitAssembleIgnoresFifthToEighth(entries[..n]);
      PlacedVanishes(entries[n], n);
    } else {
      assert entries[..4] == entries;
    }
  }

  /** The class bits of the operands, in order. */
  function Uses(operands: seq<Operand>): seq<bv8> {
    if |operands| == 0 then []
    else Uses(operands[..|operands| - 1]) + [operands[|operands| - 1].use]
  }

  /** Entry k of Uses is operand k's class bits. */
  lemma {:induction false} UsesAt(operands: seq<Operand>)
    ensures |Uses(operands)| == |operands|
    ensures forall k :: 0 <= k < |operands| ==> Uses(operands)[k] == operands[k].use
  {
    if |operands| > 0 {
      var n := |operands| - 1;
      UsesAt(operands[..n]);
      assert forall k :: 0 <= k < n ==> operands[..n][k] == operands[k];
    }
  }

  /** One recorded InvalidArguement error: `ARG [position] was written but opcode takes takes`. */
  datatype Diagnostic = Diagnostic(lineNumber: nat, line: string, position: nat, written: string, opcode: string, takes: string)

  /** The checker object: its recorded errors and its `success` flag. */
  datatype Checker = Checker(errors: seq<Diagnostic>, success: bool)

  /** A new Checker: no errors, success true. */
  const Fresh: Checker := Checker([], true)

  /** Position p reported by the diagnostic loop: nothing allowed survived the mask, yet the nibbles differ. */
  predicate Failing(control: bv16, check: bv16, p: nat)
    requires p < 4
  {
    Nibble(control & check, p) == 0 && Nibble(control, p) != Nibble(check, p)
  }

  /** The diagnostic loop of FuncFormatChecker from position p on. */
  function Diagnose(lineNumber: nat, line: string, opcode: string, control: bv16, check: bv16, p: nat): (r: Result<seq<Diagnostic>>)
    requires p <= 4
    ensures r.Ok? ==> forall i :: 0 <= i < |r.value| ==> p <= r.value[i].position < 4
    ensures r.Ok? ==> forall i, j :: 0 <= i < j < |r.value| ==> r.value[i].position < r.value[j].position
    decreases 4 - p
  {
    if p == 4 then Ok([])
    else if Failing(control, check, p) then
      var takes :- BitSwitch(Nibble(control, p));
      var written :- BitSwitch(Nibble(check, p));
      var rest :- Diagnose(lineNumber, line, opcode, control, check, p + 1);
      Ok([Diagnostic(lineNumber, line, p, written, opcode, takes)] + rest)
    else Diagnose(lineNumber, line, opcode, control, check, p + 1)
  }

  /**
    * Every recorded diagnostic is for a failing position and carries the names BitSwitch
    * gives the expected and the written mask.
    */
  lemma {:induction false} DiagnoseSound(lineNumber: nat, line: string, opcode: string, control: bv16, check: bv16, p: nat)
    requires p <= 4
    ensures var r := Diagnose(lineNumber, line, opcode, control, check, p);
      r.Ok? ==> forall i :: 0 <= i < |r.value| ==>
        (&& Failing(control, check, r.value[i].position)
         && r.value[i].lineNumber == lineNumber && r.value[i].line == line && r.value[i].opcode == opcode
         && BitSwitch(Nibble(control, r.value[i].position)) == Ok(r.value[i].takes)
         && BitSwitch(Nibble(check, r.value[i].position)) == Ok(r.value[i].written))
    decreases 4 - p
  {
    if p < 4 {
      DiagnoseSound(lineNumber, line, opcode, control, check, p + 1);
    }
  }

  /** One turn of the diagnostic loop: a failing position adds its diagnostic in front. */
  lemma DiagnoseStep(lineNumber: nat, line: string, opcode: string, control: bv16, check: bv16, p: nat)
    requires p < 4
    requires Diagnose(lineNumber, line, opcode, control, check, p).Ok?
    ensures Diagnose(lineNumber, line, opcode, control, check, p + 1).Ok?
    ensures var r := Diagnose(lineNumber, line, opcode, control, check, p).value;
      var rest := Diagnose(lineNumber, line, opcode, control, check, p + 1).value;
      if Failing(control, check, p) then |r| == |rest| + 1 && r[0].position == p && r[1..] == rest
      else r == rest
  {
  }

  /** A failing position q at or after p is recorded, unless the loop throws. */
  lemma {:induction false} DiagnoseRecords(lineNumber: nat, line: string, opcode: string, control: bv16, check: bv16, p: nat, q: nat)
    requires p <= q < 4 && Failing(control, check, q)
    requires Diagnose(lineNumber, line, opcode, control, check, p).Ok?
    ensures var r := Diagnose(lineNumber, line, opcode, control, check, p).value;
      exists i :: 0 <= i < |r| && r[i].position == q
    decreases 4 - p
  {
    DiagnoseStep(lineNumber, line, opcode, control, check, p);
    var r := Diagnose(lineNumber, line, opcode, control, check, p).value;
    if q == p {
      assert r[0].position == q;
    } else {
      DiagnoseRecords(lineNumber, line, opcode, control, check, p + 1, q);
      var rest := Diagnose(lineNumber, line, opcode, control, check, p + 1).value;
      var i :| 0 <= i < |rest| && rest[i].position == q;
      if Failing(control, check, p) {
        assert r[i + 1] == r[1..][i];
      } else {
        assert r[i].position == q;
      }
    }
  }

  /** The loop throws only on a failing position whose mask BitSwitch does not list. */
  lemma {:induction false} DiagnoseThrows(lineNumber: nat, line: string, opcode: string, control: bv16, check: bv16, p: nat)
    requires p <= 4
    requires Diagnose(lineNumber, line, opcode, control, check, p).Err?
    ensures exists q :: (p <= q < 4 && Failing(control, check, q)
      && (BitSwitch(Nibble(control, q)).Err? || BitSwitch(Nibble(check, q)).Err?))
    decreases 4 - p
  {
    if Failing(control, check, p) && (BitSwitch(Nibble(control, p)).Err? || BitSwitch(Nibble(check, p)).Err?) {
    } else {
      DiagnoseThrows(lineNumber, line, opcode, control, check, p + 1);
    }
  }

  /** The outcome of one FuncFormatChecker call: its return value and the checker afterwards. */
  datatype Verdict = Verdict(accepted: bool, checker: Checker)

  /** The packed control word (the signature) and check word (the operands) of a call. */
  function Control(opcode: string): bv16
    requires Signature(opcode).Ok?
  {
    BitAssemble(Signature(opcode).value)
  }

  function Check(operands: seq<Operand>): bv16 {
    BitAssemble(Uses(operands))
  }

  /**
    * The acceptance test of FuncFormatChecker, independent of the checker's state, read
    * position by position: at each of the four nibbles, the operand's class bits are all
    * allowed by the signature's mask there.
    */
  predicate Accepts(opcode: string, operands: seq<Operand>)
    requires Signature(opcode).Ok?
  {
    NibblesFit(Control(opcode), Check(operands))
  }

  /** Nibble p of `check` has only bits that nibble p of `control` has. */
  predicate Fits(control: bv16, check: bv16, p: nat)
    requires p < 4
  {
    Nibble(control, p) & Nibble(check, p) == Nibble(check, p)
  }

  /** Every nibble of `check` from position p on fits the same nibble of `control`. */
  predicate FitsFrom(control: bv16, check: bv16, p: nat)
    requires p <= 4
    decreases 4 - p
  {
    p == 4 || (Fits(control, check, p) && FitsFrom(control, check, p + 1))
  }

  /** Every nibble of `check` fits the same nibble of `control`. */
  predicate NibblesFit(control: bv16, check: bv16) {
    FitsFrom(control, check, 0)
  }

  /** The four positions spelled out. */
  lemma NibblesFitUnfolded(control: bv16, check: bv16)
    ensures NibblesFit(control, check) <==>
      Fits(control, check, 0) && Fits(control, check, 1) && Fits(control, check, 2) && Fits(control, check, 3)
  {
    assert FitsFrom(control, check, 2) <==> Fits(control, check, 2) && FitsFrom(control, check, 3);
    assert FitsFrom(control, check, 3) <==> Fits(control, check, 3) && FitsFrom(control, check, 4);
  }

  /** The same, quantified over the positions. */
  lemma FitsEverywhere(control: bv16, check: bv16)
    ensures NibblesFit(control, check) <==> forall p :: 0 <= p < 4 ==> Fits(control, check, p)
  {
    NibblesFitUnfolded(control, check);
    if NibblesFit(control, check) {
      forall p | 0 <= p < 4 ensures Fits(control, check, p) {
        assert p == 0 || p == 1 || p == 2 || p == 3;
      }
    }
  }

  /** FuncFormatChecker: accepts iff `(control & check) == check`, else records the failing positions. */
  function FormatCheck(snap: Snapshot, c: Checker, lineNumber: nat, line: string, opcode: string, operands: seq<Operand>): (r: Result<Verdict>)
    ensures Signature(opcode).Err? ==> r == Err(UnknownOpcode(opcode))
    ensures r.Ok? ==> Signature(opcode).Ok?
    ensures r.Ok? ==> r.value.accepted == Accepts(opcode, operands)
    ensures r.Ok? && r.value.accepted ==> r.value.checker.errors == c.errors
    ensures r.Ok? && !r.value.accepted ==> |r.value.checker.errors| >= |c.errors| && r.value.checker.errors[..|c.errors|] == c.errors
    ensures r.Ok? && !r.value.accepted ==>
      Diagnose(lineNumber, line, opcode, Control(opcode), Check(operands), 0) == Ok(r.value.checker.errors[|c.errors|..])
    ensures r.Ok? ==> (r.value.checker.success <==> SuccessSurvivesAcceptance(snap) && c.success && r.value.accepted)
  {
    if Signature(opcode).Err? then Err(UnknownOpcode(opcode))
    else
    var control := Control(opcode);
    var check := Check(operands);
    AcceptanceByNibbles(control, check);
    if control & check == check then
      Ok(Verdict(true, c.(success := SuccessSurvivesAcceptance(snap) && c.success)))
    else
      var diagnostics :- Diagnose(lineNumber, line, opcode, control, check, 0);
      Ok(Verdict(false, Checker(c.errors + diagnostics, false)))
  }

  /** Reading the packed test `(control & check) == check` nibble by nibble. */
  lemma AcceptanceByNibbles(control: bv16, check: bv16)
    ensures (control & check == check) <==> NibblesFit(control, check)
  {
    NibblesDetermine(control & check, check);
    NibbleAnd(control, check, 0);
    NibbleAnd(control, check, 1);
    NibbleAnd(control, check, 2);
    NibbleAnd(control, check, 3);
    NibblesFitUnfolded(control, check);
  }

  /**
    * For at most four operands of the parsed classes, a call is accepted iff every operand
    * has a position in the signature and its class bit is allowed there. Missing trailing
    * operands are accepted; an operand past the signature's arity is rejected.
    */
  lemma AcceptsIff(opcode: string, operands: seq<Operand>)
    requires Signature(opcode).Ok?
    requires |operands| <= 4
    requires forall k :: 0 <= k < |operands| ==> IsOperandClass(operands[k].use)
    ensures Accepts(opcode, operands) <==>
      |operands| <= |Signature(opcode).value|
      && forall k :: 0 <= k < |operands| ==> operands[k].use & Signature(opcode).value[k] != 0
  {
    ControlNibbles(opcode);
    CheckNibbles(operands);
    UsesAt(operands);
    MasksAccept(Control(opcode), Check(operands), Signature(opcode).value, Uses(operands));
  }

  /** The control word holds the signature's masks, first position in the top nibble. */
  lemma ControlNibbles(opcode: string)
    requires Signature(opcode).Ok?
    ensures |Signature(opcode).value| <= 4
    ensures forall p :: 0 <= p < 4 ==> (Nibble(Control(opcode), p) ==
      if p < |Signature(opcode).value| then Signature(opcode).value[p] else 0)
  {
    SignatureTable(opcode);
    BitAssembleNibbles(Signature(opcode).value);
  }

  /** The check word of at most four parsed operands holds their class bits. */
  lemma CheckNibbles(operands: seq<Operand>)
    requires |operands| <= 4
    requires forall k :: 0 <= k < |operands| ==> IsOperandClass(operands[k].use)
    ensures forall p :: 0 <= p < 4 ==> (Nibble(Check(operands), p) ==
      if p < |operands| then operands[p].use else 0)
  {
    var uses := Uses(operands);
    UsesAt(operands);
    forall k | 0 <= k < |uses| ensures uses[k] < 16 {
      assert IsOperandClass(operands[k].use);
    }
    BitAssembleNibbles(uses);
  }

  /** The packed comparison, entry by entry, for at most four masks and four class bits. */
  lemma MasksAccept(control: bv16, check: bv16, signature: seq<bv8>, uses: seq<bv8>)
    requires |signature| <= 4 && |uses| <= 4
    requires forall k :: 0 <= k < |uses| ==> IsOperandClass(uses[k])
    requires forall p :: 0 <= p < 4 ==> Nibble(control, p) == if p < |signature| then signature[p] else 0
    requires forall p :: 0 <= p < 4 ==> Nibble(check, p) == if p < |uses| then uses[p] else 0
    ensures NibblesFit(control, check) <==>
      |uses| <= |signature| && forall k :: 0 <= k < |uses| ==> uses[k] & signature[k] != 0
  {
    var fits := |uses| <= |signature| && forall k :: 0 <= k < |uses| ==> uses[k] & signature[k] != 0;
    FitsEverywhere(control, check);
    forall p | 0 <= p < 4
      ensures Fits(control, check, p) <==> (p < |uses| ==> p < |signature| && uses[p] & signature[p] != 0)
    {
      PositionAccepts(control, check, signature, uses, p);
    }
    if !fits {
      var p :| 0 <= p < 4 && p < |uses| && !(p < |signature| && uses[p] & signature[p] != 0);
      assert !Fits(control, check, p);
    }
  }

  /** One nibble of the packed comparison: a missing operand passes, a present one needs its bit. */
  lemma PositionAccepts(control: bv16, check: bv16, signature: seq<bv8>, uses: seq<bv8>, p: nat)
    requires |signature| <= 4 && |uses| <= 4
    requires forall k :: 0 <= k < |uses| ==> IsOperandClass(uses[k])
    requires forall p :: 0 <= p < 4 ==> Nibble(control, p) == if p < |signature| then signature[p] else 0
    requires forall p :: 0 <= p < 4 ==> Nibble(check, p) == if p < |uses| then uses[p] else 0
    requires p < 4
    ensures Fits(control, check, p) <==> (p < |uses| ==> p < |signature| && uses[p] & signature[p] != 0)
  {
    var allowed: bv8 := if p < |signature| then signature[p] else 0;
    assert Nibble(control, p) == allowed;
    if p < |uses| {
      assert Nibble(check, p) == uses[p];
      ClassBitAllowed(uses[p], allowed);
    } else {
      assert Nibble(check, p) == 0;
    }
  }

  /** A single class bit is allowed by a mask iff it is set in the mask. */
  lemma ClassBitAllowed(b: bv8, allowed: bv8)
    requires IsOperandClass(b)
    ensures allowed & b == b <==> b & allowed != 0
    ensures 0 & b != b
  {
  }

  /** HALT's single NONE position accepts only an empty operand list. */
  lemma HaltTakesNoOperands(operands: seq<Operand>)
    requires |operands| <= 4
    requires forall k :: 0 <= k < |operands| ==> IsOperandClass(operands[k].use)
    ensures Accepts("HALT", operands) <==> |operands| == 0
  {
    SignatureTable("HALT");
    AcceptsIff("HALT", operands);
    if |operands| == 1 {
      ClassBitAllowed(operands[0].use, NULL);
    }
  }

  /**
    * A rejected call of at most four parsed operands records at least one diagnostic, one per
    * failing position; an accepted call records none.
    */
  lemma RejectionIsReported(snap: Snapshot, c: Checker, lineNumber: nat, line: string, opcode: string, operands: seq<Operand>)
    requires |operands| <= 4
    requires forall k :: 0 <= k < |operands| ==> IsOperandClass(operands[k].use)
    requires FormatCheck(snap, c, lineNumber, line, opcode, operands).Ok?
    ensures var v := FormatCheck(snap, c, lineNumber, line, opcode, operands).value;
      !v.accepted <==> |v.checker.errors| > |c.errors|
    ensures var v := FormatCheck(snap, c, lineNumber, line, opcode, operands).value;
      !v.accepted ==> ReportsFailures(c.errors, v.checker.errors, Control(opcode), Check(operands))
  {
    var v := FormatCheck(snap, c, lineNumber, line, opcode, operands).value;
    if !v.accepted {
      var control := Control(opcode);
      var check := Check(operands);
      FailingPositionExists(opcode, operands);
      var p :| 0 <= p < 4 && Failing(control, check, p);
      var diagnostics := Diagnose(lineNumber, line, opcode, control, check, 0).value;
      assert v.checker.errors == c.errors + diagnostics;
      assert v.checker.errors[|c.errors|..] == diagnostics;
      DiagnoseRecords(lineNumber, line, opcode, control, check, 0, p);
      DiagnoseSound(lineNumber, line, opcode, control, check, 0);
      forall q | 0 <= q < 4 && Failing(control, check, q)
        ensures exists i :: 0 <= i < |diagnostics| && diagnostics[i].position == q
      {
        DiagnoseRecords(lineNumber, line, opcode, control, check, 0, q);
      }
    }
  }

  /**
    * The errors after a rejection are the earlier ones followed by one diagnostic per failing
    * position, in increasing position order.
    */
  predicate ReportsFailures(before: seq<Diagnostic>, after: seq<Diagnostic>, control: bv16, check: bv16) {
    && |before| <= |after| && after[..|before|] == before
    && (forall i :: |before| <= i < |after| ==> after[i].position < 4 && Failing(control, check, after[i].position))
    && (forall i, j :: |before| <= i < j < |after| ==> after[i].position < after[j].position)
    && (forall q :: 0 <= q < 4 && Failing(control, check, q) ==>
          exists i :: |before| <= i < |after| && after[i].position == q)
  }

  /** A rejected call of parsed operands has a position the diagnostic loop reports. */
  lemma FailingPositionExists(opcode: string, operands: seq<Operand>)
    requires Signature(opcode).Ok?
    requires |operands| <= 4
    requires forall k :: 0 <= k < |operands| ==> IsOperandClass(operands[k].use)
    requires !Accepts(opcode, operands)
    ensures exists p :: 0 <= p < 4 && Failing(Control(opcode), Check(operands), p)
  {
    var control := Control(opcode);
    var check := Check(operands);
    FitsEverywhere(control, check);
    var p :| 0 <= p < 4 && !Fits(control, check, p);
    CheckNibbles(operands);
    assert p < |operands|;
    MissingClassFails(control, check, p);
  }

  /** A position whose operand class bit the mask does not allow is a failing position. */
  lemma MissingClassFails(control: bv16, check: bv16, p: nat)
    requires p < 4
    requires IsOperandClass(Nibble(check, p))
    requires !Fits(control, check, p)
    ensures Failing(control, check, p)
  {
    MissingClassFailsAt(control, check, p as bv2);
  }

  lemma MissingClassFailsAt(control: bv16, check: bv16, q: bv2)
    requires IsOperandClass(NibbleAt(check, q))
    requires NibbleAt(control, q) & NibbleAt(check, q) != NibbleAt(check, q)
    ensures NibbleAt(control & check, q) == 0 && NibbleAt(control, q) != NibbleAt(check, q)
  {
  }

  /** The packed words of `ADD #1 R2`: the signature REG, REG|INT, REG|INT and the operands POSINT, REG. */
  lemma AddWords()
    ensures Control("ADD") == 0x1770
    ensures Check([LiteralOperand(1), RegisterOperand(2)]) == 0x2100
  {
    assert Uses([LiteralOperand(1), RegisterOperand(2)]) == [POSINT, REG];
    BitAssembleNibbles([REG, REG | INT, REG | INT]);
    NibblesDetermine(Control("ADD"), 0x1770);
    BitAssembleNibbles([POSINT, REG]);
    NibblesDetermine(Check([LiteralOperand(1), RegisterOperand(2)]), 0x2100);
  }

  /** An ADD with a literal destination and a missing third operand makes BitSwitch throw on REG|INT. */
  lemma AddRejectionThrows(snap: Snapshot, c: Checker, lineNumber: nat, line: string)
    ensures FormatCheck(snap, c, lineNumber, line, "ADD", [LiteralOperand(1), RegisterOperand(2)]) == Err(UnlistedMask(REG | INT))
  {
    AddWords();
    assert Failing(0x1770, 0x2100, 0) && !Failing(0x1770, 0x2100, 1) && Failing(0x1770, 0x2100, 2);
  }

  /** In the checked snapshots every call sets `success` to false, whatever it returns. */
  lemma SuccessNeverRestored(snap: Snapshot, c: Checker, lineNumber: nat, line: string, opcode: string, operands: seq<Operand>)
    requires snap in {Current, SingleFile}
    requires FormatCheck(snap, c, lineNumber, line, opcode, operands).Ok?
    ensures !FormatCheck(snap, c, lineNumber, line, opcode, operands).value.checker.success
  {
  }

  /** The text Display prints for one error. */
  function Render(d: Diagnostic): string {
    "InvalidArguement Error found at line " + Decimal(d.lineNumber) + ": " + d.line + "\n"
      + "ARG [" + Decimal(d.position) + "] was " + d.written + " but " + d.opcode + " takes " + d.takes
  }

  /** Display: one message per recorded error, in recording order. */
  function Display(c: Checker): (r: seq<string>)
    ensures |r| == |c.errors|
    ensures forall i :: 0 <= i < |r| ==> r[i] == Render(c.errors[i])
  {
    seq(|c.errors|, i requires 0 <= i < |c.errors| => Render(c.errors[i]))
  }

  /** Recording more errors appends their messages after the earlier ones. */
  lemma DisplayAppend(c: Checker, more: seq<Diagnostic>, success: bool)
    ensures Display(Checker(c.errors + more, success)) == Display(c) + Display(Checker(more, success))
  {
  }
}
