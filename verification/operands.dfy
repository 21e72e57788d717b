/**
  * Operand classes and the Operand values the assembler builds from tokens, in the
  * byte-tagged form of the checked snapshots and the Dtype form of Compiler.cs.
  */
module Operands {
  import opened Results
  import opened Numbers
  import opened Text
  import opened Tokenizer

  /** Operand class bits (one bit each) and the unions the signatures use. */
  const REG: bv8 := 0x01
  const POSINT: bv8 := 0x02
  const NEGINT: bv8 := 0x04
  const FLOAT: bv8 := 0x08
  const NULL: bv8 := 0
  const INT: bv8 := POSINT | NEGINT
  const NUM: bv8 := INT | FLOAT

  predicate SingleBit(b: bv8) {
    b != 0 && b & (b - 1) == 0
  }

  /** The four classes are distinct single bits; INT, NUM and NULL are the unions they name. */
  lemma ClassBits()
    ensures SingleBit(REG) && SingleBit(POSINT) && SingleBit(NEGINT) && SingleBit(FLOAT)
    ensures REG & POSINT == 0 && REG & NEGINT == 0 && REG & FLOAT == 0
    ensures POSINT & NEGINT == 0 && POSINT & FLOAT == 0 && NEGINT & FLOAT == 0
    ensures INT == 0x06 && NUM == 0x0E && NULL == 0
  {
  }

  /** The classes a parsed operand can carry (FLOAT has no parse path). */
  predicate IsOperandClass(b: bv8) {
    b == REG || b == POSINT || b == NEGINT
  }

  /** struct Operand: its class bits and its integer payload. */
  datatype Operand = Operand(use: bv8, value: int32)

  /** Operand(int val, char _): a register reference. */
  function RegisterOperand(index: int32): (o: Operand)
    ensures o.use == REG && o.value == index
  {
    Operand(REG, index)
  }

  /** Operand(int val): a literal, classed by its sign. */
  function LiteralOperand(v: int32): (o: Operand)
    ensures o.value == v
    ensures IsOperandClass(o.use) && o.use != REG
    ensures o.use == POSINT <==> v >= 0
  {
    if v >= 0 then Operand(POSINT, v) else Operand(NEGINT, v)
  }

  /** ParseArgs: '#' starts a literal, 'R' a register, anything else is fatal. */
  function ParseArg(arg: string): (r: Result<Operand>)
    ensures r.Ok? <==> |arg| > 0 && (arg[0] == '#' || arg[0] == 'R') && ParseInt32(arg[1..]).Ok?
    ensures r.Ok? ==> IsOperandClass(r.value.use) && r.value.value == ParseInt32(arg[1..]).value
    ensures r.Ok? ==> (r.value.use == REG <==> arg[0] == 'R')
    ensures |arg| > 0 && arg[0] != '#' && arg[0] != 'R' ==> r == Err(MalformedOperand(arg))
    ensures r.Ok? && arg[0] == '#' ==> r.value == LiteralOperand(ParseInt32(arg[1..]).value)
    ensures r.Ok? && arg[0] == 'R' ==> r.value == RegisterOperand(ParseInt32(arg[1..]).value)
  {
    if |arg| == 0 then Err(MalformedOperand(arg))
    else if arg[0] == '#' then
      var v :- ParseInt32(arg[1..]);
      Ok(LiteralOperand(v))
    else if arg[0] == 'R' then
      var v :- ParseInt32(arg[1..]);
      Ok(RegisterOperand(v))
    else Err(MalformedOperand(arg))
  }

  /** `arguements.Select(ParseArgs).ToArray()`: every token parsed, the first failure fatal. */
  function ParseArgs(args: seq<string>): (r: Result<seq<Operand>>)
    ensures r.Ok? <==> forall k :: 0 <= k < |args| ==> ParseArg(args[k]).Ok?
    ensures r.Ok? ==> |r.value| == |args| && forall k :: 0 <= k < |args| ==> r.value[k] == ParseArg(args[k]).value
  {
    if |args| == 0 then Ok([])
    else
      var head :- ParseArg(args[0]);
      var tail :- ParseArgs(args[1..]);
      Ok([head] + tail)
  }

  /** Writing a register or a literal out and parsing it back gives the operand again. */
  lemma ParseArgRoundTrip(n: nat)
    requires n <= INT_MAX as int
    ensures ParseArg("R" + Decimal(n)) == Ok(RegisterOperand(n))
    ensures ParseArg("#" + Decimal(n)) == Ok(LiteralOperand(n))
  {
    DecimalRoundTrip(n);
    assert ("R" + Decimal(n))[1..] == Decimal(n);
    assert ("#" + Decimal(n))[1..] == Decimal(n);
  }

  /**
    * Given the tokeniser, the text after a token's first character never holds white space
    * or a sign, so int.Parse only ever sees word characters (and a trailing ':'), and no
    * literal reaching ParseArgs is negative.
    */
  lemma TokensNeverNegative(line: string, k: nat)
    requires k < |Tokenize(line)|
    ensures forall i :: 1 <= i < |Tokenize(line)[k]| ==>
      IsWordChar(Tokenize(line)[k][i]) || Tokenize(line)[k][i] == ':'
    ensures ParseArg(Tokenize(line)[k]).Ok? ==> ParseArg(Tokenize(line)[k]).value.use in {REG, POSINT}
  {
    var t := Tokenize(line)[k];
    TokenizeShapes(line);
    assert WellFormedToken(t);
    if IsLabelDeclaration(t) {
      var w := t[..|t| - 1];
      assert forall i :: 0 <= i < |w| ==> IsWordChar(w[i]);
      assert forall i :: 0 <= i < |w| ==> w[i] == t[i];
    }
  }

  /** The Dtype tag of Compiler.cs. */
  datatype Dtype = Literal | Register

  /** The Operand struct of Compiler.cs. */
  datatype DtypeOperand = DtypeOperand(use: Dtype, value: int32)

  /** ParseArgs of Compiler.cs: same prefixes, tagged Literal or Register. */
  function ParseArgEarliest(arg: string): (r: Result<DtypeOperand>)
    ensures r.Ok? <==> |arg| > 0 && (arg[0] == '#' || arg[0] == 'R') && ParseInt32(arg[1..]).Ok?
    ensures r.Ok? ==> r.value.value == ParseInt32(arg[1..]).value
    ensures r.Ok? ==> (r.value.use == Register <==> arg[0] == 'R')
  {
    if |arg| == 0 then Err(MalformedOperand(arg))
    else if arg[0] == '#' then
      var v :- ParseInt32(arg[1..]);
      Ok(DtypeOperand(Literal, v))
    else if arg[0] == 'R' then
      var v :- ParseInt32(arg[1..]);
      Ok(DtypeOperand(Register, v))
    else Err(MalformedOperand(arg))
  }

  /**
    * The byte-tagged operand a Dtype operand corresponds to. The machine only asks whether
    * an operand is a register, so Literal may take either integer class.
    */
  function Tagged(d: DtypeOperand): (o: Operand)
    ensures (o.use == REG) <==> (d.use == Register)
    ensures o.value == d.value
  {
    if d.use == Register then RegisterOperand(d.value) else LiteralOperand(d.value)
  }

  function ParseArgsEarliest(args: seq<string>): (r: Result<seq<Operand>>)
    ensures r.Ok? <==> forall k :: 0 <= k < |args| ==> ParseArgEarliest(args[k]).Ok?
    ensures r.Ok? ==> |r.value| == |args| && forall k :: 0 <= k < |args| ==> r.value[k] == Tagged(ParseArgEarliest(args[k]).value)
  {
    if |args| == 0 then Ok([])
    else
      var head :- ParseArgEarliest(args[0]);
      var tail :- ParseArgsEarliest(args[1..]);
      Ok([Tagged(head)] + tail)
  }

  /** Both snapshots of ParseArgs accept the same tokens and agree on what they denote. */
  lemma EarliestParseAgrees(arg: string)
    ensures ParseArgEarliest(arg).Ok? <==> ParseArg(arg).Ok?
    ensures ParseArg(arg).Ok? ==> Tagged(ParseArgEarliest(arg).value) == ParseArg(arg).value
  {
  }
}
