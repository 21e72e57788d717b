/**
  * The assembler's tokeniser: the regex `(B|\w+:|\w+|#\d+)` applied with Regex.Matches to the
  * upper-cased line. At each position the alternatives are tried left to right; a position where
  * none matches is skipped, and scanning resumes after each match.
  */
module Tokenizer {
  import opened Text

  /** Length of the longest prefix of word characters (what a greedy `\w+` takes). */
  function WordRun(s: string): (n: nat)
    ensures n <= |s|
    ensures forall i :: 0 <= i < n ==> IsWordChar(s[i])
    ensures n < |s| ==> !IsWordChar(s[n])
  {
    if |s| > 0 && IsWordChar(s[0]) then 1 + WordRun(s[1..]) else 0
  }

  /** Length of the longest prefix of digits (what a greedy `\d+` takes). */
  function DigitRun(s: string): (n: nat)
    ensures n <= |s|
    ensures forall i :: 0 <= i < n ==> IsDigit(s[i])
    ensures n < |s| ==> !IsDigit(s[n])
  {
    if |s| > 0 && IsDigit(s[0]) then 1 + DigitRun(s[1..]) else 0
  }

  predicate IsWord(t: string) {
    |t| > 0 && forall i :: 0 <= i < |t| ==> IsWordChar(t[i])
  }

  /** `#` followed by one or more digits: the only literal shape the regex admits. */
  predicate IsLiteral(t: string) {
    |t| >= 2 && t[0] == '#' && forall i :: 1 <= i < |t| ==> IsDigit(t[i])
  }

  /** `NAME:`, where NAME does not start with B (a B there is matched on its own first). */
  predicate IsLabelDeclaration(t: string) {
    |t| >= 2 && t[|t| - 1] == ':' && IsWord(t[..|t| - 1]) && t[0] != 'B'
  }

  /** The four shapes a match can take. */
  predicate WellFormedToken(t: string) {
    || t == "B"
    || (IsWord(t) && t[0] != 'B')
    || IsLabelDeclaration(t)
    || IsLiteral(t)
  }

  /** All matches of the tokeniser regex in `s`, in order. */
  function Tokens(s: string): (r: seq<string>)
    ensures forall k :: 0 <= k < |r| ==> WellFormedToken(r[k])
    decreases |s|
  {
    if |s| == 0 then []
    else if s[0] == 'B' then ["B"] + Tokens(s[1..])
    else if IsWordChar(s[0]) then
      var n := WordRun(s);
      if n < |s| && s[n] == ':' then
        assert s[..n + 1][..n] == s[..n];
        [s[..n + 1]] + Tokens(s[n + 1..])
      else [s[..n]] + Tokens(s[n..])
    else if s[0] == '#' && |s| > 1 && IsDigit(s[1]) then
      var n := 1 + DigitRun(s[1..]);
      [s[..n]] + Tokens(s[n..])
    else Tokens(s[1..])
  }

  /** What the assembler does to one source line: upper-case it, then collect the matches. */
  function Tokenize(line: string): seq<string> {
    Tokens(Upper(line))
  }

  /** Every token of a line is one of the four shapes, and none has a lower-case letter. */
  lemma TokenizeShapes(line: string)
    ensures forall k :: 0 <= k < |Tokenize(line)| ==> WellFormedToken(Tokenize(line)[k])
    ensures NoneLower(Tokenize(line))
  {
    TokensNoLower(Upper(line));
  }

  /** Assembly ignores case: an upper-cased line yields the same tokens as the line itself. */
  lemma TokenizeIgnoresCase(line: string)
    ensures Tokenize(Upper(line)) == Tokenize(line)
  {
    UpperIdempotent(line);
  }

  /** No character of s is a lower-case letter. */
  predicate NoLower(s: string) {
    forall i :: 0 <= i < |s| ==> !IsLower(s[i])
  }

  /** No token has a lower-case letter. */
  predicate NoneLower(ts: seq<string>) {
    forall k :: 0 <= k < |ts| ==> NoLower(ts[k])
  }

  lemma {:induction false} TokensNoLower(s: string)
    requires NoLower(s)
    ensures NoneLower(Tokens(s))
    decreases |s|
  {
    if |s| == 0 {
    } else if s[0] == 'B' {
      TokensNoLower(s[1..]);
      TakeNoLower(s, 1, Tokens(s[1..]));
    } else if IsWordChar(s[0]) {
      var n := WordRun(s);
      if n < |s| && s[n] == ':' {
        TokensNoLower(s[n + 1..]);
        TakeNoLower(s, n + 1, Tokens(s[n + 1..]));
      } else {
        TokensNoLower(s[n..]);
        TakeNoLower(s, n, Tokens(s[n..]));
      }
    } else if s[0] == '#' && |s| > 1 && IsDigit(s[1]) {
      var n := 1 + DigitRun(s[1..]);
      TokensNoLower(s[n..]);
      TakeNoLower(s, n, Tokens(s[n..]));
    } else {
      TokensNoLower(s[1..]);
      assert NoLower(s[1..]);
    }
  }

  /** A token cut from the front of s, followed by tokens of the rest of s, has no lower case. */
  lemma TakeNoLower(s: string, n: nat, rest: seq<string>)
    requires NoLower(s) && 0 < n <= |s| && NoneLower(rest)
    ensures NoLower(s[n..])
    ensures NoneLower([s[..n]] + rest)
  {
    assert NoLower(s[..n]);
    assert NoLower(s[n..]);
  }

  function Join(ts: seq<string>): string {
    if |ts| == 0 then "" else ts[0] + " " + Join(ts[1..])
  }

  lemma WordRunStopsAt(t: string, rest: string)
    requires forall i :: 0 <= i < |t| ==> IsWordChar(t[i])
    requires |rest| > 0 && !IsWordChar(rest[0])
    ensures WordRun(t + rest) == |t|
  {
    assert forall i :: 0 <= i < |t| ==> (t + rest)[i] == t[i];
    assert (t + rest)[|t|] == rest[0];
  }

  lemma DigitRunStopsAt(t: string, rest: string)
    requires forall i :: 0 <= i < |t| ==> IsDigit(t[i])
    requires |rest| > 0 && !IsDigit(rest[0])
    ensures DigitRun(t + rest) == |t|
  {
    assert forall i :: 0 <= i < |t| ==> (t + rest)[i] == t[i];
    assert (t + rest)[|t|] == rest[0];
  }

  /** One well-formed token followed by a blank is matched as exactly that token. */
  lemma TokensOfOne(t: string, rest: string)
    requires WellFormedToken(t)
    ensures Tokens(t + " " + rest) == [t] + Tokens(rest)
  {
    BlankSkipped(rest);
    if t == "B" {
      assert (t + " " + rest)[1..] == " " + rest;
    } else if IsWord(t) && t[0] != 'B' {
      WordThenBlank(t, rest);
    } else if IsLabelDeclaration(t) {
      LabelThenBlank(t, rest);
    } else {
      LiteralThenBlank(t, rest);
    }
  }

  lemma BlankSkipped(rest: string)
    ensures Tokens(" " + rest) == Tokens(rest)
  {
    assert (" " + rest)[1..] == rest;
  }

  lemma WordThenBlank(t: string, rest: string)
    requires IsWord(t) && t[0] != 'B'
    ensures Tokens(t + " " + rest) == [t] + Tokens(" " + rest)
  {
    var s := t + " " + rest;
    WordRunStopsAt(t, " " + rest);
    assert s == t + (" " + rest);
    assert s[..|t|] == t;
    assert s[|t|..] == " " + rest;
  }

  lemma LabelThenBlank(t: string, rest: string)
    requires IsLabelDeclaration(t)
    ensures Tokens(t + " " + rest) == [t] + Tokens(" " + rest)
  {
    var s := t + " " + rest;
    var w := t[..|t| - 1];
    assert s == w + (":" + " " + rest);
    WordRunStopsAt(w, ":" + " " + rest);
    assert s[..|w| + 1] == t;
    assert s[|w| + 1..] == " " + rest;
  }

  lemma LiteralThenBlank(t: string, rest: string)
    requires IsLiteral(t)
    ensures Tokens(t + " " + rest) == [t] + Tokens(" " + rest)
  {
    var s := t + " " + rest;
    var d := t[1..];
    assert s[1..] == d + (" " + rest);
    DigitRunStopsAt(d, " " + rest);
    assert s[..|t|] == t;
    assert s[|t|..] == " " + rest;
  }

  /** Writing well-formed tokens out and tokenising the text gives the same tokens back. */
  lemma {:induction false} TokensOfJoin(ts: seq<string>)
    requires forall k :: 0 <= k < |ts| ==> WellFormedToken(ts[k])
    ensures Tokens(Join(ts)) == ts
  {
    if |ts| > 0 {
      TokensOfOne(ts[0], Join(ts[1..]));
      TokensOfJoin(ts[1..]);
    }
  }

  /**
    * A line starting with B always yields the lone token "B" first, so a label whose name
    * starts with B can neither be declared nor referenced: "BACK:" reads as a branch to
    * "ACK:", and "B BACK" as a branch to the label "B".
    */
  lemma BranchKeywordSplitsWords()
    ensures Tokenize("BACK:") == ["B", "ACK:"]
    ensures Tokenize("b back") == ["B", "B", "ACK"]
  {
    UpperOfSamples();
    LabelStartingWithB();
    BranchToLabelStartingWithB();
  }

  lemma UpperOfSamples()
    ensures Upper("BACK:") == "BACK:"
    ensures Upper("b back") == "B BACK"
  {
    assert Upper("BACK:") == "BACK:";
    assert Upper("b back") == "B BACK";
  }

  lemma LabelStartingWithB()
    ensures Tokens("BACK:") == ["B", "ACK:"]
  {
    AckLabel();
    assert "BACK:"[1..] == "ACK:";
  }

  lemma BranchToLabelStartingWithB()
    ensures Tokens("B BACK") == ["B", "B", "ACK"]
  {
    AckWord();
    assert "BACK"[1..] == "ACK";
    assert " BACK"[1..] == "BACK";
    assert "B BACK"[1..] == " BACK";
  }

  lemma AckLabel()
    ensures Tokens("ACK:") == ["ACK:"]
  {
    assert "ACK" + ":" == "ACK:";
    WordRunStopsAt("ACK", ":");
    assert "ACK:"[0] == 'A' && "ACK:"[3] == ':';
    assert "ACK:"[..4] == "ACK:";
    assert "ACK:"[4..] == "";
  }

  lemma AckWord()
    ensures Tokens("ACK") == ["ACK"]
  {
    assert WordRun("ACK") == 3;
    assert "ACK"[0] == 'A';
    assert "ACK"[..3] == "ACK";
    assert "ACK"[3..] == "";
  }

  /** A word not starting with B, then a character that ends it, is matched as exactly that word. */
  lemma WordThen(w: string, rest: string)
    requires IsWord(w) && w[0] != 'B'
    requires |rest| > 0 && !IsWordChar(rest[0]) && rest[0] != ':'
    ensures Tokens(w + rest) == [w] + Tokens(rest)
  {
    var s := w + rest;
    WordRunStopsAt(w, rest);
    assert s[..|w|] == w;
    assert s[|w|..] == rest;
  }

  /** A character no alternative can start with is skipped. */
  lemma Skipped(c: char, rest: string)
    requires c != 'B' && !IsWordChar(c) && c != '#'
    ensures Tokens([c] + rest) == Tokens(rest)
  {
    assert ([c] + rest)[1..] == rest;
  }

  /** A literal on its own is matched as exactly that literal. */
  lemma LiteralAlone(t: string)
    requires IsLiteral(t)
    ensures Tokens(t) == [t]
  {
    DigitRunAll(t[1..]);
    assert t[..|t|] == t;
    assert t[|t|..] == "";
  }

  lemma {:induction false} DigitRunAll(d: string)
    requires AllDigits(d)
    ensures DigitRun(d) == |d|
  {
    if |d| > 0 {
      DigitRunAll(d[1..]);
    }
  }

  /** A word followed by a blank. */
  lemma WordBlankThen(w: string, rest: string)
    requires IsWord(w) && w[0] != 'B'
    ensures Tokens(w + ([' '] + rest)) == [w] + Tokens(rest)
  {
    WordThen(w, [' '] + rest);
    Skipped(' ', rest);
  }

  /** A word followed by a comma and a blank, as operands are written. */
  lemma WordCommaThen(w: string, rest: string)
    requires IsWord(w) && w[0] != 'B'
    ensures Tokens(w + ([','] + ([' '] + rest))) == [w] + Tokens(rest)
  {
    WordThen(w, [','] + ([' '] + rest));
    Skipped(',', [' '] + rest);
    Skipped(' ', rest);
  }
}
