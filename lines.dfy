/** Whole lines typed at the prompt: from the text through the tokenizer
    to the value, and a short session in which an assignment is read back. */
module Lines {
  import opened Common
  import opened Numbers
  import opened Tokenizer
  import opened Evaluator
  import opened Grammar
  import opened Session
  import opened Examples

  /** Whitespace between two words does not separate them: `2 3` is the
      single token `23`, and `x 1` the single name `x1`. */
  lemma BlankJoinsWords(a: string, gap: string, b: string)
    requires IsWord(a) && IsWord(b)
    requires forall i :: 0 <= i < |gap| ==> IsWhitespace(gap[i])
    ensures TokensOf(a + gap + b) == [a + b]
  {
    StripWithoutWhitespace(a);
    StripWithoutWhitespace(b);
    StripBlank(gap);
    StripAppend(a, gap);
    StripAppend(a + gap, b);
    assert a + "" == a;
    var w := a + b;
    assert forall i :: 0 <= i < |w| ==> IsWordChar(w[i]) by {
      forall i | 0 <= i < |w|
        ensures IsWordChar(w[i])
      {
        if i < |a| {
          assert w[i] == a[i];
        } else {
          assert w[i] == b[i - |a|];
        }
      }
    }
    StripWithoutWhitespace(w);
    ConcatSingle(w);
    TokensOfConcat([w]);
    WhitespaceIrrelevant(a + gap + b, w);
  }

  /** Four tokens written one after the other. */
  lemma ConcatFour(a: string, b: string, c: string, d: string)
    ensures Concat([a, b, c, d]) == a + b + c + d
  {
    ConcatSingle(d);
    assert [c, d][1..] == [d];
    assert Concat([c, d]) == c + d;
    assert [b, c, d][1..] == [c, d];
    assert Concat([b, c, d]) == b + (c + d);
    assert [a, b, c, d][1..] == [b, c, d];
    assert Concat([a, b, c, d]) == a + (b + (c + d));
  }

  /** The line `1+-2` is cut into `1`, `+`, `-`, `2` and fails with
      `Invalid expression`: there is no unary minus, and the `-` applies the
      pending `+` to the single value 1. */
  lemma PlusMinusLine()
    ensures TokensOf("1+-2") == ["1", "+", "-", "2"]
    ensures Evaluate(TokensOf("1+-2"), map[]) == Err(InvalidExpression)
  {
    var ts := ["1", "+", "-", "2"];
    assert IsWord("1") && IsWord("2");
    assert IsSymbolToken("+") && IsSymbolToken("-");
    ConcatFour("1", "+", "-", "2");
    assert "1" + "+" + "-" + "2" == "1+-2";
    TokensOfConcat(ts);
    DigitStringParses("1");
    DoubledOperator("1", "+", "-", "2", map[]);
  }

  /** The line `2*(3` leaves its `(` open; the final loop applies it like
      an operator and the line fails with `Unknown operator`. */
  lemma OpenParenLine()
    ensures TokensOf("2*(3") == ["2", "*", "(", "3"]
    ensures Evaluate(TokensOf("2*(3"), map[]) == Err(UnknownOperator)
  {
    var ts := ["2", "*", "(", "3"];
    assert IsWord("2") && IsWord("3");
    assert IsSymbolToken("*") && IsSymbolToken("(");
    ConcatFour("2", "*", "(", "3");
    assert "2" + "*" + "(" + "3" == "2*(3";
    TokensOfConcat(ts);
    DigitStringParses("2");
    DigitStringParses("3");
    UnclosedParen("2", "*", "3", map[]);
  }

  /** `x` is a name: not a number, not a parenthesis, not an operator. */
  lemma NameX()
    ensures ParseNum("x") == None && !IsOperatorText("x")
  {
    NotANumber("x");
  }

  /** `x = 5` answers 5 and stores it under `x`. */
  lemma AssignFive()
    ensures Outcome(["x", "=", "5"], map[]) == Ok(5.0)
    ensures Assigned(["x", "=", "5"], map[]) == map["x" := 5.0]
  {
    DigitStringParses("5");
    assert ["x", "=", "5"][2..] == ["5"];
    SingleToken("5", map[]);
  }

  /** `x+1` as a tree: well formed, spelled by the tokens of the line. */
  lemma SumOfX()
    ensures Spelled(Binary("+", Variable("x"), Literal("1"))) == ["x", "+", "1"]
    ensures Grammatical(Binary("+", Variable("x"), Literal("1")))
  {
    NameX();
    DigitStringParses("1");
  }

  /** With `x` holding 5, the tree `x+1` has the value 6. */
  lemma SumOfXValue()
    ensures Eval(Binary("+", Variable("x"), Literal("1")), map["x" := 5.0]) == Ok(6.0)
  {
    DigitStringParses("1");
    assert DigitsValue("1") == 1;
  }

  /** With `x` holding 5, `x+1` answers 6. */
  lemma ReadSix()
    ensures Outcome(["x", "+", "1"], map["x" := 5.0]) == Ok(6.0)
  {
    SumOfX();
    SumOfXValue();
    EvaluateSpelled(Binary("+", Variable("x"), Literal("1")), map["x" := 5.0]);
    assert !IsAssignment(["x", "+", "1"]);
  }

  /** A session of two lines: `x = 5` answers 5 and stores it; `x+1` then
      answers 6. */
  method AssignThenUse() returns (first: Result<real>, second: Result<real>)
    ensures first == Ok(5.0) && second == Ok(6.0)
  {
    var session := new Calculator();
    AssignFive();
    first := session.ParseExpr(["x", "=", "5"]);
    ReadSix();
    second := session.ParseExpr(["x", "+", "1"]);
  }
}
