/** From text to value: an expression written out without spaces is cut by
    `tokenize` into exactly the tokens that spell it, so evaluating the
    text gives the value of the tree. Since whitespace never matters to the
    tokenizer, the same holds for any spacing of that text. */
module Rendering {
  import opened Evaluator
  import opened Grammar
  import Tokenizer

  /** Each literal and variable name is one tokenizer word (so it holds no
      whitespace, no `=` and no sign inside: `1e-5` is cut at the `-`), and
      each operator is a single symbol character. */
  predicate WordAtoms(e: Expr) {
    match e
    case Literal(t) => Tokenizer.IsWord(t)
    case Variable(n) => Tokenizer.IsWord(n)
    case Binary(op, l, r) => Tokenizer.IsSymbolToken(op) && WordAtoms(l) && WordAtoms(r)
    case Group(g) => WordAtoms(g)
  }

  /** The expression as text, tokens written one after the other. */
  function Render(e: Expr): string {
    Tokenizer.Concat(Spelled(e))
  }

  /** Joining two token sequences around a symbol keeps them well formed
      and keeps words apart. */
  lemma JoinAround(a: seq<string>, sym: string, b: seq<string>)
    requires Tokenizer.WellFormed(a) && Tokenizer.NoAdjacentWords(a)
    requires Tokenizer.WellFormed(b) && Tokenizer.NoAdjacentWords(b)
    requires Tokenizer.IsSymbolToken(sym)
    ensures Tokenizer.WellFormed(a + [sym] + b) && Tokenizer.NoAdjacentWords(a + [sym] + b)
  {
    Tokenizer.SymbolIsNotWord(sym);
    var t := a + [sym] + b;
    forall i | 0 < i < |t|
      ensures !Tokenizer.IsWord(t[i - 1]) || !Tokenizer.IsWord(t[i])
    {
      if i < |a| {
        assert t[i - 1] == a[i - 1] && t[i] == a[i];
      } else if i > |a| + 1 {
        assert t[i - 1] == b[i - 2 - |a|] && t[i] == b[i - 1 - |a|];
      }
    }
  }

  /** The tokens spelling an expression are what the tokenizer emits. */
  lemma {:induction false} SpelledWellFormed(e: Expr)
    requires WordAtoms(e)
    ensures Tokenizer.WellFormed(Spelled(e)) && Tokenizer.NoAdjacentWords(Spelled(e))
  {
    match e
    case Literal(t) =>
    case Variable(n) =>
    case Binary(op, l, r) =>
      SpelledWellFormed(l);
      SpelledWellFormed(r);
      JoinAround(Spelled(l), op, Spelled(r));
    case Group(g) =>
      SpelledWellFormed(g);
      assert Tokenizer.IsSymbolToken("(") && Tokenizer.IsSymbolToken(")");
      JoinAround([], "(", Spelled(g));
      assert [] + ["("] + Spelled(g) == ["("] + Spelled(g);
      JoinAround(["("] + Spelled(g), ")", []);
      assert ["("] + Spelled(g) + [")"] + [] == Spelled(e);
  }

  /** Tokenizing the rendered text gives back the tokens of the tree, and
      evaluating them gives the value of the tree, for the text as rendered
      and for every spacing of it. */
  lemma RenderedEvaluates(e: Expr, vars: Env, text: string)
    requires Grammatical(e) && WordAtoms(e) && NoOperatorNames(vars)
    requires Tokenizer.Strip(text) == Render(e)
    ensures Tokenizer.TokensOf(Render(e)) == Spelled(e)
    ensures Tokenizer.TokensOf(text) == Spelled(e)
    ensures Evaluate(Tokenizer.TokensOf(text), vars) == Eval(e, vars)
  {
    SpelledWellFormed(e);
    Tokenizer.TokensOfConcat(Spelled(e));
    Tokenizer.ConcatHasNoWhitespace(Spelled(e));
    Tokenizer.StripWithoutWhitespace(Render(e));
    Tokenizer.WhitespaceIrrelevant(text, Render(e));
    EvaluateSpelled(e, vars);
  }
}
