/** `parse_expr` (calculator.rs:29-37) and the per-line work of the
    prompt loop (calculator.rs:128-129): a line is tokenized, and a line of
    the form `name = expression` stores the value of the expression under
    `name` in the variable map, which lives as long as the session. */
module Session {
  import opened Common
  import opened Numbers
  import Tokenizer
  import opened Evaluator

  /** An assignment: more than two tokens, the second of them `=`. */
  predicate IsAssignment(tokens: seq<string>) {
    |tokens| > 2 && tokens[1] == "="
  }

  /** The value of a line: the right-hand side of an assignment, otherwise
      the whole line. */
  function Outcome(tokens: seq<string>, vars: Env): Result<real> {
    if IsAssignment(tokens) then Evaluate(tokens[2..], vars) else Evaluate(tokens, vars)
  }

  /** The variable map after a line: an assignment that evaluates stores its
      value under the name (any first token is taken as a name); everything
      else leaves the map alone. */
  function Assigned(tokens: seq<string>, vars: Env): Env {
    if IsAssignment(tokens) && Outcome(tokens, vars).Ok? then vars[tokens[0] := Outcome(tokens, vars).value]
    else vars
  }

  /** The calculator's state: the variable map `main` creates once and
      lends to every line. */
  class Calculator {
    var vars: Env

    constructor ()
      ensures vars == map[]
    {
      vars := map[];
    }

    /** `parse_expr`: evaluates the line, and stores the value of an
        assignment; a failing assignment stores nothing. */
    method ParseExpr(tokens: seq<string>) returns (r: Result<real>)
      modifies this
      ensures r == Outcome(tokens, old(vars))
      ensures vars == Assigned(tokens, old(vars))
    {
      if |tokens| > 2 && tokens[1] == "=" {
        var name := tokens[0];
        r := EvalExpr(tokens[2..], vars);
        if r.Err? {
          return;
        }
        vars := vars[name := r.value];
        return;
      }
      r := EvalExpr(tokens, vars);
    }

    /** One line of the prompt loop, after the trimming and the `exit`
        test: tokenize, then `parse_expr`. */
    method Enter(line: string) returns (r: Result<real>)
      modifies this
      ensures r == Outcome(Tokenizer.TokensOf(line), old(vars))
      ensures vars == Assigned(Tokenizer.TokensOf(line), old(vars))
    {
      var tokens := Tokenizer.Tokenize(line);
      r := ParseExpr(tokens);
    }
  }

  /** Only a successful assignment changes the map, and then only at its
      name, to the value the line returns. */
  lemma AssignedChangesOnlyName(tokens: seq<string>, vars: Env)
    ensures Assigned(tokens, vars) != vars ==> IsAssignment(tokens) && Outcome(tokens, vars).Ok?
    ensures Outcome(tokens, vars).Err? ==> Assigned(tokens, vars) == vars
    ensures IsAssignment(tokens) && Outcome(tokens, vars).Ok? ==>
      tokens[0] in Assigned(tokens, vars) && Assigned(tokens, vars)[tokens[0]] == Outcome(tokens, vars).value
    ensures forall k :: k in vars && (!IsAssignment(tokens) || k != tokens[0]) ==>
      k in Assigned(tokens, vars) && Assigned(tokens, vars)[k] == vars[k]
    ensures Assigned(tokens, vars).Keys <= vars.Keys + (if IsAssignment(tokens) then {tokens[0]} else {})
  {
  }

  /** Reading a variable back: after `name = expression` evaluates to `v`,
      a line holding just the name evaluates to `v`, as long as the name
      is not itself a number (a numeric name such as `3` still reads as
      the number). */
  lemma AssignThenRead(tokens: seq<string>, vars: Env, v: real)
    requires IsAssignment(tokens) && Outcome(tokens, vars) == Ok(v)
    requires ParseNum(tokens[0]).None?
    ensures Outcome([tokens[0]], Assigned(tokens, vars)) == Ok(v)
  {
    var after := Assigned(tokens, vars);
    var st := Stacks([v], []);
    assert tokens[0] in after && after[tokens[0]] == v;
    assert Stacks([], []).values + [v] == [v];
    assert Step(tokens[0], after, Stacks([], [])) == Ok(st);
    assert Run([tokens[0]], after, Stacks([], [])) == Run([], after, st);
  }
}
