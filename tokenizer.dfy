/** The tokenizer, `tokenize` (calculator.rs:4-27): one left-to-right pass
    over the characters of a line that drops whitespace, emits each of
    `+ - * / = ( )` as a token of its own, and gathers every other run of
    characters into one token (a number or a name; they are told apart only
    later, by the evaluator). */
module Tokenizer {
  import opened Common

  /** Rust's `char::is_whitespace`: the characters with the Unicode
      White_Space property. */
  predicate IsWhitespace(c: char) {
    ('\t' <= c <= '\r') || c == ' ' || c == '\U{85}' || c == '\U{A0}' || c == '\U{1680}'
    || ('\U{2000}' <= c <= '\U{200A}') || c == '\U{2028}' || c == '\U{2029}'
    || c == '\U{202F}' || c == '\U{205F}' || c == '\U{3000}'
  }

  /** The seven characters that always stand alone as a token. */
  predicate IsSymbol(c: char) {
    c in "+-*/=()"
  }

  /** A character that is gathered into a multi-character token. */
  predicate IsWordChar(c: char) {
    !IsWhitespace(c) && !IsSymbol(c)
  }

  /** A number or name token: a non-empty run of word characters. */
  predicate IsWord(t: string) {
    |t| > 0 && forall i :: 0 <= i < |t| ==> IsWordChar(t[i])
  }

  /** A token made of one symbol character. */
  predicate IsSymbolToken(t: string) {
    |t| == 1 && IsSymbol(t[0])
  }

  /** Every token is a word or a single symbol (so none is empty). */
  predicate WellFormed(ts: seq<string>) {
    forall i :: 0 <= i < |ts| ==> IsWord(ts[i]) || IsSymbolToken(ts[i])
  }

  /** Words are maximal: no two of them are next to each other. */
  predicate NoAdjacentWords(ts: seq<string>) {
    forall i :: 0 < i < |ts| ==> !IsWord(ts[i - 1]) || !IsWord(ts[i])
  }

  /** The tokens written one after the other. */
  function Concat(ts: seq<string>): string {
    if ts == [] then "" else ts[0] + Concat(ts[1..])
  }

  /** The line with every whitespace character removed. */
  function Strip(s: string): string {
    if s == [] then "" else Strip(DropLast(s)) + (if IsWhitespace(Last(s)) then "" else [Last(s)])
  }

  /** The accumulation buffer as the tokens it contributes when flushed. */
  function Flush(current: string): seq<string> {
    if current == "" then [] else [current]
  }

  /** The tokens emitted and the buffer left after the pass has read `s`. */
  function Lex(s: string): (seq<string>, string) {
    if s == [] then ([], "")
    else
      var (tokens, current) := Lex(DropLast(s));
      var c := Last(s);
      if IsWhitespace(c) then (tokens, current)
      else if IsSymbol(c) then (tokens + Flush(current) + [[c]], "")
      else (tokens, current + [c])
  }

  /** The tokens of a line: those emitted during the pass and the final
      flush of the buffer. */
  function TokensOf(s: string): seq<string> {
    var (tokens, current) := Lex(s);
    tokens + Flush(current)
  }

  /** `tokenize`: the loop over the characters with the buffer `current`. */
  method Tokenize(input: string) returns (tokens: seq<string>)
    ensures tokens == TokensOf(input)
    ensures WellFormed(tokens) && NoAdjacentWords(tokens)
    ensures Concat(tokens) == Strip(input)
  {
    tokens := [];
    var current := "";
    for i := 0 to |input|
      invariant (tokens, current) == Lex(input[..i])
    {
      var c := input[i];
      assert input[..i + 1] == input[..i] + [c];
      LexSnoc(input[..i], c);
      ghost var next := Lex(input[..i + 1]);
      if IsWhitespace(c) {
        assert next == (tokens, current);
        continue;
      } else if IsSymbol(c) {
        assert next == (tokens + Flush(current) + [[c]], "");
        if current != "" {
          tokens := tokens + [current];
          current := "";
        } else {
          assert tokens + Flush(current) == tokens;
        }
        tokens := tokens + [[c]];
      } else {
        current := current + [c];
      }
      assert (tokens, current) == next;
    }
    assert input[..|input|] == input;
    if current != "" {
      tokens := tokens + [current];
    }
    TokensOfShape(input);
  }

  /** One more character read by the pass. */
  lemma LexSnoc(s: string, c: char)
    ensures Lex(s + [c]) ==
      var (tokens, current) := Lex(s);
      if IsWhitespace(c) then (tokens, current)
      else if IsSymbol(c) then (tokens + Flush(current) + [[c]], "")
      else (tokens, current + [c])
  {
    assert DropLast(s + [c]) == s && Last(s + [c]) == c;
  }

  lemma SymbolIsNotWord(t: string)
    requires IsSymbolToken(t)
    ensures !IsWord(t)
  {
    assert !IsWordChar(t[0]);
  }

  lemma {:induction false} ConcatAppend(a: seq<string>, b: seq<string>)
    ensures Concat(a + b) == Concat(a) + Concat(b)
  {
    if a != [] {
      assert (a + b)[0] == a[0] && (a + b)[1..] == a[1..] + b;
      ConcatAppend(a[1..], b);
      calc {
        Concat(a + b);
        a[0] + Concat(a[1..] + b);
        a[0] + (Concat(a[1..]) + Concat(b));
        (a[0] + Concat(a[1..])) + Concat(b);
      }
    } else {
      assert a + b == b;
    }
  }

  lemma ConcatSingle(t: string)
    ensures Concat([t]) == t
  {
    assert [t][1..] == [];
  }

  /** What holds of the emitted tokens `t` and the buffer after the pass
      has read a prefix whose stripped form is `stripped`: the tokens are
      well formed and end with a symbol, the buffer holds word characters,
      and together they spell `stripped`. */
  predicate LexState(t: seq<string>, current: string, stripped: string) {
    WellFormed(t) && NoAdjacentWords(t) && (t == [] || IsSymbolToken(Last(t)))
    && (current == "" || IsWord(current))
    && Concat(t) + current == stripped
  }

  /** A symbol flushes the buffer and stands alone. */
  lemma SymbolStep(t: seq<string>, current: string, c: char, stripped: string)
    requires LexState(t, current, stripped) && IsSymbol(c)
    ensures LexState(t + Flush(current) + [[c]], "", stripped + [c])
  {
    var t' := t + Flush(current) + [[c]];
    ConcatAppend(t + Flush(current), [[c]]);
    ConcatAppend(t, Flush(current));
    ConcatSingle([c]);
    if current != "" {
      ConcatSingle(current);
    }
    assert Concat(t') == stripped + [c];
    assert Last(t') == [c];
    forall i | 0 < i < |t'|
      ensures !IsWord(t'[i - 1]) || !IsWord(t'[i])
    {
      if i < |t| {
        assert t'[i - 1] == t[i - 1] && t'[i] == t[i];
      } else if i == |t| {
        assert t'[i - 1] == Last(t);
        SymbolIsNotWord(Last(t));
      } else {
        assert t'[i] == [c];
        SymbolIsNotWord([c]);
      }
    }
  }

  /** A word character joins the buffer. */
  lemma WordStep(t: seq<string>, current: string, c: char, stripped: string)
    requires LexState(t, current, stripped) && IsWordChar(c)
    ensures LexState(t, current + [c], stripped + [c])
  {
    assert Concat(t) + (current + [c]) == (Concat(t) + current) + [c];
  }

  /** The pass keeps its invariant over every prefix of the line. */
  lemma {:induction false} LexInvariant(s: string)
    ensures LexState(Lex(s).0, Lex(s).1, Strip(s))
  {
    if s != [] {
      var p := DropLast(s);
      var c := Last(s);
      LexInvariant(p);
      assert s == p + [c];
      LexSnoc(p, c);
      StripSnoc(p, c);
      var (t, current) := Lex(p);
      if IsWhitespace(c) {
      } else if IsSymbol(c) {
        SymbolStep(t, current, c, Strip(p));
      } else {
        WordStep(t, current, c, Strip(p));
      }
    }
  }

  /** The three promises of `tokenize`: every token is a word or a single
      symbol (none is empty, and each symbol character stands alone), words
      are maximal, and the tokens spell the line without whitespace, in
      order, with nothing lost or repeated. */
  lemma TokensOfShape(s: string)
    ensures WellFormed(TokensOf(s)) && NoAdjacentWords(TokensOf(s))
    ensures Concat(TokensOf(s)) == Strip(s)
  {
    LexInvariant(s);
    var (t, current) := Lex(s);
    ConcatAppend(t, Flush(current));
    if current != "" {
      ConcatSingle(current);
    }
  }

  lemma ConcatLength(t: seq<string>)
    ensures t != [] ==> |Concat(t)| >= |t[0]|
  {
  }

  /** In a well-formed token list, the character right after a leading word
      (if any) is a symbol. */
  lemma AfterFirstWord(t: seq<string>)
    requires WellFormed(t) && NoAdjacentWords(t)
    requires |t| > 0 && IsWord(t[0]) && |Concat(t)| > |t[0]|
    ensures IsSymbol(Concat(t)[|t[0]|])
  {
    assert Concat(t) == t[0] + Concat(t[1..]);
    assert t[1..] != [];
    assert Concat(t[1..]) == t[1] + Concat(t[2..]) by {
      assert t[1..][1..] == t[2..];
    }
    assert !IsWord(t[1]);
  }

  /** A line has exactly one well-formed, maximal tokenization: two token
      lists that both are well formed, both have no adjacent words and
      spell the same text are equal. */
  lemma {:induction false} TokenizationUnique(t1: seq<string>, t2: seq<string>)
    requires WellFormed(t1) && NoAdjacentWords(t1)
    requires WellFormed(t2) && NoAdjacentWords(t2)
    requires Concat(t1) == Concat(t2)
    ensures t1 == t2
    decreases |t1|
  {
    if t1 == [] && t2 == [] {
    } else if t1 == [] {
      ConcatLength(t2);
      assert false;
    } else if t2 == [] {
      ConcatLength(t1);
      assert false;
    } else {
      var c := Concat(t1);
      var w1, w2 := t1[0], t2[0];
      assert c == w1 + Concat(t1[1..]) && c == w2 + Concat(t2[1..]);
      assert c[0] == w1[0] && c[0] == w2[0];
      if IsSymbolToken(w1) || IsSymbolToken(w2) {
        assert w1 == [c[0]] && w2 == [c[0]];
      } else {
        if |w1| < |w2| {
          AfterFirstWord(t1);
          assert false;
        }
        if |w2| < |w1| {
          AfterFirstWord(t2);
          assert false;
        }
        assert w1 == c[..|w1|] == w2;
      }
      assert Concat(t1[1..]) == c[|w1|..] && Concat(t2[1..]) == c[|w2|..];
      TokenizationUnique(t1[1..], t2[1..]);
      assert t1 == [w1] + t1[1..] && t2 == [w2] + t2[1..];
    }
  }

  /** The tokenizer's output is characterised by its shape: a token list is
      `TokensOf(s)` if and only if it is well formed, has no adjacent words
      and spells `s` without whitespace. */
  lemma TokensOfCharacterized(s: string, ts: seq<string>)
    ensures ts == TokensOf(s) <==> WellFormed(ts) && NoAdjacentWords(ts) && Concat(ts) == Strip(s)
  {
    TokensOfShape(s);
    if WellFormed(ts) && NoAdjacentWords(ts) && Concat(ts) == Strip(s) {
      TokenizationUnique(ts, TokensOf(s));
    }
  }

  lemma {:induction false} StripWithoutWhitespace(s: string)
    requires forall i :: 0 <= i < |s| ==> !IsWhitespace(s[i])
    ensures Strip(s) == s
  {
    if s != [] {
      var p := DropLast(s);
      var c := Last(s);
      assert s == p + [c];
      assert !IsWhitespace(c);
      assert forall i :: 0 <= i < |p| ==> !IsWhitespace(p[i]) by {
        forall i | 0 <= i < |p|
          ensures !IsWhitespace(p[i])
        {
          assert p[i] == s[i];
        }
      }
      StripWithoutWhitespace(p);
      StripSnoc(p, c);
    }
  }

  /** One more character of the line: kept unless it is whitespace. */
  lemma StripSnoc(s: string, c: char)
    ensures Strip(s + [c]) == Strip(s) + (if IsWhitespace(c) then "" else [c])
  {
    assert DropLast(s + [c]) == s && Last(s + [c]) == c;
  }

  /** Stripping works piecewise. */
  lemma {:induction false} StripAppend(a: string, b: string)
    ensures Strip(a + b) == Strip(a) + Strip(b)
    decreases |b|
  {
    if b == [] {
      assert a + b == a;
    } else {
      var p := DropLast(b);
      var c := Last(b);
      assert b == p + [c];
      assert a + b == (a + p) + [c];
      StripSnoc(a + p, c);
      StripAppend(a, p);
      StripSnoc(p, c);
    }
  }

  /** A run of whitespace strips to nothing. */
  lemma {:induction false} StripBlank(s: string)
    requires forall i :: 0 <= i < |s| ==> IsWhitespace(s[i])
    ensures Strip(s) == ""
  {
    if s != [] {
      var p := DropLast(s);
      assert forall i :: 0 <= i < |p| ==> p[i] == s[i];
      StripBlank(p);
    }
  }

  lemma {:induction false} StripHasNoWhitespace(s: string)
    ensures forall i :: 0 <= i < |Strip(s)| ==> !IsWhitespace(Strip(s)[i])
  {
    if s != [] {
      StripHasNoWhitespace(DropLast(s));
    }
  }

  /** Whitespace never separates tokens: two lines that differ only in
      whitespace tokenize alike, and a line tokenizes like its stripped
      form (so `2 + 3` and `2+3` give the same tokens, and `2 3` gives
      the single token `23`). */
  lemma WhitespaceIrrelevant(s1: string, s2: string)
    requires Strip(s1) == Strip(s2)
    ensures TokensOf(s1) == TokensOf(s2)
    ensures TokensOf(s1) == TokensOf(Strip(s1))
  {
    TokensOfShape(s1);
    TokensOfShape(s2);
    TokenizationUnique(TokensOf(s1), TokensOf(s2));
    StripHasNoWhitespace(s1);
    StripWithoutWhitespace(Strip(s1));
    TokensOfShape(Strip(s1));
    TokenizationUnique(TokensOf(s1), TokensOf(Strip(s1)));
  }

  lemma {:induction false} ConcatHasNoWhitespace(ts: seq<string>)
    requires WellFormed(ts)
    ensures forall i :: 0 <= i < |Concat(ts)| ==> !IsWhitespace(Concat(ts)[i])
  {
    if ts != [] {
      ConcatHasNoWhitespace(ts[1..]);
      assert Concat(ts) == ts[0] + Concat(ts[1..]);
      forall i | 0 <= i < |Concat(ts)|
        ensures !IsWhitespace(Concat(ts)[i])
      {
        if i >= |ts[0]| {
          assert Concat(ts)[i] == Concat(ts[1..])[i - |ts[0]|];
        }
      }
    }
  }

  /** Writing well-formed tokens with no adjacent words one after the other
      and tokenizing the text gives the tokens back. */
  lemma TokensOfConcat(ts: seq<string>)
    requires WellFormed(ts) && NoAdjacentWords(ts)
    ensures TokensOf(Concat(ts)) == ts
  {
    ConcatHasNoWhitespace(ts);
    StripWithoutWhitespace(Concat(ts));
    TokensOfCharacterized(Concat(ts), ts);
  }
}
