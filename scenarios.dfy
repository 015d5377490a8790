/**
 Whole-calculator scenarios: concrete inputs run through the tokenizer,
 the shunting-yard conversion and the evaluator, showing precedence,
 left associativity, parentheses, whitespace, decimals and the error
 paths.

 Each input string is a parameter pinned by `requires s == "..."` rather
 than a literal in the body, so the solver sees one named string and
 unfolds the tokenizer on it once. Digits lists the single-digit values
 the scenarios write down, so that each case's rendering is computed from
 a known value.
 */
module Scenarios {
  import opened Tokens
  import opened Numerals
  import opened Tokenizer
  import opened Converter
  import opened Evaluator
  import opened Pipeline

  /** When the tokens of an input are those of a well-formed expression, the calculator yields its value. */
  lemma CalculateTokens(s: string, e: Expr)
    requires WellFormed(e) && Lex(s) == Ok(Infix(e))
    ensures ToPostfix(Lex(s).value) == Postfix(e)
    ensures Calculate(s) == Value(e)
  {
    PostfixOfInfix(e);
    EvaluatePostfixOrder(e);
  }

  /** The written form of a well-formed expression goes through the calculator as that expression. */
  lemma CalculateWritten(s: string, e: Expr)
    requires WellFormed(e) && Printable(e) && Render(e) == s
    ensures Lex(s).Ok? && ToPostfix(Lex(s).value) == Postfix(e)
    ensures Calculate(s) == Value(e)
  {
    LexRender(e);
    CalculateTokens(s, e);
  }

  /** A single digit written down. */
  lemma Digits(v: real)
    requires v == 0.0 || v == 1.0 || v == 2.0 || v == 3.0 || v == 4.0 || v == 5.0 || v == 6.0 || v == 8.0
    ensures Printable(Num(v))
    ensures v == 0.0 ==> Render(Num(v)) == "0"
    ensures v == 1.0 ==> Render(Num(v)) == "1"
    ensures v == 2.0 ==> Render(Num(v)) == "2"
    ensures v == 3.0 ==> Render(Num(v)) == "3"
    ensures v == 4.0 ==> Render(Num(v)) == "4"
    ensures v == 5.0 ==> Render(Num(v)) == "5"
    ensures v == 6.0 ==> Render(Num(v)) == "6"
    ensures v == 8.0 ==> Render(Num(v)) == "8"
  {
  }

  const SumOfProduct := Bin('+', Num(2.0), Bin('*', Num(3.0), Num(4.0)))

  lemma SumOfProductWritten()
    ensures WellFormed(SumOfProduct) && Printable(SumOfProduct) && Render(SumOfProduct) == "2+3*4"
  {
    Digits(2.0); Digits(3.0); Digits(4.0);
  }

  /** Multiplication binds tighter than addition: 2+3*4 is 2 3 4 * + and yields 14. */
  lemma Precedence(s: string)
    requires s == "2+3*4"
    ensures Lex(s).Ok?
    ensures ToPostfix(Lex(s).value) ==
            [Number(2.0), Number(3.0), Number(4.0), Operation('*'), Operation('+')]
    ensures Calculate(s) == Ok(14.0)
  {
    SumOfProductWritten();
    CalculateWritten(s, SumOfProduct);
    assert Value(Bin('*', Num(3.0), Num(4.0))) == Ok(12.0);
  }

  const Difference := Bin('-', Bin('-', Num(6.0), Num(3.0)), Num(2.0))

  lemma DifferenceWritten()
    ensures WellFormed(Difference) && Printable(Difference) && Render(Difference) == "6-3-2"
  {
    Digits(6.0); Digits(3.0); Digits(2.0);
  }

  /** Operators of equal priority group to the left: 6-3-2 is 6 3 - 2 - and yields 1, not 5. */
  lemma LeftAssociative(s: string)
    requires s == "6-3-2"
    ensures Lex(s).Ok?
    ensures ToPostfix(Lex(s).value) ==
            [Number(6.0), Number(3.0), Operation('-'), Number(2.0), Operation('-')]
    ensures Calculate(s) == Ok(1.0)
  {
    DifferenceWritten();
    CalculateWritten(s, Difference);
  }

  const Quotient := Bin('/', Bin('/', Num(8.0), Num(4.0)), Num(2.0))

  lemma QuotientWritten()
    ensures WellFormed(Quotient) && Printable(Quotient) && Render(Quotient) == "8/4/2"
  {
    Digits(8.0); Digits(4.0); Digits(2.0);
  }

  /** Division groups to the left too: 8/4/2 yields 1, not 4. */
  lemma LeftAssociativeDivision(s: string)
    requires s == "8/4/2"
    ensures Calculate(s) == Ok(1.0)
  {
    QuotientWritten();
    CalculateWritten(s, Quotient);
    assert Value(Bin('/', Num(8.0), Num(4.0))) == Ok(2.0);
  }

  const Grouped := Bin('*', Paren(Bin('+', Num(2.0), Num(3.0))), Num(4.0))

  lemma GroupedWritten()
    ensures WellFormed(Grouped) && Printable(Grouped) && Render(Grouped) == "(2+3)*4"
  {
    Digits(2.0); Digits(3.0); Digits(4.0);
  }

  /** Parentheses override precedence: (2+3)*4 is 2 3 + 4 * and yields 20. */
  lemma Parenthesised(s: string)
    requires s == "(2+3)*4"
    ensures Lex(s).Ok?
    ensures ToPostfix(Lex(s).value) ==
            [Number(2.0), Number(3.0), Operation('+'), Number(4.0), Operation('*')]
    ensures Calculate(s) == Ok(20.0)
  {
    GroupedWritten();
    CalculateWritten(s, Grouped);
  }

  const ByZero := Bin('/', Num(5.0), Num(0.0))

  lemma ByZeroWritten()
    ensures WellFormed(ByZero) && Printable(ByZero) && Render(ByZero) == "5/0"
  {
    Digits(5.0); Digits(0.0);
  }

  /** Dividing by zero is reported, not computed. */
  lemma DivisionByZero(s: string)
    requires s == "5/0"
    ensures Calculate(s) == Err(DivideByZero)
  {
    ByZeroWritten();
    CalculateWritten(s, ByZero);
  }

  /** A run with two points is no number: 1.2.3 fails with InvalidNumber. */
  lemma TwoPoints(s: string)
    requires s == "1.2.3"
    ensures Lex(s) == Err(InvalidNumber)
    ensures Calculate(s) == Err(InvalidNumber)
  {
    assert !IsNumeral(s) by {
      assert s[1] == '.' && s[3] == '.';
    }
    assert s + [] == s;
    LexNumeralThen(s, []);
  }

  /** A point on its own has no digit and is no number either. */
  lemma LonePoint(s: string)
    requires s == "."
    ensures Lex(s) == Err(InvalidNumber)
    ensures Calculate(s) == Err(InvalidNumber)
  {
    assert s + [] == s;
    LexNumeralThen(s, []);
  }

  /** A numeral with one digit on each side of the point is read as whole + fraction / 10. */
  lemma ParseDecimal(s: string, whole: char, fraction: char)
    requires IsDigit(whole) && IsDigit(fraction) && s == [whole, '.', fraction]
    ensures ParseNumber(s) == Some(DigitValue(whole) as real + DigitValue(fraction) as real / 10.0)
  {
    assert IsDigit(s[0]);
    assert IsNumeral(s);
    var d := DotIndex(s);
    assert d == 1 by {
      assert s[0] != '.';
      assert s[1..][0] == '.';
      assert DotIndex(s[1..]) == 0;
    }
    var frac := s[d + 1..];
    assert s[..d] == [whole] && frac == [fraction];
    assert DigitsValue(s[..d]) == DigitValue(whole) by {
      assert [whole][..0] == [];
    }
    assert DigitsValue(frac) == DigitValue(fraction) by {
      assert [fraction][..0] == [];
    }
    assert Pow10(|frac|) as real == 10.0;
    assert ParseNumber(s) == Some(DigitsValue(s[..d]) as real + DigitsValue(frac) as real / Pow10(|frac|) as real);
    assert DigitsValue(frac) as real / Pow10(|frac|) as real == DigitValue(fraction) as real / 10.0;
  }

  /** A numeral with a fractional part lexes to one number. */
  lemma LexDecimal(s: string, whole: char, fraction: char)
    requires IsDigit(whole) && IsDigit(fraction) && s == [whole, '.', fraction]
    ensures Lex(s) == Ok([Number(DigitValue(whole) as real + DigitValue(fraction) as real / 10.0)])
  {
    var v := DigitValue(whole) as real + DigitValue(fraction) as real / 10.0;
    ParseDecimal(s, whole, fraction);
    assert forall k :: 0 <= k < |s| ==> IsNumChar(s[k]);
    assert s + [] == s;
    LexNumeralThen(s, []);
    assert Prepend([Number(v)], Lex([])) == Ok([Number(v)]) by {
      assert [Number(v)] + [] == [Number(v)];
    }
  }

  /** The tokens of "1.5+2.5". */
  lemma LexDecimals(s: string)
    requires s == "1.5+2.5"
    ensures Lex(s) == Ok(Infix(Bin('+', Num(1.5), Num(2.5))))
  {
    var left, right := s[..3], s[4..];
    LexDecimal(left, '1', '5');
    LexDecimal(right, '2', '5');
    LexOperation(left, '+', right, [Number(1.5)], [Number(2.5)]);
    assert s == left + ['+'] + right;
  }

  /** Decimal numbers: 1.5+2.5 yields 4. */
  lemma Decimals(s: string)
    requires s == "1.5+2.5"
    ensures Calculate(s) == Ok(4.0)
  {
    LexDecimals(s);
    CalculateTokens(s, Bin('+', Num(1.5), Num(2.5)));
  }

  /** The spaces of "2 + 3" yield no tokens and join no runs. */
  lemma SpacesSkipped(s: string, t: string)
    requires s == "2 + 3" && t == "2+3"
    ensures Lex(s) == Lex(t)
  {
    var a, b := s[..1], s[2..];
    assert s == a + [' '] + b;
    SeparatorIgnored(a, ' ', b);
    var u := a + b;
    assert u == u[..2] + [' '] + u[3..];
    SeparatorIgnored(u[..2], ' ', u[3..]);
    assert u[..2] + u[3..] == t;
  }

  /** 2+3 yields 5. */
  lemma Sum(t: string)
    requires t == "2+3"
    ensures Calculate(t) == Ok(5.0)
  {
    var e := Bin('+', Num(2.0), Num(3.0));
    Digits(2.0); Digits(3.0);
    assert Render(e) == t;
    CalculateWritten(t, e);
  }

  /** Spaces between tokens are skipped: "2 + 3" reads as "2+3" and yields 5. */
  lemma Spaces(s: string, t: string)
    requires s == "2 + 3" && t == "2+3"
    ensures Lex(s) == Lex(t)
    ensures Calculate(s) == Ok(5.0)
  {
    SpacesSkipped(s, t);
    Sum(t);
  }

  /** The converter passes through the given states, one token at a time. */
  lemma {:induction false} RunTrace(states: seq<State>, ts: seq<Token>)
    requires |states| == |ts| + 1
    requires forall i :: 0 <= i < |ts| ==> Step(states[i], ts[i]) == states[i + 1]
    ensures Run(states[0], ts) == states[|ts|]
    decreases |ts|
  {
    if ts != [] {
      RunTrace(states[1..], ts[1..]);
    }
  }

  /** The evaluator passes through the given stacks, one token at a time. */
  lemma {:induction false} EvalTrace(stacks: seq<seq<real>>, ts: seq<Token>)
    requires |stacks| == |ts| + 1
    requires forall i :: 0 <= i < |ts| ==> EvalStep(stacks[i], ts[i]) == Ok(stacks[i + 1])
    ensures EvalRun(stacks[0], ts) == Ok(stacks[|ts|])
    decreases |ts|
  {
    if ts != [] {
      EvalTrace(stacks[1..], ts[1..]);
    }
  }

  /** The evaluator passes through the given stacks and then fails on token k. */
  lemma {:induction false} EvalTraceFails(stacks: seq<seq<real>>, ts: seq<Token>, k: nat, e: Error)
    requires k < |ts| && |stacks| == k + 1
    requires forall i :: 0 <= i < k ==> EvalStep(stacks[i], ts[i]) == Ok(stacks[i + 1])
    requires EvalStep(stacks[k], ts[k]) == Err(e)
    ensures EvalRun(stacks[0], ts) == Err(e)
    decreases k
  {
    if k > 0 {
      EvalTraceFails(stacks[1..], ts[1..], k - 1, e);
    }
  }

  /** A single digit lexes to its number. */
  lemma LexDigit(s: string, d: char)
    requires IsDigit(d) && s == [d]
    ensures Lex(s) == Ok([Number(DigitValue(d) as real)])
  {
    assert IsNumeral(s) by {
      assert IsDigit(s[0]);
    }
    assert AllDigits(s);
    assert DigitsValue(s) == DigitValue(d) by {
      assert s[..0] == [];
    }
    assert s + [] == s;
    LexNumeralThen(s, []);
    assert [Number(DigitValue(d) as real)] + [] == [Number(DigitValue(d) as real)];
  }

  /** A character other than a digit or '.' in front of a string puts its own tokens in front. */
  lemma LexCons(c: char, rest: string, tokens: seq<Token>)
    requires !IsNumChar(c) && Lex(rest) == Ok(tokens)
    ensures Lex([c] + rest) == Ok(Emit(c) + tokens)
  {
    assert ([c] + rest)[1..] == rest;
  }

  /** A character other than a digit or '.' after a string adds its own tokens at the end. */
  lemma LexSnoc(body: string, c: char, tokens: seq<Token>)
    requires !IsNumChar(c) && Lex(body) == Ok(tokens)
    ensures Lex(body + [c]) == Ok(tokens + Emit(c))
  {
    LexAppend(body, [c]);
    LexOne(c);
  }

  /** The tokens of "*5". */
  lemma LexTimesFive(s: string)
    requires s == "*5"
    ensures Lex(s) == Ok([Operation('*'), Number(5.0)])
  {
    var right := s[1..];
    LexDigit(right, '5');
    assert s == [s[0]] + right;
    LexCons('*', right, [Number(5.0)]);
    assert Emit('*') + [Number(5.0)] == [Operation('*'), Number(5.0)];
  }

  /** The tokens of "1+2". */
  lemma LexOnePlusTwo(s: string)
    requires s == "1+2"
    ensures Lex(s) == Ok([Number(1.0), Operation('+'), Number(2.0)])
  {
    var left, right := s[..1], s[2..];
    LexDigit(left, '1');
    LexDigit(right, '2');
    assert s == left + ['+'] + right;
    LexOperation(left, '+', right, [Number(1.0)], [Number(2.0)]);
    assert [Number(1.0)] + [Operation('+')] + [Number(2.0)] == [Number(1.0), Operation('+'), Number(2.0)];
  }

  /** The tokens of "(1+2". */
  lemma LexOpenOnePlusTwo(s: string)
    requires s == "(1+2"
    ensures Lex(s) == Ok([Parenthesis('('), Number(1.0), Operation('+'), Number(2.0)])
  {
    var rest := s[1..];
    LexOnePlusTwo(rest);
    assert s == [s[0]] + rest;
    LexCons('(', rest, [Number(1.0), Operation('+'), Number(2.0)]);
    assert Emit('(') + [Number(1.0), Operation('+'), Number(2.0)] ==
           [Parenthesis('('), Number(1.0), Operation('+'), Number(2.0)];
  }

  /** The tokens of "2", "*" and "(1+2" put together. */
  lemma TwoTimesJoined(inner: seq<Token>)
    requires inner == [Parenthesis('('), Number(1.0), Operation('+'), Number(2.0)]
    ensures [Number(2.0)] + [Operation('*')] + inner ==
            [Number(2.0), Operation('*'), Parenthesis('('), Number(1.0), Operation('+'), Number(2.0)]
  {
  }

  /** The tokens of "2*(1+2". */
  lemma LexTwoTimesOpen(s: string)
    requires s == "2*(1+2"
    ensures Lex(s) == Ok([Number(2.0), Operation('*'), Parenthesis('('), Number(1.0), Operation('+'), Number(2.0)])
  {
    var left, right := s[..1], s[2..];
    LexDigit(left, '2');
    LexOpenOnePlusTwo(right);
    assert s == left + ['*'] + right;
    var inner := [Parenthesis('('), Number(1.0), Operation('+'), Number(2.0)];
    LexOperation(left, '*', right, [Number(2.0)], inner);
    TwoTimesJoined(inner);
  }

  /** The tokens of "1+2)". */
  lemma LexOnePlusTwoClose(s: string)
    requires s == "1+2)"
    ensures Lex(s) == Ok([Number(1.0), Operation('+'), Number(2.0), Parenthesis(')')])
  {
    var body := s[..3];
    LexOnePlusTwo(body);
    assert s == body + [')'];
    LexSnoc(body, ')', [Number(1.0), Operation('+'), Number(2.0)]);
    assert [Number(1.0), Operation('+'), Number(2.0)] + Emit(')') ==
           [Number(1.0), Operation('+'), Number(2.0), Parenthesis(')')];
  }

  /** An operator read first waits on the stack and is output after its only operand. */
  lemma ConvertTimesFive(tokens: seq<Token>)
    requires tokens == [Operation('*'), Number(5.0)]
    ensures ToPostfix(tokens) == [Number(5.0), Operation('*')]
  {
    RunTrace([State([], []), State([], ['*']), State([Number(5.0)], ['*'])], tokens);
    assert Drain(State([Number(5.0)], ['*'])) == [Number(5.0), Operation('*')];
  }

  /** An operator with nothing before it finds the stack empty: *5 is 5 * and fails with EmptyStack. */
  lemma MissingOperand(s: string)
    requires s == "*5"
    ensures Lex(s).Ok? && ToPostfix(Lex(s).value) == [Number(5.0), Operation('*')]
    ensures Calculate(s) == Err(EmptyStack)
  {
    LexTimesFive(s);
    ConvertTimesFive(Lex(s).value);
    EmptyStackExamples();
  }

  /** An opening parenthesis that is never closed is drained last, as an operation. */
  lemma ConvertOpenOnePlusTwo(tokens: seq<Token>)
    requires tokens == [Parenthesis('('), Number(1.0), Operation('+'), Number(2.0)]
    ensures ToPostfix(tokens) == [Number(1.0), Number(2.0), Operation('+'), Operation('(')]
  {
    var n1, n2 := Number(1.0), Number(2.0);
    RunTrace([State([], []), State([], ['(']), State([n1], ['(']), State([n1], ['(', '+']),
              State([n1, n2], ['(', '+'])], tokens);
    assert Drain(State([n1, n2], ['(', '+'])) == [n1, n2, Operation('+'), Operation('(')];
  }

  /** The drained parenthesis finds a single value below it. */
  lemma EvaluateOpenOnePlusTwo(postfix: seq<Token>)
    requires postfix == [Number(1.0), Number(2.0), Operation('+'), Operation('(')]
    ensures Evaluate(postfix) == Err(EmptyStack)
  {
    var none: seq<real> := [];
    assert none + [1.0] == [1.0] && [1.0] + [2.0] == [1.0, 2.0];
    assert EvalStep([1.0, 2.0], Operation('+')) == Ok([3.0]) by {
      assert [1.0, 2.0][..0] == none;
      assert none + [3.0] == [3.0];
    }
    EvalTraceFails([[], [1.0], [1.0, 2.0], [3.0]], postfix, 3, EmptyStack);
  }

  /**
   An unclosed parenthesis stays on the operator stack and is drained into
   the output as an operation: "(1+2" becomes 1 2 + ( and its evaluation
   finds only one operand for it.
   */
  lemma UnclosedParenthesis(s: string)
    requires s == "(1+2"
    ensures Lex(s).Ok?
    ensures ToPostfix(Lex(s).value) == [Number(1.0), Number(2.0), Operation('+'), Operation('(')]
    ensures Calculate(s) == Err(EmptyStack)
  {
    LexOpenOnePlusTwo(s);
    ConvertOpenOnePlusTwo(Lex(s).value);
    EvaluateOpenOnePlusTwo(ToPostfix(Lex(s).value));
  }

  /** The unclosed parenthesis is drained between the inner sum and the outer product. */
  lemma ConvertTwoTimesOpen(tokens: seq<Token>)
    requires tokens == [Number(2.0), Operation('*'), Parenthesis('('), Number(1.0), Operation('+'), Number(2.0)]
    ensures ToPostfix(tokens) ==
            [Number(2.0), Number(1.0), Number(2.0), Operation('+'), Operation('('), Operation('*')]
  {
    var n1, n2 := Number(1.0), Number(2.0);
    RunTrace([State([], []), State([n2], []), State([n2], ['*']), State([n2], ['*', '(']),
              State([n2, n1], ['*', '(']), State([n2, n1], ['*', '(', '+']), State([n2, n1, n2], ['*', '(', '+'])],
             tokens);
    assert Drain(State([n2, n1, n2], ['*', '(', '+'])) ==
           [n2, n1, n2, Operation('+'), Operation('('), Operation('*')];
  }

  /** With two values below it, the drained parenthesis reaches the arithmetic and is refused. */
  lemma EvaluateTwoTimesOpen(postfix: seq<Token>)
    requires postfix == [Number(2.0), Number(1.0), Number(2.0), Operation('+'), Operation('('), Operation('*')]
    ensures Evaluate(postfix) == Err(UnsupportedOperation('('))
  {
    var none: seq<real> := [];
    assert none + [2.0] == [2.0] && [2.0] + [1.0] == [2.0, 1.0] && [2.0, 1.0] + [2.0] == [2.0, 1.0, 2.0];
    assert EvalStep([2.0, 1.0, 2.0], Operation('+')) == Ok([2.0, 3.0]) by {
      assert [2.0, 1.0, 2.0][..1] == [2.0];
      assert ApplyOperation('+', 1.0, 2.0) == Ok(3.0);
      assert [2.0] + [3.0] == [2.0, 3.0];
    }
    EvalTraceFails([[], [2.0], [2.0, 1.0], [2.0, 1.0, 2.0], [2.0, 3.0]], postfix, 4, UnsupportedOperation('('));
  }

  /**
   With two operands below it, a drained parenthesis reaches the
   arithmetic: "2*(1+2" becomes 2 1 2 + ( * and fails with
   UnsupportedOperation('(').
   */
  lemma UnclosedParenthesisApplied(s: string)
    requires s == "2*(1+2"
    ensures Lex(s).Ok?
    ensures ToPostfix(Lex(s).value) ==
            [Number(2.0), Number(1.0), Number(2.0), Operation('+'), Operation('('), Operation('*')]
    ensures Calculate(s) == Err(UnsupportedOperation('('))
  {
    LexTwoTimesOpen(s);
    ConvertTwoTimesOpen(Lex(s).value);
    EvaluateTwoTimesOpen(ToPostfix(Lex(s).value));
  }

  /** A closing parenthesis with no opening one pops every operator and is dropped. */
  lemma ConvertOnePlusTwoClose(tokens: seq<Token>)
    requires tokens == [Number(1.0), Operation('+'), Number(2.0), Parenthesis(')')]
    ensures ToPostfix(tokens) == [Number(1.0), Number(2.0), Operation('+')]
  {
    var n1, n2 := Number(1.0), Number(2.0);
    RunTrace([State([], []), State([n1], []), State([n1], ['+']), State([n1, n2], ['+']),
              State([n1, n2, Operation('+')], [])], tokens);
    assert Drain(State([n1, n2, Operation('+')], [])) == [n1, n2, Operation('+')];
  }

  /** 1 2 + is 3. */
  lemma EvaluateOnePlusTwo(postfix: seq<Token>)
    requires postfix == [Number(1.0), Number(2.0), Operation('+')]
    ensures Evaluate(postfix) == Ok(3.0)
  {
    var none: seq<real> := [];
    assert none + [1.0] == [1.0] && [1.0] + [2.0] == [1.0, 2.0];
    assert EvalStep([1.0, 2.0], Operation('+')) == Ok([3.0]) by {
      assert [1.0, 2.0][..0] == none;
      assert none + [3.0] == [3.0];
    }
    EvalTrace([[], [1.0], [1.0, 2.0], [3.0]], postfix);
  }

  /** A closing parenthesis with no opening one only flushes the operators: "1+2)" yields 3. */
  lemma UnmatchedClose(s: string)
    requires s == "1+2)"
    ensures Lex(s).Ok?
    ensures ToPostfix(Lex(s).value) == [Number(1.0), Number(2.0), Operation('+')]
    ensures Calculate(s) == Ok(3.0)
  {
    LexOnePlusTwoClose(s);
    ConvertOnePlusTwoClose(Lex(s).value);
    EvaluateOnePlusTwo(ToPostfix(Lex(s).value));
  }
}
