/**
 The three stages together. An arithmetic expression tree, written out
 with the usual conventions (multiplication and division bind tighter,
 equal priorities associate to the left, parentheses regroup), is what
 the calculator is meant to read. The theorems here say that for every
 such expression the tokenizer, the shunting-yard converter and the
 postfix evaluator agree with the tree: the tokens of its text are its
 infix tokens, their postfix form is the tree's postfix order, and the
 evaluation is the tree's value, with the same failure when a division by
 zero is met.
 */
module Pipeline {
  import opened Tokens
  import opened Numerals
  import opened Tokenizer
  import opened Converter
  import opened Evaluator

  /** An arithmetic expression as the calculator reads it. */
  datatype Expr =
    | Num(value: real)
    | Bin(op: char, left: Expr, right: Expr)
    | Paren(inner: Expr)

  /** The priority of an expression's outermost operator; literals and parenthesised expressions bind tightest. */
  function Prec(e: Expr): nat {
    match e
    case Bin(op, _, _) => Priority(op)
    case _ => 3
  }

  /**
   The trees the written form denotes without ambiguity: arithmetic
   operators only, a left operand that binds at least as tightly as its
   operator and a right operand that binds strictly tighter.
   */
  predicate WellFormed(e: Expr) {
    match e
    case Num(_) => true
    case Paren(inner) => WellFormed(inner)
    case Bin(op, l, r) =>
      IsArithmetic(op) && WellFormed(l) && WellFormed(r) && Prec(l) >= Priority(op) && Prec(r) > Priority(op)
  }

  /** The tokens of the written form. */
  function Infix(e: Expr): seq<Token> {
    match e
    case Num(v) => [Number(v)]
    case Paren(inner) => [Parenthesis('(')] + Infix(inner) + [Parenthesis(')')]
    case Bin(op, l, r) => Infix(l) + [Operation(op)] + Infix(r)
  }

  /** The postfix (reverse Polish) order: both operands, then the operator. */
  function Postfix(e: Expr): seq<Token> {
    match e
    case Num(v) => [Number(v)]
    case Paren(inner) => Postfix(inner)
    case Bin(op, l, r) => Postfix(l) + Postfix(r) + [Operation(op)]
  }

  /** The value of the tree; the left operand's failure comes first. */
  function Value(e: Expr): Result<real> {
    match e
    case Num(v) => Ok(v)
    case Paren(inner) => Value(inner)
    case Bin(op, l, r) =>
      if Value(l).Err? then Value(l)
      else if Value(r).Err? then Value(r)
      else ApplyOperation(op, Value(l).value, Value(r).value)
  }

  // ---------------------------------------------------------------------
  // The converter on a well-formed expression

  /** What the converter has output once it has read e. */
  function Settled(e: Expr): seq<Token> {
    match e
    case Num(v) => [Number(v)]
    case Paren(inner) => Postfix(inner)
    case Bin(_, l, r) => Postfix(l) + Settled(r)
  }

  /** The operators of e still on the stack once the converter has read e: its right spine. */
  function Residue(e: Expr): seq<char> {
    match e
    case Bin(op, _, r) => [op] + Residue(r)
    case _ => []
  }

  /** The residue holds arithmetic operators that bind at least as tightly as e. */
  lemma {:induction false} ResidueBound(e: Expr)
    requires WellFormed(e)
    ensures forall k :: 0 <= k < |Residue(e)| ==> IsArithmetic(Residue(e)[k]) && Priority(Residue(e)[k]) >= Prec(e)
  {
    match e
    case Num(_) =>
    case Paren(_) =>
    case Bin(op, l, r) =>
      ResidueBound(r);
      assert forall k :: 1 <= k < |Residue(e)| ==> Residue(e)[k] == Residue(r)[k - 1];
  }

  /** Draining the residue completes the postfix order. */
  lemma {:induction false} SettledThenResidue(e: Expr)
    ensures Postfix(e) == Settled(e) + Emitted(Residue(e))
  {
    match e
    case Num(v) =>
    case Paren(inner) =>
    case Bin(op, l, r) =>
      SettledThenResidue(r);
      EmittedAppend([op], Residue(r));
      assert Emitted([op]) == [Operation(op)];
  }

  /** An operation pops a run of entries that all bind at least as tightly, and stops below them. */
  lemma {:induction false} PopRun(out: seq<Token>, below: seq<char>, run: seq<char>, p: nat)
    requires forall k :: 0 <= k < |run| ==> Priority(run[k]) >= p
    requires below == [] || Priority(Top(below)) < p
    ensures PopAtLeast(State(out, below + run), p) == State(out + Emitted(run), below)
    decreases |run|
  {
    if run == [] {
      assert below + run == below;
    } else {
      var rest := run[..|run| - 1];
      var st := State(out, below + run);
      assert Top(st.stack) == run[|run| - 1];
      assert PopOne(st) == State(out + [Operation(run[|run| - 1])], below + rest);
      PopRun(out + [Operation(run[|run| - 1])], below, rest, p);
    }
  }

  /** A ')' pops a run without markers and stops at the '(' below it. */
  lemma {:induction false} CloseRun(out: seq<Token>, below: seq<char>, run: seq<char>)
    requires forall k :: 0 <= k < |run| ==> run[k] != '('
    ensures PopToOpen(State(out, below + ['('] + run)) == State(out + Emitted(run), below + ['('])
    decreases |run|
  {
    if run == [] {
      assert below + ['('] + run == below + ['('];
    } else {
      var rest := run[..|run| - 1];
      var st := State(out, below + ['('] + run);
      assert Top(st.stack) == run[|run| - 1];
      assert PopOne(st) == State(out + [Operation(run[|run| - 1])], below + ['('] + rest);
      CloseRun(out + [Operation(run[|run| - 1])], below, rest);
    }
  }

  lemma Associative<T>(a: seq<T>, b: seq<T>, c: seq<T>)
    ensures a + b + c == a + (b + c)
  {
  }

  /** Reading a single token is one step. */
  lemma RunOne(st: State, t: Token)
    ensures Run(st, [t]) == Step(st, t)
  {
    assert [t][1..] == [];
  }

  /** A ')' above a marker and a run without markers outputs the run and removes the marker. */
  lemma CloseStep(out: seq<Token>, below: seq<char>, run: seq<char>)
    requires forall k :: 0 <= k < |run| ==> run[k] != '('
    ensures Step(State(out, below + ['('] + run), Parenthesis(')')) == State(out + Emitted(run), below)
  {
    CloseRun(out, below, run);
    assert (below + ['('])[..|below|] == below;
  }

  /** Reading "(" inner ")" closes over what inner leaves, given what reading inner does. */
  lemma ParenStep(st: State, inner: Expr)
    requires forall k :: 0 <= k < |Residue(inner)| ==> Residue(inner)[k] != '('
    requires Run(State(st.out, st.stack + ['(']), Infix(inner)) ==
             State(st.out + Settled(inner), st.stack + ['('] + Residue(inner))
    ensures Run(st, Infix(Paren(inner))) == State(st.out + Postfix(inner), st.stack)
  {
    var opening, body, closing := [Parenthesis('(')], Infix(inner), [Parenthesis(')')];
    var inside := State(st.out + Settled(inner), st.stack + ['('] + Residue(inner));
    var closed := State(st.out + Settled(inner) + Emitted(Residue(inner)), st.stack);
    assert Run(st, opening + body) == inside by {
      RunOne(st, Parenthesis('('));
      RunAppend(st, opening, body);
    }
    assert Run(inside, closing) == closed by {
      RunOne(inside, Parenthesis(')'));
      CloseStep(st.out + Settled(inner), st.stack, Residue(inner));
    }
    assert Run(st, opening + body + closing) == closed by {
      RunAppend(st, opening + body, closing);
    }
    SettledThenResidue(inner);
    Associative(st.out, Settled(inner), Emitted(Residue(inner)));
  }

  /** An operation above a run that binds at least as tightly outputs the run and is pushed. */
  lemma OperationStep(out: seq<Token>, below: seq<char>, run: seq<char>, op: char)
    requires forall k :: 0 <= k < |run| ==> Priority(run[k]) >= Priority(op)
    requires below == [] || Priority(Top(below)) < Priority(op)
    ensures Step(State(out, below + run), Operation(op)) == State(out + Emitted(run), below + [op])
  {
    PopRun(out, below, run, Priority(op));
  }

  /** Reading l op r: the operator pops the residue of l and is pushed, then r is read above it. */
  lemma BinStep(st: State, op: char, l: Expr, r: Expr)
    requires forall k :: 0 <= k < |Residue(l)| ==> Priority(Residue(l)[k]) >= Priority(op)
    requires st.stack == [] || Priority(Top(st.stack)) < Priority(op)
    requires Run(st, Infix(l)) == State(st.out + Settled(l), st.stack + Residue(l))
    requires Run(State(st.out + Postfix(l), st.stack + [op]), Infix(r)) ==
             State(st.out + Postfix(l) + Settled(r), st.stack + [op] + Residue(r))
    ensures Run(st, Infix(Bin(op, l, r))) == State(st.out + Settled(Bin(op, l, r)), st.stack + Residue(Bin(op, l, r)))
  {
    var left, operator, right := Infix(l), [Operation(op)], Infix(r);
    var afterLeft := State(st.out + Settled(l), st.stack + Residue(l));
    var pushed := State(st.out + Postfix(l), st.stack + [op]);
    assert Run(afterLeft, operator) == pushed by {
      RunOne(afterLeft, Operation(op));
      OperationStep(st.out + Settled(l), st.stack, Residue(l), op);
      SettledThenResidue(l);
      Associative(st.out, Settled(l), Emitted(Residue(l)));
    }
    assert Run(st, left + operator) == pushed by {
      RunAppend(st, left, operator);
    }
    assert Run(st, left + operator + right) == State(st.out + Postfix(l) + Settled(r), st.stack + [op] + Residue(r)) by {
      RunAppend(st, left + operator, right);
    }
    Associative(st.out, Postfix(l), Settled(r));
    Associative(st.stack, [op], Residue(r));
  }

  /**
   Reading a well-formed expression on top of a stack whose top binds
   more loosely outputs its settled part and leaves its residue on the stack,
   whatever came before.
   */
  lemma {:induction false} RunInfix(st: State, e: Expr)
    requires WellFormed(e)
    requires st.stack == [] || Priority(Top(st.stack)) < Prec(e)
    ensures Run(st, Infix(e)) == State(st.out + Settled(e), st.stack + Residue(e))
    decreases e
  {
    match e
    case Num(v) =>
      assert Infix(e)[1..] == [];
      assert st.stack + [] == st.stack;
    case Paren(inner) =>
      ResidueBound(inner);
      RunInfix(State(st.out, st.stack + ['(']), inner);
      ParenStep(st, inner);
      assert st.stack + [] == st.stack;
    case Bin(op, l, r) =>
      ResidueBound(l);
      RunInfix(st, l);
      RunInfix(State(st.out + Postfix(l), st.stack + [op]), r);
      BinStep(st, op, l, r);
  }

  /** The converter turns the infix tokens of a well-formed expression into its postfix order. */
  lemma PostfixOfInfix(e: Expr)
    requires WellFormed(e)
    ensures ToPostfix(Infix(e)) == Postfix(e)
  {
    RunInfix(State([], []), e);
    SettledThenResidue(e);
    assert [] + Settled(e) == Settled(e) && [] + Residue(e) == Residue(e);
  }

  // ---------------------------------------------------------------------
  // The evaluator on a postfix order

  /** Evaluating the postfix order pushes the tree's value, or fails as the tree does. */
  lemma {:induction false} EvalPostfix(values: seq<real>, e: Expr)
    ensures EvalRun(values, Postfix(e)) == PushResult(values, Value(e))
    decreases e
  {
    match e
    case Num(v) =>
    case Paren(inner) => EvalPostfix(values, inner);
    case Bin(op, l, r) =>
      EvalAppend(values, Postfix(l) + Postfix(r), [Operation(op)]);
      EvalAppend(values, Postfix(l), Postfix(r));
      EvalPostfix(values, l);
      if Value(l).Ok? {
        var withLeft := values + [Value(l).value];
        EvalPostfix(withLeft, r);
        if Value(r).Ok? {
          OperandOrder(values, Value(l).value, Value(r).value, op);
          var both := withLeft + [Value(r).value];
          assert both[|both| - 2] == Value(l).value && both[|both| - 1] == Value(r).value;
          assert both[..|both| - 2] == values;
          assert EvalRun(both, [Operation(op)]) == EvalStep(both, Operation(op)) by {
            assert [Operation(op)][1..] == [];
          }
        }
      }
  }

  /** The value of the postfix order is the value of the tree. */
  lemma EvaluatePostfixOrder(e: Expr)
    ensures Evaluate(Postfix(e)) == Value(e)
  {
    EvalPostfix([], e);
    match Value(e)
    case Err(_) =>
    case Ok(v) => assert [] + [v] == [v];
  }

  // ---------------------------------------------------------------------
  // The tokenizer on the written form

  /** Expressions whose literals are natural numbers, which print without a point. */
  predicate Printable(e: Expr) {
    match e
    case Num(v) => v >= 0.0 && v == v.Floor as real
    case Paren(inner) => Printable(inner)
    case Bin(_, l, r) => Printable(l) && Printable(r)
  }

  /** The written form, without spaces. */
  function Render(e: Expr): string
    requires Printable(e)
  {
    match e
    case Num(v) => NatDigits(v.Floor)
    case Paren(inner) => "(" + Render(inner) + ")"
    case Bin(op, l, r) => Render(l) + [op] + Render(r)
  }

  /** A single character other than a digit or '.' lexes to its own tokens. */
  lemma LexOne(c: char)
    requires !IsNumChar(c)
    ensures Lex([c]) == Ok(Emit(c))
  {
    assert [c][1..] == [];
    assert Emit(c) + [] == Emit(c);
  }

  /** Lexing "(" body ")" brackets the tokens of body. */
  lemma LexParen(body: string, tokens: seq<Token>)
    requires Lex(body) == Ok(tokens)
    ensures Lex("(" + body + ")") == Ok([Parenthesis('(')] + tokens + [Parenthesis(')')])
  {
    Associative("(", body, ")");
    LexAppend("(", body + ")");
    LexAppend(body, ")");
    LexOne('(');
    LexOne(')');
    Associative([Parenthesis('(')], tokens, [Parenthesis(')')]);
  }

  /** Lexing left op right puts the operation between the tokens of both sides. */
  lemma LexOperation(left: string, op: char, right: string, lt: seq<Token>, rt: seq<Token>)
    requires IsArithmetic(op)
    requires Lex(left) == Ok(lt) && Lex(right) == Ok(rt)
    ensures Lex(left + [op] + right) == Ok(lt + [Operation(op)] + rt)
  {
    Associative(left, [op], right);
    LexAppend(left, [op] + right);
    LexAppend([op], right);
    LexOne(op);
    assert Emit(op) == [Operation(op)];
    Associative(lt, [Operation(op)], rt);
  }

  /** A natural literal lexes to its number. */
  lemma LexNatural(v: real)
    requires v >= 0.0 && v == v.Floor as real
    ensures Lex(NatDigits(v.Floor)) == Ok([Number(v)])
  {
    var s := NatDigits(v.Floor);
    LexNumeralThen(s, []);
    assert s + [] == s;
    ParseNatDigits(v.Floor);
    assert [Number(v)] + [] == [Number(v)];
  }

  /** The tokenizer reads the written form of a well-formed expression as its infix tokens. */
  lemma {:induction false} LexRender(e: Expr)
    requires WellFormed(e) && Printable(e)
    ensures Lex(Render(e)) == Ok(Infix(e))
  {
    match e
    case Num(v) => LexNatural(v);
    case Paren(inner) =>
      LexRender(inner);
      LexParen(Render(inner), Infix(inner));
    case Bin(op, l, r) =>
      LexRender(l);
      LexRender(r);
      LexOperation(Render(l), op, Render(r), Infix(l), Infix(r));
  }

  // ---------------------------------------------------------------------
  // The calculator

  /** The three stages one after another, as the source's Main chains them. */
  function Calculate(input: string): Result<real> {
    match Lex(input)
    case Err(e) => Err(e)
    case Ok(tokens) => Evaluate(ToPostfix(tokens))
  }

  /** The calculator computes the value of every well-formed expression it is given in written form. */
  lemma CalculateRender(e: Expr)
    requires WellFormed(e) && Printable(e)
    ensures Calculate(Render(e)) == Value(e)
  {
    LexRender(e);
    PostfixOfInfix(e);
    EvaluatePostfixOrder(e);
  }
}
