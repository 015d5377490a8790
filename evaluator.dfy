/**
 The postfix evaluator: a value stack that numbers are pushed onto and
 that every operation pops twice, the right operand first and the left
 operand second, before pushing the result of ApplyOperation. Parentheses
 are skipped, and the value of the whole postfix sequence is the top of the
 stack at the end; values below the top are ignored. Popping an empty
 stack, dividing by zero and an operation symbol other than the four arithmetic ones are
 failures.

 EvalRun and Evaluate are the reference definition, one token at a time;
 EvaluatePostfix is the source's loop, proved to compute Evaluate.
 */
module Evaluator {
  import opened Tokens

  /**
   The source's ApplyOperation: a op b for the four arithmetic symbols;
   division by zero and any other symbol fail.
   */
  function ApplyOperation(op: char, a: real, b: real): (r: Result<real>)
    ensures r.Err? <==> !IsArithmetic(op) || (op == '/' && b == 0.0)
    ensures r == Err(DivideByZero) <==> op == '/' && b == 0.0
    ensures !IsArithmetic(op) ==> r == Err(UnsupportedOperation(op))
    ensures op == '+' ==> r.Ok? && r.value - b == a
    ensures op == '-' ==> r.Ok? && r.value + b == a
    ensures op == '*' ==> r.Ok? && (b == 0.0 ==> r.value == 0.0) && (b != 0.0 ==> r.value / b == a)
    ensures op == '/' && b != 0.0 ==> r.Ok? && r.value * b == a
  {
    match op
    case '+' => Ok(a + b)
    case '-' => Ok(a - b)
    case '*' =>
      ProductQuotient(a, b);
      Ok(a * b)
    case '/' => if b == 0.0 then Err(DivideByZero) else Ok(a / b)
    case _ => Err(UnsupportedOperation(op))
  }

  /** Dividing a product by a non-zero factor gives back the other factor. */
  lemma ProductQuotient(a: real, b: real)
    ensures b != 0.0 ==> (a * b) / b == a
  {
    if b != 0.0 {
      assert ((a * b) / b) * b == a * b;
    }
  }

  /** Each operation is undone by its inverse with the same right operand. */
  lemma ApplyInverse(a: real, b: real)
    ensures ApplyOperation('-', ApplyOperation('+', a, b).value, b) == Ok(a)
    ensures ApplyOperation('+', ApplyOperation('-', a, b).value, b) == Ok(a)
    ensures b != 0.0 ==> ApplyOperation('/', ApplyOperation('*', a, b).value, b) == Ok(a)
    ensures b != 0.0 ==> ApplyOperation('*', ApplyOperation('/', a, b).value, b).value == a
  {
    if b != 0.0 {
      assert ApplyOperation('*', a, b) == Ok(a * b);
      assert ApplyOperation('/', a * b, b) == Ok((a * b) / b);
      assert (a * b) / b == a;
      var q := a / b;
      assert ApplyOperation('/', a, b) == Ok(q);
      assert ApplyOperation('*', q, b).value == q * b;
      assert q * b == a;
    }
  }

  /** Pushes a successful result onto values, and passes a failure on. */
  function PushResult(values: seq<real>, r: Result<real>): Result<seq<real>> {
    match r
    case Err(e) => Err(e)
    case Ok(v) => Ok(values + [v])
  }

  /** The evaluator's step on one token, with the value stack top last. */
  function EvalStep(values: seq<real>, t: Token): Result<seq<real>> {
    match t
    case Number(v) => Ok(values + [v])
    case Operation(c) =>
      if |values| < 2 then Err(EmptyStack)
      else
        PushResult(values[..|values| - 2], ApplyOperation(c, values[|values| - 2], values[|values| - 1]))
    case Parenthesis(_) => Ok(values)
  }

  /** The value stack after the tokens ts, starting from values; the first failure ends the run. */
  function EvalRun(values: seq<real>, ts: seq<Token>): Result<seq<real>>
    decreases |ts|
  {
    if ts == [] then Ok(values)
    else
      match EvalStep(values, ts[0])
      case Err(e) => Err(e)
      case Ok(next) => EvalRun(next, ts[1..])
  }

  /** The value of a postfix sequence: the top of the final stack. */
  function Evaluate(postfix: seq<Token>): Result<real> {
    match EvalRun([], postfix)
    case Err(e) => Err(e)
    case Ok(values) => if values == [] then Err(EmptyStack) else Ok(values[|values| - 1])
  }

  /** The source's EvaluatePostfix over a value stack. */
  method EvaluatePostfix(postfix: seq<Token>) returns (r: Result<real>)
    ensures r == Evaluate(postfix)
  {
    var values: seq<real> := [];
    for i := 0 to |postfix|
      invariant EvalRun(values, postfix[i..]) == EvalRun([], postfix)
    {
      var token := postfix[i];
      ghost var before := values;
      assert postfix[i..][0] == token && postfix[i..][1..] == postfix[i + 1..];
      match token
      case Number(v) =>
        values := values + [v];
      case Operation(c) =>
        if values == [] {
          return Err(EmptyStack);
        }
        var a := values[|values| - 1];
        values := values[..|values| - 1];
        if values == [] {
          return Err(EmptyStack);
        }
        var b := values[|values| - 1];
        ghost var below := values[..|values| - 1];
        values := values[..|values| - 1];
        var applied := ApplyOperation(c, b, a);
        if applied.Err? {
          return Err(applied.error);
        }
        values := values + [applied.value];
        assert EvalStep(before, token) == Ok(values) by {
          assert before == below + [b, a];
          assert before[..|before| - 2] == below;
        }
      case Parenthesis(_) =>
    }
    if values == [] {
      return Err(EmptyStack);
    }
    return Ok(values[|values| - 1]);
  }

  // ---------------------------------------------------------------------
  // What the evaluation keeps

  /** Evaluating a + b is evaluating a, then b on the stack a leaves. */
  lemma {:induction false} EvalAppend(values: seq<real>, a: seq<Token>, b: seq<Token>)
    ensures EvalRun(values, a + b) == (if EvalRun(values, a).Err? then EvalRun(values, a)
                                       else EvalRun(EvalRun(values, a).value, b))
    decreases |a|
  {
    if a == [] {
      assert a + b == b;
    } else {
      assert (a + b)[0] == a[0] && (a + b)[1..] == a[1..] + b;
      match EvalStep(values, a[0])
      case Err(_) =>
      case Ok(next) => EvalAppend(next, a[1..], b);
    }
  }

  /** Numbers minus operations: how much a run of tokens grows the value stack. */
  function Growth(ts: seq<Token>): int
    decreases |ts|
  {
    if ts == [] then 0
    else (if ts[0].Number? then 1 else if ts[0].Operation? then -1 else 0) + Growth(ts[1..])
  }

  /** Every number pushes one value and every operation replaces two by one. */
  lemma {:induction false} EvalHeight(values: seq<real>, ts: seq<Token>)
    ensures EvalRun(values, ts).Ok? ==> |EvalRun(values, ts).value| == |values| + Growth(ts)
    decreases |ts|
  {
    if ts != [] {
      match EvalStep(values, ts[0])
      case Err(_) =>
      case Ok(next) => EvalHeight(next, ts[1..]);
    }
  }

  /**
   A successful run never pops an empty stack: every operation finds at
   least two values, those already there plus the growth of the tokens
   before it.
   */
  lemma {:induction false} EvalUnderflow(values: seq<real>, ts: seq<Token>, k: nat)
    requires k < |ts| && ts[k].Operation?
    requires |values| + Growth(ts[..k]) < 2
    ensures EvalRun(values, ts) == Err(EmptyStack) || EvalRun(values, ts[..k]).Err?
    decreases k
  {
    if k == 0 {
      assert ts[..0] == [];
    } else {
      assert ts[..k][0] == ts[0] && ts[..k][1..] == ts[1..][..k - 1];
      match EvalStep(values, ts[0])
      case Err(_) =>
      case Ok(next) =>
        EvalUnderflow(next, ts[1..], k - 1);
        EvalHeightStep(values, ts[0], next);
    }
  }

  /** One step grows the stack by the step's own growth. */
  lemma EvalHeightStep(values: seq<real>, t: Token, next: seq<real>)
    requires EvalStep(values, t) == Ok(next)
    ensures |next| == |values| + Growth([t])
  {
    assert [t][1..] == [];
  }

  /** The tokens with every parenthesis removed. */
  function WithoutParentheses(ts: seq<Token>): (r: seq<Token>)
    ensures |r| <= |ts|
    ensures forall t :: t in r ==> !t.Parenthesis? && t in ts
    decreases |ts|
  {
    if ts == [] then []
    else if ts[0].Parenthesis? then WithoutParentheses(ts[1..])
    else [ts[0]] + WithoutParentheses(ts[1..])
  }

  /** The evaluator skips parentheses: removing them changes nothing. */
  lemma {:induction false} EvalIgnoresParentheses(values: seq<real>, ts: seq<Token>)
    ensures EvalRun(values, ts) == EvalRun(values, WithoutParentheses(ts))
    decreases |ts|
  {
    if ts != [] {
      if ts[0].Parenthesis? {
        EvalIgnoresParentheses(values, ts[1..]);
      } else {
        var rest := WithoutParentheses(ts[1..]);
        assert ([ts[0]] + rest)[0] == ts[0] && ([ts[0]] + rest)[1..] == rest;
        match EvalStep(values, ts[0])
        case Err(_) =>
        case Ok(next) => EvalIgnoresParentheses(next, ts[1..]);
      }
    }
  }

  /** Values below those a run works on are left as they are. */
  lemma {:induction false} EvalFrame(below: seq<real>, values: seq<real>, ts: seq<Token>)
    requires EvalRun(values, ts).Ok?
    ensures EvalRun(below + values, ts) == Ok(below + EvalRun(values, ts).value)
    decreases |ts|
  {
    if ts != [] {
      var next := EvalStep(values, ts[0]).value;
      assert EvalStep(below + values, ts[0]) == Ok(below + next) by {
        match ts[0]
        case Number(v) => assert below + values + [v] == below + (values + [v]);
        case Parenthesis(_) =>
        case Operation(c) =>
          var n := |values|;
          assert (below + values)[|below| + n - 2] == values[n - 2];
          assert (below + values)[|below| + n - 1] == values[n - 1];
          var v := ApplyOperation(c, values[n - 2], values[n - 1]).value;
          assert (below + values)[..|below| + n - 2] + [v] == below + (values[..n - 2] + [v]);
      }
      EvalFrame(below, next, ts[1..]);
    }
  }

  /**
   The value is the top of the stack: whatever an earlier, successful run
   leaves below is ignored.
   */
  lemma ExtraValuesIgnored(first: seq<Token>, second: seq<Token>)
    requires EvalRun([], first).Ok?
    requires EvalRun([], second).Ok? && EvalRun([], second).value != []
    ensures Evaluate(first + second) == Evaluate(second)
  {
    var below := EvalRun([], first).value;
    EvalAppend([], first, second);
    EvalFrame(below, [], second);
    assert below + [] == below;
  }

  /** The right operand is popped first, and the left one is passed first. */
  lemma OperandOrder(values: seq<real>, x: real, y: real, c: char)
    ensures EvalRun(values, [Number(x), Number(y), Operation(c)]) == PushResult(values, ApplyOperation(c, x, y))
  {
    var ts := [Number(x), Number(y), Operation(c)];
    var two := values + [x] + [y];
    assert two[|two| - 2] == x && two[|two| - 1] == y && two[..|two| - 2] == values;
    assert EvalRun(two, [Operation(c)]) == PushResult(values, ApplyOperation(c, x, y)) by {
      assert [Operation(c)][1..] == [];
    }
    assert ts[1..] == [Number(y), Operation(c)] && ts[1..][1..] == [Operation(c)];
    assert EvalRun(values + [x], ts[1..]) == EvalRun(two, [Operation(c)]);
  }

  /** Division and subtraction associate to the left: 8 4 / 2 / is 1, and 6 3 - 2 - is 1. */
  lemma LeftAssociativeExamples()
    ensures Evaluate([Number(8.0), Number(4.0), Operation('/'), Number(2.0), Operation('/')]) == Ok(1.0)
    ensures Evaluate([Number(6.0), Number(3.0), Operation('-'), Number(2.0), Operation('-')]) == Ok(1.0)
  {
    var d := [Number(8.0), Number(4.0), Operation('/'), Number(2.0), Operation('/')];
    OperandOrder([], 8.0, 4.0, '/');
    assert d == [Number(8.0), Number(4.0), Operation('/')] + [Number(2.0), Operation('/')];
    EvalAppend([], [Number(8.0), Number(4.0), Operation('/')], [Number(2.0), Operation('/')]);
    EvalFrame([], [2.0], [Number(2.0), Operation('/')]);
    var s := [Number(6.0), Number(3.0), Operation('-'), Number(2.0), Operation('-')];
    OperandOrder([], 6.0, 3.0, '-');
    assert s == [Number(6.0), Number(3.0), Operation('-')] + [Number(2.0), Operation('-')];
    EvalAppend([], [Number(6.0), Number(3.0), Operation('-')], [Number(2.0), Operation('-')]);
  }

  /** Nothing to pop: an empty postfix, and an operation with a single operand, fail. */
  lemma EmptyStackExamples()
    ensures Evaluate([]) == Err(EmptyStack)
    ensures Evaluate([Number(5.0), Operation('*')]) == Err(EmptyStack)
  {
    assert [Number(5.0), Operation('*')][1..] == [Operation('*')];
  }

  /** A zero divisor and a leftover '(' marker fail in ApplyOperation. */
  lemma ApplyFailureExamples()
    ensures Evaluate([Number(5.0), Number(0.0), Operation('/')]) == Err(DivideByZero)
    ensures Evaluate([Number(2.0), Number(3.0), Operation('(')]) == Err(UnsupportedOperation('('))
  {
    OperandOrder([], 5.0, 0.0, '/');
    OperandOrder([], 2.0, 3.0, '(');
  }
}
