/**
 The token data model shared by the three stages of the calculator:
 the tokenizer, the infix-to-postfix converter and the postfix evaluator.
 The source's class hierarchy (an abstract Token with Number, Operation
 and Parenthesis subclasses) becomes one closed datatype, and the
 exceptions the source throws become the values of Error.
 */
module Tokens {

  /** A lexical token. Every variant is immutable once built. */
  datatype Token =
    | Number(value: real)       // a numeric literal
    | Operation(symbol: char)   // an operator; the converter also uses '(' here as a marker
    | Parenthesis(symbol: char) // '(' or ')'

  datatype Option<T> = None | Some(value: T)

  /** The ways a stage can fail, one per exception the source can raise. */
  datatype Error =
    | InvalidNumber                  // double.Parse rejects a run of digits and dots
    | EmptyStack                     // Stack.Pop on an empty value stack
    | DivideByZero                   // '/' with a zero right operand
    | UnsupportedOperation(op: char) // ApplyOperation's default branch

  datatype Result<T> = Ok(value: T) | Err(error: Error)

  /** The four arithmetic operator characters. */
  predicate IsArithmetic(c: char) {
    c == '+' || c == '-' || c == '*' || c == '/'
  }

  /**
   The binding strength of an operation symbol: multiplication and division
   bind tighter than addition and subtraction, and every other symbol,
   in particular the '(' marker of the converter, has the lowest priority.
   */
  function Priority(symbol: char): (p: nat)
    ensures p <= 2
    ensures p == 0 <==> !IsArithmetic(symbol)
    ensures p == 2 <==> (symbol == '*' || symbol == '/')
  {
    if symbol == '*' || symbol == '/' then 2
    else if symbol == '+' || symbol == '-' then 1
    else 0
  }

  /** The Number tokens of ts, in order. */
  function Numbers(ts: seq<Token>): (ns: seq<Token>)
    ensures |ns| <= |ts|
    ensures forall t :: t in ns ==> t.Number? && t in ts
  {
    if ts == [] then []
    else (if ts[0].Number? then [ts[0]] else []) + Numbers(ts[1..])
  }

  /** The Number tokens of a + b are those of a followed by those of b. */
  lemma {:induction false} NumbersAppend(a: seq<Token>, b: seq<Token>)
    ensures Numbers(a + b) == Numbers(a) + Numbers(b)
    decreases |a|
  {
    if a == [] {
      assert a + b == b;
    } else {
      assert (a + b)[1..] == a[1..] + b;
      NumbersAppend(a[1..], b);
    }
  }
}
