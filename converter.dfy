/**
 The infix-to-postfix converter: Dijkstra's shunting-yard algorithm over an
 operator stack. Numbers go straight to the output; an operation first pops
 every stacked operation of priority at least its own and is then pushed;
 '(' is pushed as the marker operation '(' of priority 0; ')' pops up to the
 topmost '(' and discards that marker (and does nothing more when there is
 none); at the end the stack is drained into the output, a leftover '('
 included.

 Run and ToPostfix are the reference definition, one token at a time;
 ConvertToPostfix is the source's loop, proved to compute ToPostfix. The
 lemmas state what the algorithm keeps: the numbers in order, every
 operator exactly once, the priority order of the stack, and the length of
 the output.
 */
module Converter {
  import opened Tokens

  /** The converter's state: the output so far and the operator stack, top last. */
  datatype State = State(out: seq<Token>, stack: seq<char>)

  function Top(stack: seq<char>): char
    requires stack != []
  {
    stack[|stack| - 1]
  }

  /** The operations of stack in the order the source pops them: top first. */
  function Emitted(stack: seq<char>): (ts: seq<Token>)
    ensures |ts| == |stack|
  {
    if stack == [] then [] else [Operation(Top(stack))] + Emitted(stack[..|stack| - 1])
  }

  lemma EmittedPush(stack: seq<char>, c: char)
    ensures Emitted(stack + [c]) == [Operation(c)] + Emitted(stack)
  {
    assert (stack + [c])[..|stack|] == stack;
  }

  /** Moves the top of the stack to the output. */
  function PopOne(st: State): State
    requires st.stack != []
  {
    State(st.out + [Operation(Top(st.stack))], st.stack[..|st.stack| - 1])
  }

  /** One more pop in front of a run of pops moves one more entry, the top, to the output. */
  lemma PopStep(st: State, r: State)
    requires st.stack != []
    requires var rest := PopOne(st).stack;
      |r.stack| <= |rest| && r.stack == rest[..|r.stack|] &&
      r.out == PopOne(st).out + Emitted(rest[|r.stack|..])
    ensures |r.stack| <= |st.stack| && r.stack == st.stack[..|r.stack|]
    ensures r.out == st.out + Emitted(st.stack[|r.stack|..])
  {
    var rest := st.stack[..|st.stack| - 1];
    assert st.stack[|r.stack|..] == rest[|r.stack|..] + [Top(st.stack)];
    EmittedPush(rest[|r.stack|..], Top(st.stack));
  }

  /**
   The source's inner loop for an incoming operation of priority p: pops
   every stacked operation of priority at least p, and nothing below the
   first one of lower priority.
   */
  function PopAtLeast(st: State, p: nat): (r: State)
    ensures |r.stack| <= |st.stack| && r.stack == st.stack[..|r.stack|]
    ensures r.out == st.out + Emitted(st.stack[|r.stack|..])
    ensures r.stack == [] || Priority(Top(r.stack)) < p
    decreases |st.stack|
  {
    if st.stack != [] && Priority(Top(st.stack)) >= p then
      var r := PopAtLeast(PopOne(st), p);
      PopStep(st, r);
      r
    else
      assert st.stack[|st.stack|..] == [];
      st
  }

  /** Every entry PopAtLeast pops has priority at least p. */
  lemma {:induction false} PoppedAtLeast(st: State, p: nat)
    ensures var r := PopAtLeast(st, p);
      forall k :: |r.stack| <= k < |st.stack| ==> Priority(st.stack[k]) >= p
    decreases |st.stack|
  {
    if st.stack != [] && Priority(Top(st.stack)) >= p {
      PoppedAtLeast(PopOne(st), p);
      assert forall k :: 0 <= k < |st.stack| - 1 ==> st.stack[k] == PopOne(st).stack[k];
    }
  }

  /**
   The source's loop for ')': pops every stacked operation above the
   topmost '(' marker, and the whole stack when there is no marker.
   */
  function PopToOpen(st: State): (r: State)
    ensures |r.stack| <= |st.stack| && r.stack == st.stack[..|r.stack|]
    ensures r.out == st.out + Emitted(st.stack[|r.stack|..])
    ensures r.stack == [] || Top(r.stack) == '('
    ensures forall k :: |r.stack| <= k < |st.stack| ==> st.stack[k] != '('
    decreases |st.stack|
  {
    if st.stack != [] && Top(st.stack) != '(' then
      var r := PopToOpen(PopOne(st));
      PopStep(st, r);
      assert forall k :: |r.stack| <= k < |st.stack| - 1 ==> st.stack[k] == PopOne(st).stack[k];
      r
    else
      assert st.stack[|st.stack|..] == [];
      st
  }

  /** The source's final loop: drains the whole stack into the output. */
  function Drain(st: State): (out: seq<Token>)
    ensures out == st.out + Emitted(st.stack)
    decreases |st.stack|
  {
    if st.stack == [] then st.out else Drain(PopOne(st))
  }

  /** The converter's step on one token. */
  function Step(st: State, t: Token): State {
    match t
    case Number(_) => State(st.out + [t], st.stack)
    case Operation(c) =>
      var s := PopAtLeast(st, Priority(c));
      State(s.out, s.stack + [c])
    case Parenthesis(c) =>
      if c == '(' then State(st.out, st.stack + ['('])
      else
        var s := PopToOpen(st);
        if s.stack != [] && Top(s.stack) == '(' then State(s.out, s.stack[..|s.stack| - 1]) else s
  }

  /** The state after the tokens ts, starting from st. */
  function Run(st: State, ts: seq<Token>): State
    decreases |ts|
  {
    if ts == [] then st else Run(Step(st, ts[0]), ts[1..])
  }

  /** The postfix form of the infix tokens ts. */
  function ToPostfix(ts: seq<Token>): seq<Token> {
    Drain(Run(State([], []), ts))
  }

  /** Running a + b is running a, then b from where a ends. */
  lemma {:induction false} RunAppend(st: State, a: seq<Token>, b: seq<Token>)
    ensures Run(st, a + b) == Run(Run(st, a), b)
    decreases |a|
  {
    if a == [] {
      assert a + b == b;
    } else {
      assert (a + b)[0] == a[0] && (a + b)[1..] == a[1..] + b;
      RunAppend(Step(st, a[0]), a[1..], b);
    }
  }

  /** The source's inner loop for an incoming operation of priority p. */
  method PopWhileAtLeast(out: seq<Token>, stack: seq<char>, p: nat)
    returns (postfix: seq<Token>, operationStack: seq<char>)
    ensures State(postfix, operationStack) == PopAtLeast(State(out, stack), p)
  {
    postfix, operationStack := out, stack;
    while operationStack != [] && Priority(operationStack[|operationStack| - 1]) >= p
      invariant PopAtLeast(State(postfix, operationStack), p) == PopAtLeast(State(out, stack), p)
      decreases |operationStack|
    {
      ghost var st := State(postfix, operationStack);
      postfix := postfix + [Operation(operationStack[|operationStack| - 1])];
      operationStack := operationStack[..|operationStack| - 1];
      assert State(postfix, operationStack) == PopOne(st);
    }
  }

  /** The source's inner loop for ')': pops down to the topmost '('. */
  method PopUntilOpen(out: seq<Token>, stack: seq<char>)
    returns (postfix: seq<Token>, operationStack: seq<char>)
    ensures State(postfix, operationStack) == PopToOpen(State(out, stack))
  {
    postfix, operationStack := out, stack;
    while operationStack != [] && operationStack[|operationStack| - 1] != '('
      invariant PopToOpen(State(postfix, operationStack)) == PopToOpen(State(out, stack))
      decreases |operationStack|
    {
      ghost var st := State(postfix, operationStack);
      postfix := postfix + [Operation(operationStack[|operationStack| - 1])];
      operationStack := operationStack[..|operationStack| - 1];
      assert State(postfix, operationStack) == PopOne(st);
    }
  }

  /** The source's ConvertToPostfix, with the operator stack as a sequence whose top is its last element. */
  method ConvertToPostfix(tokens: seq<Token>) returns (postfix: seq<Token>)
    ensures postfix == ToPostfix(tokens)
  {
    postfix := [];
    var operationStack: seq<char> := [];
    for i := 0 to |tokens|
      invariant Run(State(postfix, operationStack), tokens[i..]) == Run(State([], []), tokens)
    {
      var token := tokens[i];
      ghost var before := State(postfix, operationStack);
      assert Run(before, tokens[i..]) == Run(Step(before, token), tokens[i + 1..]) by {
        assert tokens[i..][1..] == tokens[i + 1..];
      }
      match token
      case Number(_) =>
        postfix := postfix + [token];
      case Operation(c) =>
        postfix, operationStack := PopWhileAtLeast(postfix, operationStack, Priority(c));
        operationStack := operationStack + [c];
      case Parenthesis(c) =>
        if c == '(' {
          operationStack := operationStack + ['('];
        } else {
          postfix, operationStack := PopUntilOpen(postfix, operationStack);
          if operationStack != [] && operationStack[|operationStack| - 1] == '(' {
            operationStack := operationStack[..|operationStack| - 1];
          }
        }
    }
    ghost var drained := Drain(State(postfix, operationStack));
    while operationStack != []
      invariant Drain(State(postfix, operationStack)) == drained
      decreases |operationStack|
    {
      postfix := postfix + [Operation(operationStack[|operationStack| - 1])];
      operationStack := operationStack[..|operationStack| - 1];
    }
  }

  // ---------------------------------------------------------------------
  // The stack's priority order

  /**
   Every stacked operation other than a '(' marker has a strictly higher
   priority than the entry directly below it.
   */
  ghost predicate Ordered(stack: seq<char>) {
    forall k :: 0 < k < |stack| && stack[k] != '(' ==> Priority(stack[k - 1]) < Priority(stack[k])
  }

  /** Every step keeps the stack ordered. */
  lemma StepOrdered(st: State, t: Token)
    requires Ordered(st.stack)
    ensures Ordered(Step(st, t).stack)
  {
    match t
    case Number(_) =>
    case Operation(c) =>
      var s := PopAtLeast(st, Priority(c));
      assert Ordered(s.stack);
    case Parenthesis(c) =>
      if c != '(' {
        var s := PopToOpen(st);
        assert Ordered(s.stack);
      }
  }

  lemma {:induction false} RunOrdered(st: State, ts: seq<Token>)
    requires Ordered(st.stack)
    ensures Ordered(Run(st, ts).stack)
    decreases |ts|
  {
    if ts != [] {
      StepOrdered(st, ts[0]);
      RunOrdered(Step(st, ts[0]), ts[1..]);
    }
  }

  /**
   Above the topmost '(' the stacked priorities strictly increase from
   bottom to top: an ordered stack compares any two entries with no marker
   between them (the upper one not a marker either).
   */
  lemma {:induction false} OrderedIncreasing(stack: seq<char>, i: nat, j: nat)
    requires Ordered(stack)
    requires i < j < |stack|
    requires forall k :: i < k <= j ==> stack[k] != '('
    ensures Priority(stack[i]) < Priority(stack[j])
    decreases j - i
  {
    if i + 1 < j {
      OrderedIncreasing(stack, i, j - 1);
    }
  }

  /** The stack of the converter, at any point of its run, is ordered. */
  lemma ConverterStackOrdered(ts: seq<Token>)
    ensures Ordered(Run(State([], []), ts).stack)
  {
    RunOrdered(State([], []), ts);
  }

  // ---------------------------------------------------------------------
  // What the output holds

  /** The number of Parenthesis tokens in ts. */
  function Parens(ts: seq<Token>): (n: nat)
    ensures n <= |ts|
  {
    if ts == [] then 0
    else (if ts[0].Parenthesis? then 1 else 0) + Parens(ts[1..])
  }

  /** Whether every Operation token of ts is one of the four arithmetic operators, as the tokenizer's are. */
  predicate ArithmeticOps(ts: seq<Token>) {
    forall t :: t in ts && t.Operation? ==> IsArithmetic(t.symbol)
  }

  /**
   The number of '(' left unmatched by ts, reading left to right; a ')'
   with nothing to match is ignored, as the converter ignores it.
   */
  function Unclosed(ts: seq<Token>): nat
    decreases |ts|
  {
    if ts == [] then 0
    else
      var d := Unclosed(ts[..|ts| - 1]);
      match ts[|ts| - 1]
      case Parenthesis(c) => if c == '(' then d + 1 else if d > 0 then d - 1 else 0
      case _ => d
  }

  lemma {:induction false} ParensAppend(a: seq<Token>, b: seq<Token>)
    ensures Parens(a + b) == Parens(a) + Parens(b)
    decreases |a|
  {
    if a == [] {
      assert a + b == b;
    } else {
      assert (a + b)[1..] == a[1..] + b;
      ParensAppend(a[1..], b);
    }
  }

  /** Draining a stack emits every stacked symbol once, as an operation, and nothing else. */
  lemma {:induction false} EmittedContents(stack: seq<char>)
    ensures Numbers(Emitted(stack)) == [] && Parens(Emitted(stack)) == 0
    ensures forall c :: multiset(Emitted(stack))[Operation(c)] == multiset(stack)[c]
    decreases |stack|
  {
    if stack != [] {
      var rest := stack[..|stack| - 1];
      EmittedContents(rest);
      assert stack == rest + [Top(stack)];
      NumbersAppend([Operation(Top(stack))], Emitted(rest));
      ParensAppend([Operation(Top(stack))], Emitted(rest));
    }
  }

  lemma {:induction false} EmittedAppend(a: seq<char>, b: seq<char>)
    ensures Emitted(a + b) == Emitted(b) + Emitted(a)
    decreases |b|
  {
    if b == [] {
      assert a + b == a;
    } else {
      var c := b[|b| - 1];
      var b0 := b[..|b| - 1];
      assert a + b == (a + b0) + [c];
      assert b == b0 + [c];
      EmittedPush(a + b0, c);
      EmittedPush(b0, c);
      EmittedAppend(a, b0);
    }
  }

  /** The output the converter would give if the input ended at this state. */
  function Flat(st: State): seq<Token> {
    st.out + Emitted(st.stack)
  }

  /** Popping entries to the output does not change what the output would be. */
  lemma PopKeepsFlat(st: State, r: State)
    requires |r.stack| <= |st.stack| && r.stack == st.stack[..|r.stack|]
    requires r.out == st.out + Emitted(st.stack[|r.stack|..])
    ensures Flat(r) == Flat(st)
  {
    var k := |r.stack|;
    assert st.stack == st.stack[..k] + st.stack[k..];
    EmittedAppend(st.stack[..k], st.stack[k..]);
  }

  /** The Number tokens consumed so far are the output's, in order. */
  ghost predicate NumbersKept(st: State, consumed: seq<Token>) {
    Numbers(st.out) == Numbers(consumed)
  }

  /** Every arithmetic operation consumed so far is in the output or on the stack, once. */
  ghost predicate OperatorsKept(st: State, consumed: seq<Token>) {
    forall c :: IsArithmetic(c) ==> multiset(Flat(st))[Operation(c)] == multiset(consumed)[Operation(c)]
  }

  /** The output holds no Parenthesis token. */
  ghost predicate NoParenthesis(out: seq<Token>) {
    forall t :: t in out ==> !t.Parenthesis?
  }

  /**
   For tokens whose operations are all arithmetic: no '(' marker has reached
   the output, the markers on the stack are the unmatched '(', and the
   would-be output holds every consumed token but the parentheses, plus
   those markers.
   */
  ghost predicate Marked(st: State, consumed: seq<Token>) {
    && Operation('(') !in st.out
    && multiset(st.stack)['('] == Unclosed(consumed)
    && |st.out| + |st.stack| == |consumed| - Parens(consumed) + Unclosed(consumed)
  }

  lemma EmittedOperations(stack: seq<char>)
    ensures forall t :: t in Emitted(stack) ==> t.Operation?
    ensures Numbers(Emitted(stack)) == []
  {
    EmittedContents(stack);
    forall t | t in Emitted(stack) ensures t.Operation? {
      var k :| 0 <= k < |stack| && Emitted(stack)[k] == t;
      EmittedAt(stack, k);
    }
  }

  lemma {:induction false} EmittedAt(stack: seq<char>, k: nat)
    requires k < |stack|
    ensures Emitted(stack)[k] == Operation(stack[|stack| - 1 - k])
    decreases |stack|
  {
    if k > 0 {
      EmittedAt(stack[..|stack| - 1], k - 1);
    }
  }

  lemma StepNumbers(st: State, consumed: seq<Token>, t: Token)
    requires NumbersKept(st, consumed)
    ensures NumbersKept(Step(st, t), consumed + [t])
  {
    NumbersAppend(consumed, [t]);
    match t
    case Number(_) =>
      NumbersAppend(st.out, [t]);
    case Operation(c) =>
      var s := PopAtLeast(st, Priority(c));
      EmittedOperations(st.stack[|s.stack|..]);
      NumbersAppend(st.out, Emitted(st.stack[|s.stack|..]));
    case Parenthesis(c) =>
      if c != '(' {
        var s := PopToOpen(st);
        EmittedOperations(st.stack[|s.stack|..]);
        NumbersAppend(st.out, Emitted(st.stack[|s.stack|..]));
      }
  }

  lemma {:induction false} RunNumbers(st: State, consumed: seq<Token>, ts: seq<Token>)
    requires NumbersKept(st, consumed)
    ensures NumbersKept(Run(st, ts), consumed + ts)
    decreases |ts|
  {
    if ts == [] {
      assert consumed + ts == consumed;
    } else {
      StepNumbers(st, consumed, ts[0]);
      assert consumed + ts == (consumed + [ts[0]]) + ts[1..];
      RunNumbers(Step(st, ts[0]), consumed + [ts[0]], ts[1..]);
    }
  }

  /** A step that adds u to the would-be output, for the consumed token t. */
  lemma OperatorsInsert(st: State, consumed: seq<Token>, next: State, t: Token, u: Token, x: seq<Token>, y: seq<Token>)
    requires OperatorsKept(st, consumed)
    requires Flat(st) == x + y && Flat(next) == x + [u] + y
    requires u == t || (u == Operation('(') && t.Parenthesis?)
    ensures OperatorsKept(next, consumed + [t])
  {
    assert multiset(consumed + [t]) == multiset(consumed) + multiset{t};
    assert multiset(Flat(next)) == multiset(Flat(st)) + multiset{u};
  }

  /** A step that takes a '(' marker, or nothing, from the would-be output, for the consumed ')'. */
  lemma OperatorsRemove(st: State, consumed: seq<Token>, next: State, t: Token, x: seq<Token>, y: seq<Token>)
    requires OperatorsKept(st, consumed) && t.Parenthesis?
    requires (Flat(st) == x + [Operation('(')] + y && Flat(next) == x + y) || Flat(next) == Flat(st)
    ensures OperatorsKept(next, consumed + [t])
  {
    assert multiset(consumed + [t]) == multiset(consumed) + multiset{t};
    if Flat(next) != Flat(st) {
      assert multiset(Flat(st)) == multiset(Flat(next)) + multiset{Operation('(')};
    }
  }

  lemma StepOperators(st: State, consumed: seq<Token>, t: Token)
    requires OperatorsKept(st, consumed)
    ensures OperatorsKept(Step(st, t), consumed + [t])
  {
    match t
    case Number(_) =>
      OperatorsInsert(st, consumed, Step(st, t), t, t, st.out, Emitted(st.stack));
    case Operation(c) =>
      var s := PopAtLeast(st, Priority(c));
      OperationFlat(st, c);
      OperatorsInsert(st, consumed, Step(st, t), t, t, s.out, Emitted(s.stack));
    case Parenthesis(c) =>
      if c == '(' {
        EmittedPush(st.stack, '(');
        OperatorsInsert(st, consumed, Step(st, t), t, Operation('('), st.out, Emitted(st.stack));
      } else {
        var s := PopToOpen(st);
        var below := if s.stack == [] then [] else s.stack[..|s.stack| - 1];
        CloseFlat(st, c);
        OperatorsRemove(st, consumed, Step(st, t), t, s.out, Emitted(below));
      }
  }

  /** An operation adds itself to the would-be output, between what is already output and the stack below it. */
  lemma OperationFlat(st: State, c: char)
    ensures var s := PopAtLeast(st, Priority(c));
      && Flat(st) == s.out + Emitted(s.stack)
      && Flat(Step(st, Operation(c))) == s.out + [Operation(c)] + Emitted(s.stack)
  {
    var s := PopAtLeast(st, Priority(c));
    assert Step(st, Operation(c)) == State(s.out, s.stack + [c]);
    PopKeepsFlat(st, s);
    FlatPush(s, c);
  }

  /** Pushing c onto the stack puts Operation(c) between the output and the rest of the stack. */
  lemma FlatPush(s: State, c: char)
    ensures Flat(State(s.out, s.stack + [c])) == s.out + [Operation(c)] + Emitted(s.stack)
  {
    EmittedPush(s.stack, c);
  }

  /** A ')' takes the matching '(' marker from the would-be output, or leaves it as it is when there is none. */
  lemma CloseFlat(st: State, c: char)
    requires c != '('
    ensures var s := PopToOpen(st);
      var below := if s.stack == [] then [] else s.stack[..|s.stack| - 1];
      var next := Step(st, Parenthesis(c));
      || (Flat(st) == s.out + [Operation('(')] + Emitted(below) && Flat(next) == s.out + Emitted(below))
      || Flat(next) == Flat(st)
  {
    var s := PopToOpen(st);
    PopKeepsFlat(st, s);
    if s.stack != [] && Top(s.stack) == '(' {
      var below := s.stack[..|s.stack| - 1];
      assert s.stack == below + ['('];
      EmittedPush(below, '(');
      assert Step(st, Parenthesis(c)) == State(s.out, below);
    } else {
      assert Step(st, Parenthesis(c)) == s;
    }
  }

  lemma {:induction false} RunOperators(st: State, consumed: seq<Token>, ts: seq<Token>)
    requires OperatorsKept(st, consumed)
    ensures OperatorsKept(Run(st, ts), consumed + ts)
    decreases |ts|
  {
    if ts == [] {
      assert consumed + ts == consumed;
    } else {
      StepOperators(st, consumed, ts[0]);
      assert consumed + ts == (consumed + [ts[0]]) + ts[1..];
      RunOperators(Step(st, ts[0]), consumed + [ts[0]], ts[1..]);
    }
  }

  lemma StepNoParenthesis(st: State, t: Token)
    requires NoParenthesis(st.out)
    ensures NoParenthesis(Step(st, t).out)
  {
    match t
    case Number(_) =>
    case Operation(c) =>
      EmittedOperations(st.stack[|PopAtLeast(st, Priority(c)).stack|..]);
    case Parenthesis(c) =>
      EmittedOperations(st.stack[|PopToOpen(st).stack|..]);
  }

  lemma {:induction false} RunNoParenthesis(st: State, ts: seq<Token>)
    requires NoParenthesis(st.out)
    ensures NoParenthesis(Run(st, ts).out)
    decreases |ts|
  {
    if ts != [] {
      StepNoParenthesis(st, ts[0]);
      RunNoParenthesis(Step(st, ts[0]), ts[1..]);
    }
  }

  /** Entries with no '(' among them add no marker to the output when popped. */
  lemma NoMarkerEmitted(out: seq<Token>, moved: seq<char>)
    requires Operation('(') !in out
    requires forall k :: 0 <= k < |moved| ==> moved[k] != '('
    ensures Operation('(') !in out + Emitted(moved)
    ensures multiset(moved)['('] == 0
  {
    EmittedContents(moved);
    assert '(' !in moved;
    assert multiset(Emitted(moved))[Operation('(')] == 0;
  }

  lemma UnclosedStep(consumed: seq<Token>, t: Token)
    ensures Unclosed(consumed + [t]) == match t
      case Parenthesis(c) =>
        if c == '(' then Unclosed(consumed) + 1
        else if Unclosed(consumed) > 0 then Unclosed(consumed) - 1 else 0
      case _ => Unclosed(consumed)
    ensures Parens(consumed + [t]) == Parens(consumed) + (if t.Parenthesis? then 1 else 0)
  {
    assert (consumed + [t])[..|consumed|] == consumed;
    ParensAppend(consumed, [t]);
  }

  lemma StepMarked(st: State, consumed: seq<Token>, t: Token)
    requires Marked(st, consumed)
    requires t.Operation? ==> IsArithmetic(t.symbol)
    ensures Marked(Step(st, t), consumed + [t])
  {
    UnclosedStep(consumed, t);
    match t
    case Number(_) =>
    case Operation(c) =>
      OperationMarked(st, consumed, c);
    case Parenthesis(c) =>
      if c != '(' {
        CloseMarked(st, consumed, c);
      }
  }

  /** Popping entries other than '(' markers keeps the markers where they are and the length of the would-be output. */
  lemma PopKeepsMarked(st: State, r: State, consumed: seq<Token>)
    requires |r.stack| <= |st.stack| && r.stack == st.stack[..|r.stack|]
    requires r.out == st.out + Emitted(st.stack[|r.stack|..])
    requires forall k :: |r.stack| <= k < |st.stack| ==> st.stack[k] != '('
    requires Marked(st, consumed)
    ensures Marked(r, consumed)
  {
    var moved := st.stack[|r.stack|..];
    assert st.stack == r.stack + moved;
    NoMarkerEmitted(st.out, moved);
  }

  /** An operation that pops no marker: the priority of an arithmetic operator is above the marker's. */
  lemma ArithmeticPopsNoMarker(st: State, c: char)
    requires IsArithmetic(c)
    ensures var s := PopAtLeast(st, Priority(c));
      forall k :: |s.stack| <= k < |st.stack| ==> st.stack[k] != '('
  {
    PoppedAtLeast(st, Priority(c));
  }

  lemma OperationMarked(st: State, consumed: seq<Token>, c: char)
    requires Marked(st, consumed) && IsArithmetic(c)
    ensures Marked(Step(st, Operation(c)), consumed + [Operation(c)])
  {
    var s := PopAtLeast(st, Priority(c));
    assert Step(st, Operation(c)) == State(s.out, s.stack + [c]);
    ArithmeticPopsNoMarker(st, c);
    PopKeepsMarked(st, s, consumed);
    PushMarked(s, consumed, c);
  }

  lemma PushMarked(s: State, consumed: seq<Token>, c: char)
    requires Marked(s, consumed) && c != '('
    ensures Marked(State(s.out, s.stack + [c]), consumed + [Operation(c)])
  {
    UnclosedStep(consumed, Operation(c));
  }

  lemma CloseMarked(st: State, consumed: seq<Token>, c: char)
    requires Marked(st, consumed) && c != '('
    ensures Marked(Step(st, Parenthesis(c)), consumed + [Parenthesis(c)])
  {
    var s := PopToOpen(st);
    PopKeepsMarked(st, s, consumed);
    if s.stack != [] && Top(s.stack) == '(' {
      assert Step(st, Parenthesis(c)) == State(s.out, s.stack[..|s.stack| - 1]);
      MatchMarked(s, consumed, c);
    } else {
      assert Step(st, Parenthesis(c)) == s;
      UnclosedStep(consumed, Parenthesis(c));
    }
  }

  /** A ')' that meets a '(' marker on top of the stack removes it. */
  lemma MatchMarked(s: State, consumed: seq<Token>, c: char)
    requires Marked(s, consumed) && c != '('
    requires s.stack != [] && Top(s.stack) == '('
    ensures Marked(State(s.out, s.stack[..|s.stack| - 1]), consumed + [Parenthesis(c)])
  {
    UnclosedStep(consumed, Parenthesis(c));
    assert s.stack == s.stack[..|s.stack| - 1] + ['('];
  }

  lemma {:induction false} RunMarked(st: State, consumed: seq<Token>, ts: seq<Token>)
    requires Marked(st, consumed)
    requires ArithmeticOps(ts)
    ensures Marked(Run(st, ts), consumed + ts)
    decreases |ts|
  {
    if ts == [] {
      assert consumed + ts == consumed;
    } else {
      assert ts[0] in ts;
      StepMarked(st, consumed, ts[0]);
      assert consumed + ts == (consumed + [ts[0]]) + ts[1..];
      assert ArithmeticOps(ts[1..]) by {
        forall u | u in ts[1..] ensures u in ts { }
      }
      RunMarked(Step(st, ts[0]), consumed + [ts[0]], ts[1..]);
    }
  }

  /** The final output is the output so far followed by the drained stack. */
  lemma PostfixIsFlat(ts: seq<Token>)
    ensures ToPostfix(ts) == Flat(Run(State([], []), ts))
  {
  }

  /** The Number tokens reach the output unchanged and in their input order. */
  lemma ToPostfixNumbers(ts: seq<Token>)
    ensures Numbers(ToPostfix(ts)) == Numbers(ts)
  {
    PostfixIsFlat(ts);
    assert [] + ts == ts;
    RunNumbers(State([], []), [], ts);
    var st := Run(State([], []), ts);
    EmittedOperations(st.stack);
    NumbersAppend(st.out, Emitted(st.stack));
  }

  /** Every arithmetic operator of the input appears in the output exactly as often as in the input. */
  lemma ToPostfixOperators(ts: seq<Token>)
    ensures forall c :: IsArithmetic(c) ==>
      multiset(ToPostfix(ts))[Operation(c)] == multiset(ts)[Operation(c)]
  {
    PostfixIsFlat(ts);
    assert [] + ts == ts;
    RunOperators(State([], []), [], ts);
  }

  /** The output never holds a Parenthesis token. */
  lemma ToPostfixNoParenthesis(ts: seq<Token>)
    ensures forall t :: t in ToPostfix(ts) ==> !t.Parenthesis?
  {
    PostfixIsFlat(ts);
    RunNoParenthesis(State([], []), ts);
    EmittedOperations(Run(State([], []), ts).stack);
  }

  /**
   On tokens whose operations are all arithmetic, every '(' left unmatched
   reaches the output as the marker Operation('('), and the output holds
   every input token except the parentheses, plus those markers.
   */
  lemma ToPostfixLeftovers(ts: seq<Token>)
    requires ArithmeticOps(ts)
    ensures multiset(ToPostfix(ts))[Operation('(')] == Unclosed(ts)
    ensures |ToPostfix(ts)| == |ts| - Parens(ts) + Unclosed(ts)
  {
    PostfixIsFlat(ts);
    assert [] + ts == ts;
    RunMarked(State([], []), [], ts);
    EmittedContents(Run(State([], []), ts).stack);
  }

  /**
   On balanced input (every '(' matched) the output holds no marker and
   exactly the input's tokens other than parentheses.
   */
  lemma ToPostfixBalanced(ts: seq<Token>)
    requires ArithmeticOps(ts) && Unclosed(ts) == 0
    ensures Operation('(') !in ToPostfix(ts)
    ensures |ToPostfix(ts)| == |ts| - Parens(ts)
  {
    ToPostfixLeftovers(ts);
  }
}
