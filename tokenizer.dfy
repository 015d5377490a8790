/**
 The tokenizer: a left-to-right scan of the input that gathers digits and
 '.' into a pending number, flushes the pending number into a Number token
 at every other character and at the end of the input, turns the four operator characters into
 Operation tokens and "()" into Parenthesis tokens, and drops every other
 character.

 Lex is the reference definition: it consumes one maximal run of digits
 and dots at a time. Tokenize is the source's loop with its accumulator,
 proved to compute Lex.
 */
module Tokenizer {
  import opened Tokens
  import opened Numerals

  /** The tokens a character other than a digit or '.' produces. */
  function Emit(c: char): seq<Token> {
    if IsArithmetic(c) then [Operation(c)]
    else if c == '(' || c == ')' then [Parenthesis(c)]
    else []
  }

  /** The length of the run of digits and dots that starts s. */
  function RunLength(s: string): (n: nat)
    ensures n <= |s|
    ensures forall k :: 0 <= k < n ==> IsNumChar(s[k])
    ensures n < |s| ==> !IsNumChar(s[n])
  {
    if s == [] || !IsNumChar(s[0]) then 0 else 1 + RunLength(s[1..])
  }

  /** Puts ts in front of a successful result, and passes a failure on. */
  function Prepend(ts: seq<Token>, r: Result<seq<Token>>): Result<seq<Token>> {
    match r
    case Ok(rest) => Ok(ts + rest)
    case Err(e) => Err(e)
  }

  /** Joins two results; the first failure wins. */
  function Concat(r1: Result<seq<Token>>, r2: Result<seq<Token>>): Result<seq<Token>> {
    match r1
    case Ok(ts) => Prepend(ts, r2)
    case Err(e) => Err(e)
  }

  /** The tokens of s, or InvalidNumber when a run of digits and dots does not parse. */
  function Lex(s: string): Result<seq<Token>>
    decreases |s|
  {
    if s == [] then Ok([])
    else if IsNumChar(s[0]) then
      var n := RunLength(s);
      match ParseNumber(s[..n])
      case None => Err(InvalidNumber)
      case Some(v) => Prepend([Number(v)], Lex(s[n..]))
    else
      Prepend(Emit(s[0]), Lex(s[1..]))
  }

  /**
   The source's scan, one character at a time: tokens so far, the pending
   run cur, and the input s still to read.
   */
  function Scan(tokens: seq<Token>, cur: string, s: string): Result<seq<Token>>
    decreases |s|
  {
    if s == [] then
      if cur == "" then Ok(tokens)
      else
        match ParseNumber(cur)
        case None => Err(InvalidNumber)
        case Some(v) => Ok(tokens + [Number(v)])
    else if IsNumChar(s[0]) then
      Scan(tokens, cur + [s[0]], s[1..])
    else if cur == "" then
      Scan(tokens + Emit(s[0]), "", s[1..])
    else
      match ParseNumber(cur)
      case None => Err(InvalidNumber)
      case Some(v) => Scan(tokens + [Number(v)] + Emit(s[0]), "", s[1..])
  }

  /** The source's Tokenize: one pass with a pending-number accumulator. */
  method Tokenize(input: string) returns (r: Result<seq<Token>>)
    ensures r == Lex(input)
  {
    var tokens: seq<Token> := [];
    var currentNum: string := "";
    ScanIsLex([], "", input);
    assert "" + input == input;
    PrependNothing(Lex(input));
    for i := 0 to |input|
      invariant Scan(tokens, currentNum, input[i..]) == Lex(input)
    {
      var ch := input[i];
      assert input[i..][0] == ch && input[i..][1..] == input[i + 1..];
      if IsNumChar(ch) {
        currentNum := currentNum + [ch];
      } else {
        if currentNum != "" {
          var parsed := ParseNumber(currentNum);
          if parsed.None? {
            return Err(InvalidNumber);
          }
          tokens := tokens + [Number(parsed.value)];
          currentNum := "";
        }
        ghost var flushed := tokens;
        if IsArithmetic(ch) {
          tokens := tokens + [Operation(ch)];
          assert Emit(ch) == [Operation(ch)];
        } else if ch == '(' || ch == ')' {
          tokens := tokens + [Parenthesis(ch)];
          assert Emit(ch) == [Parenthesis(ch)];
        } else {
          assert tokens == flushed + Emit(ch) by { assert flushed + [] == flushed; }
        }
      }
    }
    if currentNum != "" {
      var parsed := ParseNumber(currentNum);
      if parsed.None? {
        return Err(InvalidNumber);
      }
      tokens := tokens + [Number(parsed.value)];
    }
    return Ok(tokens);
  }

  /** The scan computes Lex: what is still to read is lexed after the pending run. */
  lemma {:induction false} ScanIsLex(tokens: seq<Token>, cur: string, s: string)
    requires forall k :: 0 <= k < |cur| ==> IsNumChar(cur[k])
    ensures Scan(tokens, cur, s) == Prepend(tokens, Lex(cur + s))
    decreases |s|
  {
    if s == [] {
      assert cur + s == cur;
      LexAtEnd(tokens, cur);
    } else if IsNumChar(s[0]) {
      assert cur + s == (cur + [s[0]]) + s[1..];
      ScanIsLex(tokens, cur + [s[0]], s[1..]);
    } else {
      assert s[0..] == s;
      LexAtBreak(s, 0, tokens, cur);
      assert "" + s[1..] == s[1..];
      if cur == "" {
        ScanIsLex(tokens + Emit(s[0]), "", s[1..]);
      } else if ParseNumber(cur).Some? {
        ScanIsLex(tokens + [Number(ParseNumber(cur).value)] + Emit(s[0]), "", s[1..]);
      }
    }
  }

  // ---------------------------------------------------------------------
  // How Lex splits

  /** A prefix of digits and dots ended by a non-number character is a run. */
  lemma RunLengthIs(s: string, n: nat)
    requires n <= |s|
    requires forall k :: 0 <= k < n ==> IsNumChar(s[k])
    requires n < |s| ==> !IsNumChar(s[n])
    ensures RunLength(s) == n
    decreases n
  {
    if n > 0 {
      RunLengthIs(s[1..], n - 1);
    }
  }

  lemma PrependNothing(r: Result<seq<Token>>)
    ensures Prepend([], r) == r
  {
    match r
    case Err(_) =>
    case Ok(q) => assert [] + q == q;
  }

  lemma PrependPrepend(ts: seq<Token>, us: seq<Token>, r: Result<seq<Token>>)
    ensures Prepend(ts, Prepend(us, r)) == Prepend(ts + us, r)
  {
    match r
    case Err(_) =>
    case Ok(q) => assert ts + (us + q) == ts + us + q;
  }

  lemma PrependConcat(ts: seq<Token>, r1: Result<seq<Token>>, r2: Result<seq<Token>>)
    ensures Concat(Prepend(ts, r1), r2) == Prepend(ts, Concat(r1, r2))
  {
    match r1
    case Err(_) =>
    case Ok(q) =>
      match r2
      case Err(_) =>
      case Ok(q2) => assert ts + q + q2 == ts + (q + q2);
  }

  /**
   Lex distributes over concatenation wherever the cut does not fall
   inside a run of digits and dots.
   */
  lemma {:induction false} LexAppend(a: string, b: string)
    requires a == [] || b == [] || !IsNumChar(a[|a| - 1]) || !IsNumChar(b[0])
    ensures Lex(a + b) == Concat(Lex(a), Lex(b))
    decreases |a|
  {
    if a == [] {
      AppendToNothing(b);
    } else if b == [] {
      AppendNothing(a);
    } else if IsNumChar(a[0]) {
      var n := RunLength(a);
      if n < |a| {
        RunLengthIs(a + b, n);
        assert (a + b)[..n] == a[..n];
        assert (a + b)[n..] == a[n..] + b;
        LexAppend(a[n..], b);
        match ParseNumber(a[..n])
        case None =>
        case Some(v) => PrependConcat([Number(v)], Lex(a[n..]), Lex(b));
      } else {
        AppendAfterRun(a, b);
      }
    } else {
      assert (a + b)[1..] == a[1..] + b;
      LexAppend(a[1..], b);
      PrependConcat(Emit(a[0]), Lex(a[1..]), Lex(b));
    }
  }

  /** Appending to the empty string. */
  lemma AppendToNothing(b: string)
    ensures Lex([] + b) == Concat(Lex([]), Lex(b))
  {
    assert [] + b == b;
    match Lex(b)
    case Err(_) =>
    case Ok(q) => assert [] + q == q;
  }

  /** Appending the empty string. */
  lemma AppendNothing(a: string)
    ensures Lex(a + []) == Concat(Lex(a), Lex([]))
  {
    assert a + [] == a;
    match Lex(a)
    case Err(_) =>
    case Ok(q) => assert q + [] == q;
  }

  /** A string that is one whole run, followed by a character that ends it. */
  lemma AppendAfterRun(a: string, b: string)
    requires a != [] && b != [] && !IsNumChar(b[0])
    requires RunLength(a) == |a|
    ensures Lex(a + b) == Concat(Lex(a), Lex(b))
  {
    var n := |a|;
    RunLengthIs(a + b, n);
    assert (a + b)[..n] == a;
    assert (a + b)[n..] == b;
    assert a[..n] == a;
    assert a[n..] == [];
    match ParseNumber(a)
    case None =>
    case Some(v) =>
      assert Lex(a) == Prepend([Number(v)], Lex([]));
      assert [Number(v)] + [] == [Number(v)];
      assert Lex(a) == Ok([Number(v)]);
      assert Lex(a + b) == Prepend([Number(v)], Lex(b));
  }


  /** Lex of s is Lex of its first j characters followed by Lex of the rest. */
  lemma LexSplit(s: string, j: nat)
    requires j <= |s|
    requires j == 0 || !IsNumChar(s[j - 1])
    ensures Lex(s) == Concat(Lex(s[..j]), Lex(s[j..]))
  {
    assert s == s[..j] + s[j..];
    LexAppend(s[..j], s[j..]);
  }

  /** A whole run followed by a non-number character becomes one parsed number. */
  lemma LexNumeralThen(run: string, rest: string)
    requires |run| > 0
    requires forall k :: 0 <= k < |run| ==> IsNumChar(run[k])
    requires rest == [] || !IsNumChar(rest[0])
    ensures Lex(run + rest) == match ParseNumber(run)
                               case None => Err(InvalidNumber)
                               case Some(v) => Prepend([Number(v)], Lex(rest))
  {
    var s := run + rest;
    RunLengthIs(s, |run|);
    assert s[..|run|] == run;
    assert s[|run|..] == rest;
  }

  /**
   The tokenizer's step at input[i], a character that is neither a digit
   nor '.', with the run cur pending: the run is flushed as one number,
   or fails to parse, and then the character's own tokens follow.
   */
  lemma LexAtBreak(input: string, i: nat, tokens: seq<Token>, cur: string)
    requires i < |input| && !IsNumChar(input[i])
    requires forall k :: 0 <= k < |cur| ==> IsNumChar(cur[k])
    ensures cur == "" ==>
              Prepend(tokens, Lex(cur + input[i..])) ==
              Prepend(tokens + Emit(input[i]), Lex(cur + input[i + 1..]))
    ensures cur != "" && ParseNumber(cur).None? ==>
              Prepend(tokens, Lex(cur + input[i..])) == Err(InvalidNumber)
    ensures cur != "" && ParseNumber(cur).Some? ==>
              Prepend(tokens, Lex(cur + input[i..])) ==
              Prepend(tokens + [Number(ParseNumber(cur).value)] + Emit(input[i]), Lex("" + input[i + 1..]))
  {
    var rest := input[i..];
    assert rest[1..] == input[i + 1..];
    assert "" + input[i + 1..] == input[i + 1..];
    assert Lex(rest) == Prepend(Emit(input[i]), Lex(input[i + 1..]));
    if cur == "" {
      assert cur + rest == rest;
      assert cur + input[i + 1..] == input[i + 1..];
      PrependPrepend(tokens, Emit(input[i]), Lex(input[i + 1..]));
    } else {
      LexNumeralThen(cur, rest);
      match ParseNumber(cur)
      case None =>
      case Some(v) =>
        PrependPrepend([Number(v)], Emit(input[i]), Lex(input[i + 1..]));
        PrependPrepend(tokens, [Number(v)] + Emit(input[i]), Lex(input[i + 1..]));
        assert tokens + ([Number(v)] + Emit(input[i])) == tokens + [Number(v)] + Emit(input[i]);
    }
  }

  /** The tokenizer's final flush of the pending run cur. */
  lemma LexAtEnd(tokens: seq<Token>, cur: string)
    requires forall k :: 0 <= k < |cur| ==> IsNumChar(cur[k])
    ensures cur == "" ==> Prepend(tokens, Lex(cur)) == Ok(tokens)
    ensures cur != "" && ParseNumber(cur).None? ==> Prepend(tokens, Lex(cur)) == Err(InvalidNumber)
    ensures cur != "" && ParseNumber(cur).Some? ==>
              Prepend(tokens, Lex(cur)) == Ok(tokens + [Number(ParseNumber(cur).value)])
  {
    assert tokens + [] == tokens;
    if cur != "" {
      assert cur + [] == cur;
      LexNumeralThen(cur, []);
      match ParseNumber(cur)
      case None =>
      case Some(v) => assert tokens + ([Number(v)] + []) == tokens + [Number(v)];
    }
  }

  // ---------------------------------------------------------------------
  // What the tokens look like

  /** The tokens the tokenizer can produce: the four operators, the two parentheses, and numbers. */
  predicate Lexical(t: Token) {
    match t
    case Number(_) => true
    case Operation(c) => IsArithmetic(c)
    case Parenthesis(c) => c == '(' || c == ')'
  }

  /** Every token is one of the three kinds, and there are never more tokens than characters. */
  lemma {:induction false} LexShape(s: string)
    ensures Lex(s).Ok? ==> |Lex(s).value| <= |s| && forall k :: 0 <= k < |Lex(s).value| ==> Lexical(Lex(s).value[k])
    decreases |s|
  {
    if s != [] {
      if IsNumChar(s[0]) {
        var n := RunLength(s);
        LexShape(s[n..]);
        match ParseNumber(s[..n])
        case None =>
        case Some(v) =>
          match Lex(s[n..])
          case Err(_) =>
          case Ok(rest) =>
            assert forall k :: 1 <= k < |[Number(v)] + rest| ==> ([Number(v)] + rest)[k] == rest[k - 1];
      } else {
        LexShape(s[1..]);
        match Lex(s[1..])
        case Err(_) =>
        case Ok(rest) =>
          var e := Emit(s[0]);
          assert forall k :: |e| <= k < |e + rest| ==> (e + rest)[k] == rest[k - |e|];
      }
    }
  }

  /**
   A character that yields no token still ends the pending number, so
   removing it where it does not join two runs of digits changes nothing:
   "2 + 3" reads as "2+3".
   */
  lemma SeparatorIgnored(a: string, c: char, b: string)
    requires !IsNumChar(c) && Emit(c) == []
    requires a == [] || b == [] || !IsNumChar(a[|a| - 1]) || !IsNumChar(b[0])
    ensures Lex(a + [c] + b) == Lex(a + b)
  {
    assert a + [c] + b == a + ([c] + b);
    LexAppend(a, [c] + b);
    assert ([c] + b)[1..] == b;
    PrependNothing(Lex(b));
    LexAppend(a, b);
  }

  /** Position k of s starts a maximal run of digits and dots. */
  predicate RunStart(s: string, k: nat)
    requires k < |s|
  {
    IsNumChar(s[k]) && (k == 0 || !IsNumChar(s[k - 1]))
  }

  /** The number of maximal runs of digits and dots that start at position k or later. */
  function RunsFrom(s: string, k: nat): nat
    decreases |s| - k
  {
    if k >= |s| then 0 else (if RunStart(s, k) then 1 else 0) + RunsFrom(s, k + 1)
  }

  /** No run starts strictly inside a run. */
  lemma {:induction false} RunsInsideRun(s: string, j: nat, m: nat)
    requires j < m <= |s|
    requires forall k :: j <= k < m ==> IsNumChar(s[k])
    ensures RunsFrom(s, j + 1) == RunsFrom(s, m)
    decreases m - j
  {
    if j + 1 < m {
      RunsInsideRun(s, j + 1, m);
    }
  }

  /** The numbers of a result with ts put in front. */
  lemma NumbersPrepend(ts: seq<Token>, r: Result<seq<Token>>)
    ensures r.Ok? ==> Prepend(ts, r).Ok? && |Numbers(Prepend(ts, r).value)| == |Numbers(ts)| + |Numbers(r.value)|
  {
    if r.Ok? {
      NumbersAppend(ts, r.value);
    }
  }

  /** The count of numbers read from position j equals the count of runs from j. */
  predicate CountsRuns(s: string, j: nat)
    requires j <= |s|
  {
    Lex(s[j..]).Ok? ==> |Numbers(Lex(s[j..]).value)| == RunsFrom(s, j)
  }

  /** Where a run starting at j ends. */
  lemma RunBounds(s: string, j: nat)
    requires j < |s| && IsNumChar(s[j])
    ensures var n := RunLength(s[j..]);
            0 < n && j + n <= |s| && (j + n == |s| || !IsNumChar(s[j + n])) &&
            forall k :: j <= k < j + n ==> IsNumChar(s[k])
  {
    var rest := s[j..];
    var n := RunLength(rest);
    forall k | j <= k < j + n
      ensures IsNumChar(s[k])
    {
      assert rest[k - j] == s[k];
    }
    if j + n < |s| {
      assert rest[n] == s[j + n];
    }
  }

  /** Lex at a run: one number, then whatever follows the run. */
  lemma LexRunStep(s: string, j: nat)
    requires j < |s| && IsNumChar(s[j])
    ensures var n := RunLength(s[j..]);
            j + n <= |s| &&
            (Lex(s[j..]).Ok? ==>
               Lex(s[j + n..]).Ok? && |Numbers(Lex(s[j..]).value)| == 1 + |Numbers(Lex(s[j + n..]).value)|)
  {
    var rest := s[j..];
    var n := RunLength(rest);
    assert rest[n..] == s[j + n..];
    match ParseNumber(rest[..n])
    case None =>
    case Some(v) =>
      NumbersPrepend([Number(v)], Lex(s[j + n..]));
  }

  /** At the start of a run: one number for this run, then the count from k, where the run ends. */
  lemma RunCase(s: string, j: nat) returns (k: nat)
    requires j < |s| && IsNumChar(s[j]) && (j == 0 || !IsNumChar(s[j - 1]))
    ensures j < k <= |s| && (k == |s| || !IsNumChar(s[k]))
    ensures CountsRuns(s, k) ==> CountsRuns(s, j)
  {
    var n := RunLength(s[j..]);
    RunBounds(s, j);
    RunsInsideRun(s, j, j + n);
    assert RunStart(s, j);
    LexRunStep(s, j);
    k := j + n;
  }

  /** Nothing is left to read: no numbers and no runs. */
  lemma EndCase(s: string)
    ensures CountsRuns(s, |s|)
  {
    assert s[|s|..] == [];
  }

  /** At a character outside any run: no number for it, then the count after it. */
  lemma OtherCase(s: string, j: nat)
    requires j < |s| && !IsNumChar(s[j])
    ensures CountsRuns(s, j + 1) ==> CountsRuns(s, j)
  {
    assert s[j..][1..] == s[j + 1..];
    NumbersPrepend(Emit(s[j]), Lex(s[j + 1..]));
    assert Numbers(Emit(s[j])) == [];
    assert !RunStart(s, j);
  }

  /** One step of the count: the position after the token read at j, which is again not inside a run. */
  lemma NextBoundary(s: string, j: nat) returns (k: nat)
    requires j < |s|
    requires j == 0 || !IsNumChar(s[j - 1]) || !IsNumChar(s[j])
    ensures j < k <= |s|
    ensures k == |s| || !IsNumChar(s[k - 1]) || !IsNumChar(s[k])
    ensures CountsRuns(s, k) ==> CountsRuns(s, j)
  {
    if IsNumChar(s[j]) {
      k := RunCase(s, j);
    } else {
      k := j + 1;
      OtherCase(s, j);
    }
  }

  /**
   Each maximal run of digits and dots becomes exactly one Number token:
   reading s from a position that is not inside a run yields one number
   per run.
   */
  lemma {:induction false} LexRuns(s: string, j: nat)
    requires j <= |s|
    requires j == 0 || j == |s| || !IsNumChar(s[j - 1]) || !IsNumChar(s[j])
    ensures CountsRuns(s, j)
    decreases |s| - j
  {
    if j == |s| {
      EndCase(s);
    } else {
      var k := NextBoundary(s, j);
      LexRuns(s, k);
    }
  }

  /** Every maximal run of digits and dots of the input becomes exactly one Number token. */
  lemma NumberPerRun(s: string)
    ensures Lex(s).Ok? ==> |Numbers(Lex(s).value)| == RunsFrom(s, 0)
  {
    LexRuns(s, 0);
    assert s[0..] == s;
  }

  // ---------------------------------------------------------------------
  // When tokenizing fails

  /** Position k starts a maximal run of digits and dots that is not a numeral. */
  predicate MalformedRun(s: string, k: nat)
    requires k < |s|
  {
    RunStart(s, k) && !IsNumeral(s[k..k + RunLength(s[k..])])
  }

  /**
   Lexing from position j fails exactly when a malformed run starts at j or
   later, and then with InvalidNumber.
   */
  predicate FailsAtMalformed(s: string, j: nat)
    requires j <= |s|
  {
    (Lex(s[j..]).Err? <==> exists k :: j <= k < |s| && MalformedRun(s, k)) &&
    (Lex(s[j..]).Err? ==> Lex(s[j..]) == Err(InvalidNumber))
  }

  /** Lex at the start of a run: InvalidNumber when the run is no numeral, else its token ts and then what follows the run. */
  lemma {:induction false} LexAtRun(s: string, j: nat) returns (ts: seq<Token>)
    requires j < |s| && IsNumChar(s[j])
    ensures var k := j + RunLength(s[j..]);
            k <= |s| &&
            (!IsNumeral(s[j..k]) ==> Lex(s[j..]) == Err(InvalidNumber)) &&
            (IsNumeral(s[j..k]) ==> Lex(s[j..]) == Prepend(ts, Lex(s[k..])))
  {
    var rest := s[j..];
    var n := RunLength(rest);
    assert rest[..n] == s[j..j + n] && rest[n..] == s[j + n..];
    assert rest != [] && rest[0] == s[j];
    ts := if IsNumeral(s[j..j + n]) then [Number(ParseNumber(s[j..j + n]).value)] else [];
  }

  /** At the start of a run: it fails here when malformed, and otherwise as the rest after it does. */
  lemma {:induction false} MalformedRunCase(s: string, j: nat) returns (k: nat)
    requires j < |s| && IsNumChar(s[j]) && (j == 0 || !IsNumChar(s[j - 1]))
    ensures j < k <= |s| && (k == |s| || !IsNumChar(s[k]))
    ensures FailsAtMalformed(s, k) ==> FailsAtMalformed(s, j)
  {
    RunBounds(s, j);
    var ts := LexAtRun(s, j);
    k := j + RunLength(s[j..]);
    assert RunStart(s, j);
    if !IsNumeral(s[j..k]) {
      FailsHere(s, j, k);
    } else {
      NoRunStartsInside(s, j, k);
      FailsAfterPrefix(s, j, k, ts);
    }
  }

  /** Inside a run, after its first character, no run starts. */
  lemma NoRunStartsInside(s: string, j: nat, k: nat)
    requires j < |s| && k == j + RunLength(s[j..]) && k <= |s|
    requires forall m :: j <= m < k ==> IsNumChar(s[m])
    requires IsNumeral(s[j..k])
    ensures forall m :: j <= m < k ==> !MalformedRun(s, m)
  {
    assert !MalformedRun(s, j);
    forall m | j < m < k
      ensures !RunStart(s, m)
    {
      assert IsNumChar(s[m - 1]);
    }
  }

  /** A malformed run at j makes lexing from j fail with InvalidNumber. */
  lemma {:induction false} FailsHere(s: string, j: nat, k: nat)
    requires j < |s| && RunStart(s, j) && k == j + RunLength(s[j..]) && k <= |s|
    requires !IsNumeral(s[j..k]) && Lex(s[j..]) == Err(InvalidNumber)
    ensures FailsAtMalformed(s, j)
  {
    assert MalformedRun(s, j);
  }

  /** When s from j lexes as ts before s from k, and no malformed run starts in between, both fail alike. */
  lemma {:induction false} FailsAfterPrefix(s: string, j: nat, k: nat, ts: seq<Token>)
    requires j <= k <= |s|
    requires Lex(s[j..]) == Prepend(ts, Lex(s[k..]))
    requires forall m :: j <= m < k ==> !MalformedRun(s, m)
    ensures FailsAtMalformed(s, k) ==> FailsAtMalformed(s, j)
  {
    MalformedLater(s, j, k);
  }

  /** When no malformed run starts in [j, k), one starts from j exactly when one starts from k. */
  lemma {:induction false} MalformedLater(s: string, j: nat, k: nat)
    requires j <= k <= |s|
    requires forall m :: j <= m < k ==> !MalformedRun(s, m)
    ensures (exists m :: j <= m < |s| && MalformedRun(s, m)) <==> (exists m :: k <= m < |s| && MalformedRun(s, m))
  {
    if exists m :: j <= m < |s| && MalformedRun(s, m) {
      var m :| j <= m < |s| && MalformedRun(s, m);
      assert k <= m;
    }
  }

  /** At a character outside any run: it fails as the rest after it does. */
  lemma {:induction false} MalformedOtherCase(s: string, j: nat)
    requires j < |s| && !IsNumChar(s[j])
    ensures FailsAtMalformed(s, j + 1) ==> FailsAtMalformed(s, j)
  {
    assert s[j..][1..] == s[j + 1..];
    assert !MalformedRun(s, j);
    FailsAfterPrefix(s, j, j + 1, Emit(s[j]));
  }

  /** Reading s from a position that is not inside a run fails exactly at a malformed run. */
  lemma {:induction false} MalformedFrom(s: string, j: nat)
    requires j <= |s|
    requires j == 0 || j == |s| || !IsNumChar(s[j - 1]) || !IsNumChar(s[j])
    ensures FailsAtMalformed(s, j)
    decreases |s| - j
  {
    if j == |s| {
      assert s[j..] == [];
    } else if IsNumChar(s[j]) {
      var k := MalformedRunCase(s, j);
      MalformedFrom(s, k);
    } else {
      MalformedOtherCase(s, j);
      MalformedFrom(s, j + 1);
    }
  }

  /**
   Tokenizing fails exactly when some maximal run of digits and dots is not
   a numeral, and the failure is then InvalidNumber.
   */
  lemma {:induction false} LexFails(s: string)
    ensures Lex(s).Err? <==> exists k :: 0 <= k < |s| && MalformedRun(s, k)
    ensures Lex(s).Err? ==> Lex(s) == Err(InvalidNumber)
  {
    MalformedFrom(s, 0);
    assert s[0..] == s;
  }

}
