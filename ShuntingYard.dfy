/** shuntingYard: infix tokens to postfix with an operator stack and an output queue. */
module ShuntingYard {
  import opened Tokens
  import opened Failures

  /** The converter's working storage: the operator stack, its top at the end, and the
      output queue, its head at the start. */
  datatype State = State(ops: seq<Token>, out: seq<Token>)

  function Top(ops: seq<Token>): Token
    requires |ops| > 0
  {
    ops[|ops| - 1]
  }

  function Pop(ops: seq<Token>): seq<Token>
    requires |ops| > 0
  {
    ops[..|ops| - 1]
  }

  /** The stack top moves to the output queue. */
  function MoveTop(st: State): State
    requires |st.ops| > 0
  {
    State(Pop(st.ops), st.out + [Top(st.ops)])
  }

  /** The while loop of an incoming operator: pop operators that bind at least as tightly. */
  function PopOperators(st: State, p: nat): State
    decreases |st.ops|
  {
    if |st.ops| > 0 && IsOperator(Top(st.ops)) && Precedence(Top(st.ops)) >= p
    then PopOperators(MoveTop(st), p)
    else st
  }

  /** The loop of a ")": pop to the output until a "(" is on top, then discard it; an
      exhausted stack means the ")" has no partner. */
  function PopToOpen(st: State): Result<State>
    decreases |st.ops|
  {
    if |st.ops| == 0 then Err(UnbalancedParentheses)
    else if Top(st.ops) == Sym('(') then Ok(State(Pop(st.ops), st.out))
    else PopToOpen(MoveTop(st))
  }

  /** A ")": close the group and emit the function it was the argument of, if any. */
  function CloseParen(st: State): Result<State>
  {
    match PopToOpen(st)
    case Err(e) => Err(e)
    case Ok(s1) => if |s1.ops| > 0 && IsFunction(Top(s1.ops)) then Ok(MoveTop(s1)) else Ok(s1)
  }

  /** One iteration of the `for` loop: the branches of the `when`, in the source's order.
      A token no branch accepts (an unknown identifier) changes nothing. */
  function Step(st: State, t: Token): Result<State>
  {
    if IsNumeric(t) then Ok(State(st.ops, st.out + [t]))
    else if IsFunction(t) || t == Sym('(') then Ok(State(st.ops + [t], st.out))
    else if t == Sym(')') then CloseParen(st)
    else if IsOperator(t) then
      var s1 := PopOperators(st, Precedence(t));
      Ok(State(s1.ops + [t], s1.out))
    else Ok(st)
  }

  /** The final loop: empty the stack into the output; a "(" left on it is unmatched. */
  function Flush(st: State): Result<seq<Token>>
    decreases |st.ops|
  {
    if |st.ops| == 0 then Ok(st.out)
    else if Top(st.ops) == Sym('(') then Err(UnbalancedParentheses)
    else Flush(MoveTop(st))
  }

  function Run(ts: seq<Token>, st: State): Result<seq<Token>>
    decreases |ts|
  {
    if ts == [] then Flush(st)
    else match Step(st, ts[0])
      case Err(e) => Err(e)
      case Ok(st') => Run(ts[1..], st')
  }

  /** The conversion the method below performs, as a function of its input. */
  function ToPostfix(ts: seq<Token>): Result<seq<Token>>
  {
    Run(ts, State([], []))
  }

  // ---------------------------------------------------------------------------------------
  // A reference for the error condition and the invariants of the working storage

  /** Classic parenthesis balance of a token sequence, `depth` groups being already open. */
  predicate Balanced(ts: seq<Token>, depth: nat)
    decreases |ts|
  {
    if ts == [] then depth == 0
    else if ts[0] == Sym('(') then Balanced(ts[1..], depth + 1)
    else if ts[0] == Sym(')') then depth > 0 && Balanced(ts[1..], depth - 1)
    else Balanced(ts[1..], depth)
  }

  /** Balanced tokens close exactly as many groups as are open. */
  lemma {:induction false} BalancedCounts(ts: seq<Token>, d: nat)
    requires Balanced(ts, d)
    ensures d + CountSym(ts, '(') == CountSym(ts, ')')
    decreases |ts|
  {
    if ts != [] {
      if ts[0] == Sym('(') {
        BalancedCounts(ts[1..], d + 1);
      } else if ts[0] == Sym(')') {
        BalancedCounts(ts[1..], d - 1);
      } else {
        BalancedCounts(ts[1..], d);
      }
    }
  }

  predicate IsParen(t: Token) { t == Sym('(') || t == Sym(')') }

  /** The tokens that reach the output: numbers, operators and known functions. */
  predicate Emittable(t: Token) { IsNumeric(t) || IsOperator(t) || IsFunction(t) }

  /** The emittable tokens of `s`, in order. */
  function Emitted(s: seq<Token>): seq<Token>
  {
    if s == [] then [] else Emitted(Pop(s)) + (if Emittable(Top(s)) then [Top(s)] else [])
  }

  /** The number tokens of `s`, in order. */
  function Numbers(s: seq<Token>): seq<Token>
  {
    if s == [] then [] else Numbers(Pop(s)) + (if IsNumeric(Top(s)) then [Top(s)] else [])
  }

  /** The number of "(" in `s`. */
  function OpenCount(s: seq<Token>): nat
  {
    if s == [] then 0 else OpenCount(Pop(s)) + (if Top(s) == Sym('(') then 1 else 0)
  }

  /** Emitted and Numbers of a single token. */
  lemma Single(t: Token)
    ensures Emitted([t]) == if Emittable(t) then [t] else []
    ensures Numbers([t]) == if IsNumeric(t) then [t] else []
  {
    var none: seq<Token> := [];
    assert Pop([t]) == none && Top([t]) == t;
    assert Emitted(none) == none && Numbers(none) == none;
    assert none + [t] == [t] && none + none == none;
  }

  lemma {:induction false} EmittedConcat(a: seq<Token>, b: seq<Token>)
    ensures Emitted(a + b) == Emitted(a) + Emitted(b)
    decreases |b|
  {
    if b == [] {
      assert a + b == a;
    } else {
      assert Pop(a + b) == a + Pop(b) && Top(a + b) == Top(b);
      EmittedConcat(a, Pop(b));
    }
  }

  lemma {:induction false} NumbersConcat(a: seq<Token>, b: seq<Token>)
    ensures Numbers(a + b) == Numbers(a) + Numbers(b)
    decreases |b|
  {
    if b == [] {
      assert a + b == a;
    } else {
      assert Pop(a + b) == a + Pop(b) && Top(a + b) == Top(b);
      NumbersConcat(a, Pop(b));
    }
  }

  /** What the operator stack can hold: "(", operators and function names. */
  predicate StackOk(ops: seq<Token>)
  {
    forall k :: 0 <= k < |ops| ==> ops[k] == Sym('(') || IsOperator(ops[k]) || IsFunction(ops[k])
  }

  predicate OutOk(out: seq<Token>)
  {
    forall k :: 0 <= k < |out| ==> Emittable(out[k])
  }

  /** Everything that is or will be output: the queue and the stack's emittable entries. */
  function Bag(st: State): multiset<Token>
  {
    multiset(st.out) + multiset(Emitted(st.ops))
  }

  /** The three invariants every move of the converter keeps, `s0` being before and `s1` after. */
  predicate Keeps(s0: State, s1: State)
  {
    StackOk(s1.ops) && Bag(s1) == Bag(s0) && Numbers(s1.out) == Numbers(s0.out) &&
    (OutOk(s0.out) ==> OutOk(s1.out))
  }

  /** Moving the top of a well-formed stack to the output keeps everything pending. */
  lemma MoveTopFacts(st: State)
    requires |st.ops| > 0 && StackOk(st.ops) && Top(st.ops) != Sym('(')
    ensures Keeps(st, MoveTop(st)) && OpenCount(MoveTop(st).ops) == OpenCount(st.ops)
  {
    var x := Top(st.ops);
    assert Emittable(x);
    var s1 := MoveTop(st);
    assert Numbers(s1.out) == Numbers(st.out) by {
      assert Pop(s1.out) == st.out;
    }
    assert multiset(s1.out) == multiset(st.out) + multiset{x};
  }

  /** Discarding a "(" from the top closes one group and loses nothing that is pending. */
  lemma DropOpenFacts(st: State)
    requires |st.ops| > 0 && StackOk(st.ops) && Top(st.ops) == Sym('(')
    ensures Keeps(st, State(Pop(st.ops), st.out)) && OpenCount(Pop(st.ops)) + 1 == OpenCount(st.ops)
  {
    assert !Emittable(Top(st.ops));
    assert Emitted(st.ops) == Emitted(Pop(st.ops));
    assert StackOk(Pop(st.ops));
  }

  lemma PushFacts(st: State, t: Token)
    requires StackOk(st.ops) && (t == Sym('(') || IsOperator(t) || IsFunction(t))
    ensures StackOk(st.ops + [t])
    ensures Bag(State(st.ops + [t], st.out)) == Bag(st) + multiset(Emitted([t]))
    ensures OpenCount(st.ops + [t]) == OpenCount(st.ops) + (if t == Sym('(') then 1 else 0)
  {
    assert Pop(st.ops + [t]) == st.ops;
    assert Pop([t]) == [];
  }

  lemma {:induction false} PopOperatorsFacts(st: State, p: nat)
    requires StackOk(st.ops)
    ensures Keeps(st, PopOperators(st, p)) && OpenCount(PopOperators(st, p).ops) == OpenCount(st.ops)
    decreases |st.ops|
  {
    if |st.ops| > 0 && IsOperator(Top(st.ops)) && Precedence(Top(st.ops)) >= p {
      MoveTopFacts(st);
      PopOperatorsFacts(MoveTop(st), p);
    }
  }

  lemma {:induction false} PopToOpenFacts(st: State)
    requires StackOk(st.ops)
    ensures PopToOpen(st).Err? <==> OpenCount(st.ops) == 0
    ensures PopToOpen(st).Err? ==> PopToOpen(st).error == UnbalancedParentheses
    ensures PopToOpen(st).Ok? ==>
      Keeps(st, PopToOpen(st).value) && OpenCount(PopToOpen(st).value.ops) + 1 == OpenCount(st.ops)
    decreases |st.ops|
  {
    if |st.ops| == 0 {
    } else if Top(st.ops) == Sym('(') {
      DropOpenFacts(st);
    } else {
      MoveTopFacts(st);
      PopToOpenFacts(MoveTop(st));
    }
  }

  lemma CloseParenFacts(st: State)
    requires StackOk(st.ops)
    ensures CloseParen(st).Err? <==> OpenCount(st.ops) == 0
    ensures CloseParen(st).Err? ==> CloseParen(st).error == UnbalancedParentheses
    ensures CloseParen(st).Ok? ==>
      Keeps(st, CloseParen(st).value) && OpenCount(CloseParen(st).value.ops) + 1 == OpenCount(st.ops)
  {
    PopToOpenFacts(st);
    match PopToOpen(st)
    case Err(_) =>
    case Ok(s1) =>
      if |s1.ops| > 0 && IsFunction(Top(s1.ops)) {
        MoveTopFacts(s1);
      }
  }

  /** The entries of a stack in the order they are popped, top first. */
  function Reverse(s: seq<Token>): (r: seq<Token>)
    ensures |r| == |s|
    ensures forall k :: 0 <= k < |s| ==> r[k] == s[|s| - 1 - k]
  {
    if s == [] then [] else [Top(s)] + Reverse(Pop(s))
  }

  /** The loop of a ")" moves everything above the nearest "(" to the output, top first,
      and discards that "(". */
  lemma {:induction false} PopToOpenAbove(pre: seq<Token>, above: seq<Token>, out: seq<Token>)
    requires Sym('(') !in above
    ensures PopToOpen(State(pre + [Sym('(')] + above, out)) == Ok(State(pre, out + Reverse(above)))
    decreases |above|
  {
    var ops := pre + [Sym('(')] + above;
    if above == [] {
      assert ops == pre + [Sym('(')];
      assert Top(ops) == Sym('(') && Pop(ops) == pre;
      assert out + Reverse(above) == out;
    } else {
      var x := Top(above);
      var rest := Pop(above);
      assert above == rest + [x];
      assert x in above;
      assert Top(ops) == x;
      assert Pop(ops) == pre + [Sym('(')] + rest;
      assert forall k :: 0 <= k < |rest| ==> rest[k] == above[k];
      assert Sym('(') !in rest;
      PopToOpenAbove(pre, rest, out + [x]);
      assert (out + [x]) + Reverse(rest) == out + Reverse(above);
    }
  }

  /** A ")" with `above` over its nearest "(": the entries above go to the output top first, and
      a function name under the "(" follows them; with no function name there, the stack
      below stays as it is. */
  lemma CloseParenEmits(pre: seq<Token>, above: seq<Token>, out: seq<Token>)
    requires Sym('(') !in above
    ensures |pre| > 0 && IsFunction(Top(pre)) ==>
      CloseParen(State(pre + [Sym('(')] + above, out)) == Ok(State(Pop(pre), out + Reverse(above) + [Top(pre)]))
    ensures !(|pre| > 0 && IsFunction(Top(pre))) ==>
      CloseParen(State(pre + [Sym('(')] + above, out)) == Ok(State(pre, out + Reverse(above)))
  {
    PopToOpenAbove(pre, above, out);
  }

  /** How a token changes the number of open groups. */
  function Delta(t: Token): int
  {
    if t == Sym('(') then 1 else if t == Sym(')') then -1 else 0
  }

  /** The invariants one successful step keeps, `t` being the token consumed. */
  predicate Advances(st: State, t: Token, s1: State)
  {
    StackOk(s1.ops) && OpenCount(s1.ops) == OpenCount(st.ops) + Delta(t) &&
    Bag(s1) == Bag(st) + multiset(Emitted([t])) &&
    Numbers(s1.out) == Numbers(st.out) + Numbers([t]) &&
    (OutOk(st.out) ==> OutOk(s1.out))
  }

  lemma NumberStepFacts(st: State, t: Token)
    requires StackOk(st.ops) && IsNumeric(t)
    ensures Step(st, t) == Ok(State(st.ops, st.out + [t]))
    ensures Advances(st, t, State(st.ops, st.out + [t]))
  {
    var out := st.out + [t];
    Single(t);
    NumbersConcat(st.out, [t]);
    assert multiset(out) == multiset(st.out) + multiset([t]);
    assert OutOk(st.out) ==> OutOk(out) by {
      if OutOk(st.out) {
        forall k | 0 <= k < |out|
          ensures Emittable(out[k])
        {
          if k < |st.out| {
            assert out[k] == st.out[k];
          }
        }
      }
    }
  }

  lemma PushStepFacts(st: State, t: Token)
    requires StackOk(st.ops) && (IsFunction(t) || t == Sym('('))
    ensures Step(st, t) == Ok(State(st.ops + [t], st.out))
    ensures Advances(st, t, State(st.ops + [t], st.out))
  {
    assert Pop([t]) == [];
    assert Numbers([t]) == [];
    PushFacts(st, t);
  }

  lemma CloseStepFacts(st: State)
    requires StackOk(st.ops)
    ensures Step(st, Sym(')')) == CloseParen(st)
    ensures CloseParen(st).Err? <==> OpenCount(st.ops) == 0
    ensures CloseParen(st).Err? ==> CloseParen(st).error == UnbalancedParentheses
    ensures CloseParen(st).Ok? ==> Advances(st, Sym(')'), CloseParen(st).value)
  {
    var t := Sym(')');
    assert Pop([t]) == [];
    assert Emitted([t]) == [] && Numbers([t]) == [];
    CloseParenFacts(st);
  }

  lemma OperatorStepFacts(st: State, t: Token)
    requires StackOk(st.ops) && IsOperator(t)
    ensures Step(st, t).Ok? && Advances(st, t, Step(st, t).value)
  {
    var s1 := PopOperators(st, Precedence(t));
    var s2 := State(s1.ops + [t], s1.out);
    assert Step(st, t) == Ok(s2);
    PopOperatorsFacts(st, Precedence(t));
    PushFacts(s1, t);
    assert Numbers([t]) == [] by { assert Pop([t]) == []; }
    assert Numbers(s2.out) == Numbers(st.out) + Numbers([t]);
    assert OpenCount(s2.ops) == OpenCount(st.ops) + Delta(t);
  }

  lemma StepFacts(st: State, t: Token)
    requires StackOk(st.ops)
    ensures Step(st, t).Err? <==> t == Sym(')') && OpenCount(st.ops) == 0
    ensures Step(st, t).Err? ==> Step(st, t).error == UnbalancedParentheses
    ensures Step(st, t).Ok? ==> Advances(st, t, Step(st, t).value)
  {
    if IsNumeric(t) {
      NumberStepFacts(st, t);
    } else if IsFunction(t) || t == Sym('(') {
      PushStepFacts(st, t);
    } else if t == Sym(')') {
      CloseStepFacts(st);
    } else if IsOperator(t) {
      OperatorStepFacts(st, t);
    } else {
      assert Pop([t]) == [];
      assert Emitted([t]) == [] && Numbers([t]) == [];
    }
  }

  lemma {:induction false} FlushFacts(st: State)
    requires StackOk(st.ops)
    ensures Flush(st).Err? <==> OpenCount(st.ops) > 0
    ensures Flush(st).Err? ==> Flush(st).error == UnbalancedParentheses
    ensures Flush(st).Ok? ==>
      multiset(Flush(st).value) == Bag(st) &&
      Numbers(Flush(st).value) == Numbers(st.out) &&
      (OutOk(st.out) ==> OutOk(Flush(st).value))
    decreases |st.ops|
  {
    if |st.ops| == 0 {
    } else if Top(st.ops) == Sym('(') {
      DropOpenFacts(st);
    } else {
      MoveTopFacts(st);
      FlushFacts(MoveTop(st));
    }
  }

  /** Balance of a non-empty sequence after its first token. */
  lemma BalancedStep(ts: seq<Token>, d: nat)
    requires ts != [] && (ts[0] == Sym(')') ==> d > 0)
    ensures Balanced(ts, d) <==> Balanced(ts[1..], d + Delta(ts[0]))
  {
  }

  /** Run after one successful step. */
  lemma RunUnfold(ts: seq<Token>, st: State)
    requires ts != [] && Step(st, ts[0]).Ok?
    ensures Run(ts, st) == Run(ts[1..], Step(st, ts[0]).value)
  {
  }

  lemma {:induction false} RunErrors(ts: seq<Token>, st: State)
    requires StackOk(st.ops)
    ensures Run(ts, st).Err? <==> !Balanced(ts, OpenCount(st.ops))
    ensures Run(ts, st).Err? ==> Run(ts, st).error == UnbalancedParentheses
    decreases |ts|
  {
    if ts == [] {
      FlushFacts(st);
    } else {
      var t := ts[0];
      StepFacts(st, t);
      match Step(st, t)
      case Err(_) =>
      case Ok(s1) =>
        RunUnfold(ts, st);
        BalancedStep(ts, OpenCount(st.ops));
        RunErrors(ts[1..], s1);
    }
  }

  /** The emitted tokens and the numbers of a sequence, split after its first token. */
  lemma SplitFirst(ts: seq<Token>)
    requires ts != []
    ensures multiset(Emitted(ts)) == multiset(Emitted([ts[0]])) + multiset(Emitted(ts[1..]))
    ensures Numbers(ts) == Numbers([ts[0]]) + Numbers(ts[1..])
  {
    assert ts == [ts[0]] + ts[1..];
    EmittedConcat([ts[0]], ts[1..]);
    NumbersConcat([ts[0]], ts[1..]);
  }

  lemma {:induction false} RunBag(ts: seq<Token>, st: State)
    requires StackOk(st.ops)
    ensures Run(ts, st).Ok? ==> multiset(Run(ts, st).value) == Bag(st) + multiset(Emitted(ts))
    decreases |ts|
  {
    if ts == [] {
      FlushFacts(st);
    } else {
      var t := ts[0];
      StepFacts(st, t);
      if Step(st, t).Ok? {
        var s1 := Step(st, t).value;
        RunUnfold(ts, st);
        RunBag(ts[1..], s1);
        SplitFirst(ts);
      }
    }
  }

  lemma {:induction false} RunNumbers(ts: seq<Token>, st: State)
    requires StackOk(st.ops)
    ensures Run(ts, st).Ok? ==> Numbers(Run(ts, st).value) == Numbers(st.out) + Numbers(ts)
    decreases |ts|
  {
    if ts == [] {
      FlushFacts(st);
    } else {
      var t := ts[0];
      StepFacts(st, t);
      if Step(st, t).Ok? {
        var s1 := Step(st, t).value;
        RunUnfold(ts, st);
        RunNumbers(ts[1..], s1);
        SplitFirst(ts);
        ConcatAssoc(Numbers(st.out), Numbers([t]), Numbers(ts[1..]));
      }
    }
  }

  lemma {:induction false} RunOutOk(ts: seq<Token>, st: State)
    requires StackOk(st.ops) && OutOk(st.out)
    ensures Run(ts, st).Ok? ==> OutOk(Run(ts, st).value)
    decreases |ts|
  {
    if ts == [] {
      FlushFacts(st);
    } else {
      var t := ts[0];
      StepFacts(st, t);
      if Step(st, t).Ok? {
        RunUnfold(ts, st);
        RunOutOk(ts[1..], Step(st, t).value);
      }
    }
  }

  /** The conversion fails exactly on unbalanced parentheses, and then with that error; on
      success the output holds no parenthesis, is a rearrangement of the input's numbers,
      operators and known function names, and lists the numbers in their input order. */
  lemma ToPostfixFacts(ts: seq<Token>)
    ensures ToPostfix(ts).Err? <==> !Balanced(ts, 0)
    ensures ToPostfix(ts).Err? ==> ToPostfix(ts).error == UnbalancedParentheses
    ensures ToPostfix(ts).Ok? ==> forall t :: t in ToPostfix(ts).value ==> Emittable(t) && !IsParen(t)
    ensures ToPostfix(ts).Ok? ==> multiset(ToPostfix(ts).value) == multiset(Emitted(ts))
    ensures ToPostfix(ts).Ok? ==> Numbers(ToPostfix(ts).value) == Numbers(ts)
  {
    var st := State([], []);
    assert Bag(st) == multiset{};
    RunErrors(ts, st);
    RunBag(ts, st);
    RunNumbers(ts, st);
    RunOutOk(ts, st);
    if ToPostfix(ts).Ok? {
      var o := ToPostfix(ts).value;
      forall t | t in o
        ensures Emittable(t) && !IsParen(t)
      {
        var k :| 0 <= k < |o| && o[k] == t;
      }
    }
  }

  // ---------------------------------------------------------------------------------------
  // The method

  /** shuntingYard, with its stack and queue as local sequences. */
  method Convert(tokens: seq<Token>) returns (r: Result<seq<Token>>)
    ensures r == ToPostfix(tokens)
    ensures r.Err? <==> !Balanced(tokens, 0)
    ensures r.Err? ==> r.error == UnbalancedParentheses
    ensures r.Ok? ==> forall t :: t in r.value ==> Emittable(t) && !IsParen(t)
    ensures r.Ok? ==> multiset(r.value) == multiset(Emitted(tokens))
    ensures r.Ok? ==> Numbers(r.value) == Numbers(tokens)
  {
    ToPostfixFacts(tokens);
    var ops: seq<Token> := [];
    var out: seq<Token> := [];
    for i := 0 to |tokens|
      invariant Run(tokens[i..], State(ops, out)) == ToPostfix(tokens)
    {
      var t := tokens[i];
      assert tokens[i..][1..] == tokens[i + 1..];
      ghost var before := State(ops, out);
      if IsNumeric(t) {
        out := out + [t];
      } else if IsFunction(t) || t == Sym('(') {
        ops := ops + [t];
      } else if t == Sym(')') {
        while |ops| > 0 && Top(ops) != Sym('(')
          invariant PopToOpen(State(ops, out)) == PopToOpen(before)
          decreases |ops|
        {
          out := out + [Top(ops)];
          ops := Pop(ops);
        }
        if |ops| == 0 {
          return Err(UnbalancedParentheses);
        }
        ops := Pop(ops);
        if |ops| > 0 && IsFunction(Top(ops)) {
          out := out + [Top(ops)];
          ops := Pop(ops);
        }
      } else if IsOperator(t) {
        while |ops| > 0 && IsOperator(Top(ops)) && Precedence(Top(ops)) >= Precedence(t)
          invariant PopOperators(State(ops, out), Precedence(t)) == PopOperators(before, Precedence(t))
          decreases |ops|
        {
          out := out + [Top(ops)];
          ops := Pop(ops);
        }
        ops := ops + [t];
      }
      assert Step(before, t) == Ok(State(ops, out));
    }
    while |ops| > 0
      invariant Flush(State(ops, out)) == ToPostfix(tokens)
      decreases |ops|
    {
      if Top(ops) == Sym('(') {
        return Err(UnbalancedParentheses);
      }
      out := out + [Top(ops)];
      ops := Pop(ops);
    }
    r := Ok(out);
  }

  // ---------------------------------------------------------------------------------------
  // Precedence, grouping and functions on small inputs

  /** Run after a first token that steps successfully. */
  lemma RunCons(t: Token, rest: seq<Token>, st: State)
    requires Step(st, t).Ok?
    ensures Run([t] + rest, st) == Run(rest, Step(st, t).value)
  {
    assert ([t] + rest)[0] == t && ([t] + rest)[1..] == rest;
  }

  /** A number, an operator and a number: the operator waits on the stack. */
  lemma FirstOperand(a: Token, o1: Token, b: Token, rest: seq<Token>)
    requires a.Number? && b.Number? && IsOperator(o1)
    ensures Run([a, o1, b] + rest, State([], [])) == Run(rest, State([o1], [a, b]))
  {
    var none: seq<Token> := [];
    var s0 := State(none, none);
    var s1 := State(none, [a]);
    var s2 := State([o1], [a]);
    assert [a, o1, b] + rest == [a] + ([o1] + ([b] + rest));
    assert Step(s0, a) == Ok(State(s0.ops, s0.out + [a]));
    assert s0.out + [a] == [a];
    RunCons(a, [o1] + ([b] + rest), s0);
    assert PopOperators(s1, Precedence(o1)) == s1;
    assert s1.ops + [o1] == [o1];
    assert Step(s1, o1) == Ok(s2);
    RunCons(o1, [b] + rest, s1);
    assert Step(s2, b) == Ok(State(s2.ops, s2.out + [b]));
    assert s2.out + [b] == [a, b];
    RunCons(b, rest, s2);
  }

  /** A second operator that binds no tighter pops the first before the last number. */
  lemma SecondOperatorWeaker(a: Token, o1: Token, b: Token, o2: Token, c: Token)
    requires c.Number? && IsOperator(o1) && IsOperator(o2) && Precedence(o1) >= Precedence(o2)
    ensures Run([o2, c], State([o1], [a, b])) == Ok([a, b, o1, c, o2])
  {
    var none: seq<Token> := [];
    var s3 := State([o1], [a, b]);
    var m := MoveTop(s3);
    assert Pop(s3.ops) == none && Top(s3.ops) == o1;
    assert m == State(none, [a, b] + [o1]);
    assert [a, b] + [o1] == [a, b, o1];
    assert PopOperators(m, Precedence(o2)) == m;
    assert PopOperators(s3, Precedence(o2)) == m;
    var s4 := State([o2], [a, b, o1]);
    assert none + [o2] == [o2];
    assert Step(s3, o2) == Ok(s4);
    assert [o2, c] == [o2] + [c];
    RunCons(o2, [c], s3);
    var s5 := State([o2], [a, b, o1, c]);
    assert Step(s4, c) == Ok(State(s4.ops, s4.out + [c]));
    assert s4.out + [c] == [a, b, o1, c];
    assert [c] == [c] + none;
    RunCons(c, none, s4);
    assert Run(none, s5) == Flush(s5);
    FlushOne(o2, [a, b, o1, c]);
    assert [a, b, o1, c] + [o2] == [a, b, o1, c, o2];
  }

  /** Emptying a stack of one operator. */
  lemma FlushOne(o: Token, out: seq<Token>)
    requires IsOperator(o)
    ensures Flush(State([o], out)) == Ok(out + [o])
  {
    var st := State([o], out);
    assert Top(st.ops) == o && Pop(st.ops) == [];
    assert Flush(st) == Flush(MoveTop(st));
  }

  /** Emptying a stack of two operators: the top one first. */
  lemma FlushTwo(o1: Token, o2: Token, out: seq<Token>)
    requires IsOperator(o1) && IsOperator(o2)
    ensures Flush(State([o1, o2], out)) == Ok(out + [o2, o1])
  {
    var st := State([o1, o2], out);
    assert Top(st.ops) == o2 && Pop(st.ops) == [o1];
    assert Flush(st) == Flush(State([o1], out + [o2]));
    FlushOne(o1, out + [o2]);
    assert out + [o2] + [o1] == out + [o2, o1];
  }

  /** A second operator that binds tighter goes on top of the first and leaves first. */
  lemma SecondOperatorStronger(a: Token, o1: Token, b: Token, o2: Token, c: Token)
    requires c.Number? && IsOperator(o1) && IsOperator(o2) && Precedence(o1) < Precedence(o2)
    ensures Run([o2, c], State([o1], [a, b])) == Ok([a, b, c, o2, o1])
  {
    var none: seq<Token> := [];
    var s3 := State([o1], [a, b]);
    assert PopOperators(s3, Precedence(o2)) == s3;
    var s4 := State([o1, o2], [a, b]);
    assert [o1] + [o2] == [o1, o2];
    assert Step(s3, o2) == Ok(s4);
    assert [o2, c] == [o2] + [c];
    RunCons(o2, [c], s3);
    var s5 := State([o1, o2], [a, b, c]);
    assert Step(s4, c) == Ok(State(s4.ops, s4.out + [c]));
    assert s4.out + [c] == [a, b, c];
    assert [c] == [c] + none;
    RunCons(c, none, s4);
    assert Run(none, s5) == Flush(s5);
    FlushTwo(o1, o2, [a, b, c]);
    assert [a, b, c] + [o2, o1] == [a, b, c, o2, o1];
  }

  /** Two operators between three numbers: the first is emitted before the third number
      exactly when it binds at least as tightly as the second, so operators of equal
      strength group from the left. */
  lemma TwoOperators(a: Token, o1: Token, b: Token, o2: Token, c: Token)
    requires a.Number? && b.Number? && c.Number? && IsOperator(o1) && IsOperator(o2)
    ensures Precedence(o1) >= Precedence(o2) ==> ToPostfix([a, o1, b, o2, c]) == Ok([a, b, o1, c, o2])
    ensures Precedence(o1) < Precedence(o2) ==> ToPostfix([a, o1, b, o2, c]) == Ok([a, b, c, o2, o1])
  {
    assert [a, o1, b, o2, c] == [a, o1, b] + [o2, c];
    FirstOperand(a, o1, b, [o2, c]);
    if Precedence(o1) >= Precedence(o2) {
      SecondOperatorWeaker(a, o1, b, o2, c);
    } else {
      SecondOperatorStronger(a, o1, b, o2, c);
    }
  }

  /** A function applied to a parenthesised number is emitted after it, at the ")". */
  lemma FunctionAfterGroup(f: Token, a: Token)
    requires IsFunction(f) && a.Number?
    ensures ToPostfix([f, Sym('('), a, Sym(')')]) == Ok([a, f])
  {
    var none: seq<Token> := [];
    var p, q := Sym('('), Sym(')');
    var s0 := State(none, none);
    var s1 := State([f], none);
    var s2 := State([f, p], none);
    var s3 := State([f, p], [a]);
    assert [f, p, a, q] == [f] + ([p] + ([a] + [q]));
    assert none + [f] == [f];
    assert Step(s0, f) == Ok(s1);
    RunCons(f, [p] + ([a] + [q]), s0);
    assert [f] + [p] == [f, p];
    assert Step(s1, p) == Ok(s2);
    RunCons(p, [a] + [q], s1);
    assert none + [a] == [a];
    assert Step(s2, a) == Ok(s3);
    RunCons(a, [q], s2);
    assert Top(s3.ops) == p && Pop(s3.ops) == [f];
    assert PopToOpen(s3) == Ok(State([f], [a]));
    assert Top([f]) == f && Pop([f]) == none;
    assert MoveTop(State([f], [a])) == State(none, [a] + [f]);
    assert [a] + [f] == [a, f];
    assert Step(s3, q) == Ok(State(none, [a, f]));
    RunCons(q, none, s3);
    assert [q] + none == [q];
  }
}
