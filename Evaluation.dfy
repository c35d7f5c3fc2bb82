/** evaluateRpn: the postfix sequence run against a stack of values. */
module Evaluation {
  import opened Tokens
  import opened Failures

  /** A double as the evaluator sees it: a finite value, held exactly, or one of NaN and the
      two infinities, which the model does not tell apart. */
  datatype Value = Finite(x: real) | NonFinite

  /** The parts of kotlin.math and java.lang.Math the evaluator calls, as parameters. */
  datatype MathLib = MathLib(
    pow: (real, real) -> Value,
    sin: real -> Value, cos: real -> Value, tan: real -> Value,
    asin: real -> Value, acos: real -> Value, atan: real -> Value,
    log10: real -> Value, ln: real -> Value, sqrt: real -> Value,
    toRadians: real -> real, toDegrees: real -> real)

  // ---------------------------------------------------------------------------------------
  // Number tokens

  function DigitValue(c: char): nat
    requires IsDigit(c)
  {
    c as int - '0' as int
  }

  /** The natural number a string of decimal digits denotes (0 for the empty string). */
  function DigitsValue(w: string): nat
    requires AllDigits(w)
  {
    if w == [] then 0 else 10 * DigitsValue(w[..|w| - 1]) + DigitValue(w[|w| - 1])
  }

  function Pow10(n: nat): (p: nat)
    ensures p >= 1
  {
    if n == 0 then 1 else 10 * Pow10(n - 1)
  }

  /** toDouble of a number token, without rounding: the digits before the point, plus the
      digits after it scaled down by a power of ten. */
  function LiteralValue(w: string): real
  {
    var k := Span(w, IsDigit);
    if k + 1 < |w| && w[k] == '.' then
      var f := Span(w[k + 1..], IsDigit);
      DigitsValue(w[..k]) as real + DigitsValue(w[k + 1..][..f]) as real / Pow10(f) as real
    else
      DigitsValue(w[..k]) as real
  }

  /** A literal without a point denotes the integer its digits spell. */
  lemma LiteralOfDigits(w: string)
    requires AllDigits(w)
    ensures LiteralValue(w) == DigitsValue(w) as real
  {
    SpanUnique(w, IsDigit, |w|);
    assert w[..|w|] == w;
  }

  /** A literal with a point: the integer part plus the fraction digits over 10^(their count). */
  lemma LiteralWithPoint(a: string, b: string)
    requires AllDigits(a) && AllDigits(b) && |b| > 0
    ensures LiteralValue(a + "." + b) == DigitsValue(a) as real + DigitsValue(b) as real / Pow10(|b|) as real
  {
    var w := a + "." + b;
    SpanUnique(w, IsDigit, |a|);
    assert w[..|a|] == a;
    assert w[|a| + 1..] == b;
    SpanUnique(b, IsDigit, |b|);
    assert b[..|b|] == b;
  }

  // ---------------------------------------------------------------------------------------
  // Factorial

  /** n!, the product 2 * ... * n (1 for 0 and 1). */
  function Fact(n: nat): (r: nat)
    ensures r >= 1
  {
    if n <= 1 then 1 else n * Fact(n - 1)
  }

  lemma FactValues()
    ensures Fact(0) == 1 && Fact(1) == 1 && Fact(5) == 120
  {
  }

  /** One more factor, on the reals. */
  lemma FactStep(i: nat)
    requires i >= 2
    ensures Fact(i) as real == i as real * Fact(i - 1) as real
  {
    var a, b := i, Fact(i - 1);
    assert Fact(i) == a * b;
    CastProduct(a, b);
  }

  lemma CastProduct(a: nat, b: nat)
    ensures (a * b) as real == a as real * b as real
  {
  }

  /** The factorial loop: `result` starts at 1 and is multiplied by 2, 3, ..., n in turn. */
  method Factorial(n: nat) returns (r: real)
    ensures r == Fact(n) as real
  {
    r := 1.0;
    var i := 2;
    while i <= n
      invariant 2 <= i <= if n < 2 then 2 else n + 1
      invariant r == Fact(i - 1) as real
    {
      FactStep(i);
      r := r * i as real;
      i := i + 1;
    }
  }

  /** The `!` operand check: NaN, negative and non-integral operands are refused, anything
      else becomes its factorial. */
  function FactorialOf(v: Value): (r: Result<Value>)
    ensures r.Err? ==> r.error == InvalidFactorialOperand
  {
    match v
    case NonFinite => Err(InvalidFactorialOperand)
    case Finite(x) =>
      if x < 0.0 || x != x.Floor as real then Err(InvalidFactorialOperand)
      else Ok(Finite(Fact(x.Floor) as real))
  }

  /** A finite operand is accepted exactly when it is a natural number, and its result is its
      factorial. */
  lemma FactorialOfFinite(x: real)
    ensures FactorialOf(Finite(x)).Ok? <==> 0.0 <= x && x == x.Floor as real
    ensures FactorialOf(Finite(x)).Ok? ==> FactorialOf(Finite(x)).value == Finite(Fact(x.Floor) as real)
  {
  }

  lemma FactorialOfNat(n: nat)
    ensures FactorialOf(Finite(n as real)) == Ok(Finite(Fact(n) as real))
  {
    assert (n as real).Floor == n;
  }

  // ---------------------------------------------------------------------------------------
  // Operators and functions

  /** `%`: a value divided by 100. */
  function Percent(v: Value): Value
  {
    match v
    case Finite(x) => Finite(x / 100.0)
    case NonFinite => NonFinite
  }

  /** The binary operators + - * / ^ on the popped `left` and `right`. Division by zero gives
      an infinity or NaN; a non-finite operand gives a non-finite result. */
  function Binary(lib: MathLib, op: char, left: Value, right: Value): Value
  {
    if left.NonFinite? || right.NonFinite? then NonFinite
    else if op == '+' then Finite(left.x + right.x)
    else if op == '-' then Finite(left.x - right.x)
    else if op == '*' then Finite(left.x * right.x)
    else if op == '/' then (if right.x == 0.0 then NonFinite else Finite(left.x / right.x))
    else lib.pow(left.x, right.x)
  }

  /** What a trigonometric function receives: the value itself in radian mode, converted
      from degrees otherwise. */
  function AngleIn(lib: MathLib, isRadian: bool, x: real): real
  {
    if isRadian then x else lib.toRadians(x)
  }

  /** What an inverse trigonometric function returns: its radians, or them in degrees. */
  function AngleOut(lib: MathLib, isRadian: bool, y: Value): Value
  {
    if isRadian || y.NonFinite? then y else Finite(lib.toDegrees(y.x))
  }

  /** The named functions on a finite operand. */
  function Apply(lib: MathLib, isRadian: bool, name: string, x: real): Value
    requires name in FunctionNames
  {
    if name == "sin" then lib.sin(AngleIn(lib, isRadian, x))
    else if name == "cos" then lib.cos(AngleIn(lib, isRadian, x))
    else if name == "tan" then lib.tan(AngleIn(lib, isRadian, x))
    else if name == "asin" then AngleOut(lib, isRadian, lib.asin(x))
    else if name == "acos" then AngleOut(lib, isRadian, lib.acos(x))
    else if name == "atan" then AngleOut(lib, isRadian, lib.atan(x))
    else if name == "log" then lib.log10(x)
    else if name == "ln" then lib.ln(x)
    else lib.sqrt(x)
  }

  function Unary(lib: MathLib, isRadian: bool, name: string, v: Value): Value
    requires name in FunctionNames
  {
    if v.NonFinite? then NonFinite else Apply(lib, isRadian, name, v.x)
  }

  // ---------------------------------------------------------------------------------------
  // The stack machine

  /** One iteration of the `for` loop, in the order of the source's `when` branches; a token
      no branch accepts leaves the stack as it is. */
  function EvalToken(lib: MathLib, isRadian: bool, stack: seq<Value>, t: Token): Result<seq<Value>>
  {
    var n := |stack|;
    if t.Number? then Ok(stack + [Finite(LiteralValue(t.text))])
    else if IsNumeric(t) then Ok(stack + [NonFinite])
    else if IsOperator(t) then
      if t.c == '!' then
        if n == 0 then Err(MissingOperand)
        else match FactorialOf(stack[n - 1])
          case Err(e) => Err(e)
          case Ok(v) => Ok(stack[..n - 1] + [v])
      else if t.c == '%' then
        if n == 0 then Err(MissingOperand) else Ok(stack[..n - 1] + [Percent(stack[n - 1])])
      else if n < 2 then Err(MissingOperand)
      else Ok(stack[..n - 2] + [Binary(lib, t.c, stack[n - 2], stack[n - 1])])
    else if IsFunction(t) then
      if n == 0 then Err(MissingOperand) else Ok(stack[..n - 1] + [Unary(lib, isRadian, t.name, stack[n - 1])])
    else Ok(stack)
  }

  function EvalFrom(lib: MathLib, isRadian: bool, ts: seq<Token>, stack: seq<Value>): Result<seq<Value>>
    decreases |ts|
  {
    if ts == [] then Ok(stack)
    else match EvalToken(lib, isRadian, stack, ts[0])
      case Err(e) => Err(e)
      case Ok(s) => EvalFrom(lib, isRadian, ts[1..], s)
  }

  /** evaluateRpn as a function of its inputs: run every token, then exactly one value must
      be left. */
  function EvaluateRpn(lib: MathLib, isRadian: bool, rpn: seq<Token>): Result<Value>
  {
    match EvalFrom(lib, isRadian, rpn, [])
    case Err(e) => Err(e)
    case Ok(s) => if |s| != 1 then Err(InvalidFinalStack) else Ok(s[0])
  }

  // ---------------------------------------------------------------------------------------
  // What each kind of token does to the stack

  /** The binary operators pop the right operand, then the left one, and push one result. */
  lemma BinaryOperands(lib: MathLib, isRadian: bool, s: seq<Value>, left: Value, right: Value, op: char)
    requires op == '+' || op == '-' || op == '*' || op == '/' || op == '^'
    ensures EvalToken(lib, isRadian, s + [left, right], Sym(op)) == Ok(s + [Binary(lib, op, left, right)])
  {
    var st := s + [left, right];
    assert st[..|st| - 2] == s;
  }

  /** The arithmetic of the four operators on finite values; "^" is the library's pow. */
  lemma BinaryArithmetic(lib: MathLib, a: real, b: real)
    ensures Binary(lib, '+', Finite(a), Finite(b)) == Finite(a + b)
    ensures Binary(lib, '-', Finite(a), Finite(b)) == Finite(a - b)
    ensures Binary(lib, '*', Finite(a), Finite(b)) == Finite(a * b)
    ensures b != 0.0 <==> Binary(lib, '/', Finite(a), Finite(b)).Finite?
    ensures b != 0.0 ==> Binary(lib, '/', Finite(a), Finite(b)) == Finite(a / b)
    ensures Binary(lib, '^', Finite(a), Finite(b)) == lib.pow(a, b)
  {
  }

  /** `%` replaces the top value v by v/100. */
  lemma PercentOfTop(lib: MathLib, isRadian: bool, s: seq<Value>, x: real)
    ensures EvalToken(lib, isRadian, s + [Finite(x)], Sym('%')) == Ok(s + [Finite(x / 100.0)])
  {
    assert (s + [Finite(x)])[..|s|] == s;
  }

  /** `!` replaces a natural number on top by its factorial and refuses anything else. */
  lemma FactorialOfTop(lib: MathLib, isRadian: bool, s: seq<Value>, v: Value)
    ensures EvalToken(lib, isRadian, s + [v], Sym('!')).Err? <==> FactorialOf(v).Err?
    ensures FactorialOf(v).Err? ==> EvalToken(lib, isRadian, s + [v], Sym('!')) == Err(InvalidFactorialOperand)
    ensures FactorialOf(v).Ok? ==> EvalToken(lib, isRadian, s + [v], Sym('!')) == Ok(s + [FactorialOf(v).value])
  {
    assert (s + [v])[..|s|] == s;
  }

  /** A function replaces the top value by its image; in degree mode the trigonometric
      functions convert their argument to radians, and the inverse ones their result to
      degrees. */
  lemma FunctionOfTop(lib: MathLib, isRadian: bool, s: seq<Value>, name: string, x: real)
    requires name in FunctionNames
    ensures EvalToken(lib, isRadian, s + [Finite(x)], Ident(name)) == Ok(s + [Apply(lib, isRadian, name, x)])
    ensures name == "sin" ==> Apply(lib, isRadian, name, x) == lib.sin(if isRadian then x else lib.toRadians(x))
    ensures name == "asin" && !isRadian && lib.asin(x).Finite? ==>
              Apply(lib, isRadian, name, x) == Finite(lib.toDegrees(lib.asin(x).x))
    ensures name == "sqrt" ==> Apply(lib, isRadian, name, x) == lib.sqrt(x)
  {
    assert (s + [Finite(x)])[..|s|] == s;
  }

  /** The machine after a first token that succeeds. */
  lemma EvalCons(lib: MathLib, isRadian: bool, t: Token, rest: seq<Token>, stack: seq<Value>)
    requires EvalToken(lib, isRadian, stack, t).Ok?
    ensures EvalFrom(lib, isRadian, [t] + rest, stack) == EvalFrom(lib, isRadian, rest, EvalToken(lib, isRadian, stack, t).value)
  {
    assert ([t] + rest)[0] == t && ([t] + rest)[1..] == rest;
  }

  /** A number token pushes its value, whatever follows. */
  lemma NumberThen(lib: MathLib, isRadian: bool, w: string, rest: seq<Token>, stack: seq<Value>)
    ensures EvalFrom(lib, isRadian, [Number(w)] + rest, stack) ==
              EvalFrom(lib, isRadian, rest, stack + [Finite(LiteralValue(w))])
  {
    EvalCons(lib, isRadian, Number(w), rest, stack);
  }

  /** A binary operator token combines the two values on top, whatever follows. */
  lemma BinaryThen(lib: MathLib, isRadian: bool, op: char, rest: seq<Token>, s: seq<Value>, left: Value, right: Value)
    requires op in "+-*/^"
    ensures EvalFrom(lib, isRadian, [Sym(op)] + rest, s + [left, right]) ==
              EvalFrom(lib, isRadian, rest, s + [Binary(lib, op, left, right)])
  {
    BinaryOperands(lib, isRadian, s, left, right, op);
    EvalCons(lib, isRadian, Sym(op), rest, s + [left, right]);
  }

  /** Two numbers and a binary operator push the operator's result. */
  lemma PairThen(lib: MathLib, isRadian: bool, a: string, b: string, op: char, rest: seq<Token>, s: seq<Value>)
    requires op in "+-*/^"
    ensures EvalFrom(lib, isRadian, [Number(a), Number(b), Sym(op)] + rest, s) ==
              EvalFrom(lib, isRadian, rest, s + [Binary(lib, op, Finite(LiteralValue(a)), Finite(LiteralValue(b)))])
  {
    var va, vb := Finite(LiteralValue(a)), Finite(LiteralValue(b));
    var r1 := [Sym(op)] + rest;
    var r0 := [Number(b)] + r1;
    assert [Number(a), Number(b), Sym(op)] + rest == [Number(a)] + r0;
    NumberThen(lib, isRadian, a, r0, s);
    NumberThen(lib, isRadian, b, r1, s + [va]);
    assert s + [va] + [vb] == s + [va, vb];
    BinaryThen(lib, isRadian, op, rest, s, va, vb);
  }

  /** A number and a binary operator combine the value below with the number. */
  lemma OperandThen(lib: MathLib, isRadian: bool, c: string, op: char, rest: seq<Token>, s: seq<Value>, left: Value)
    requires op in "+-*/^"
    ensures EvalFrom(lib, isRadian, [Number(c), Sym(op)] + rest, s + [left]) ==
              EvalFrom(lib, isRadian, rest, s + [Binary(lib, op, left, Finite(LiteralValue(c)))])
  {
    var vc := Finite(LiteralValue(c));
    var r0 := [Sym(op)] + rest;
    assert [Number(c), Sym(op)] + rest == [Number(c)] + r0;
    NumberThen(lib, isRadian, c, r0, s + [left]);
    assert s + [left] + [vc] == s + [left, vc];
    BinaryThen(lib, isRadian, op, rest, s, left, vc);
  }

  /** Two numbers and an operator, then a number and an operator: the first operator's
      result is the second one's left operand. */
  lemma LeftGrouped(lib: MathLib, isRadian: bool, a: string, b: string, o1: char, o2: char, c: string)
    requires o1 in "+-*/^" && o2 in "+-*/^"
    ensures EvaluateRpn(lib, isRadian, [Number(a), Number(b), Sym(o1), Number(c), Sym(o2)]) ==
              Ok(Binary(lib, o2, Binary(lib, o1, Finite(LiteralValue(a)), Finite(LiteralValue(b))), Finite(LiteralValue(c))))
  {
    var none: seq<Value> := [];
    var noTokens: seq<Token> := [];
    var x := Binary(lib, o1, Finite(LiteralValue(a)), Finite(LiteralValue(b)));
    var z := Binary(lib, o2, x, Finite(LiteralValue(c)));
    var rest := [Number(c), Sym(o2)] + noTokens;
    assert [Number(a), Number(b), Sym(o1), Number(c), Sym(o2)] == [Number(a), Number(b), Sym(o1)] + rest;
    PairThen(lib, isRadian, a, b, o1, rest, none);
    OperandThen(lib, isRadian, c, o2, noTokens, none, x);
    assert none + [z] == [z];
  }

  /** Three numbers and two operators: the later operator's result is the earlier one's
      right operand. */
  lemma RightGrouped(lib: MathLib, isRadian: bool, a: string, b: string, c: string, o2: char, o1: char)
    requires o1 in "+-*/^" && o2 in "+-*/^"
    ensures EvaluateRpn(lib, isRadian, [Number(a), Number(b), Number(c), Sym(o2), Sym(o1)]) ==
              Ok(Binary(lib, o1, Finite(LiteralValue(a)), Binary(lib, o2, Finite(LiteralValue(b)), Finite(LiteralValue(c)))))
  {
    var none: seq<Value> := [];
    var noTokens: seq<Token> := [];
    var va := Finite(LiteralValue(a));
    var y := Binary(lib, o2, Finite(LiteralValue(b)), Finite(LiteralValue(c)));
    var z := Binary(lib, o1, va, y);
    var r1 := [Sym(o1)] + noTokens;
    var r0 := [Number(b), Number(c), Sym(o2)] + r1;
    assert [Number(a), Number(b), Number(c), Sym(o2), Sym(o1)] == [Number(a)] + r0;
    NumberThen(lib, isRadian, a, r0, none);
    PairThen(lib, isRadian, b, c, o2, r1, none + [va]);
    assert none + [va] + [y] == none + [va, y];
    BinaryThen(lib, isRadian, o1, noTokens, none, va, y);
    assert none + [z] == [z];
  }

  // ---------------------------------------------------------------------------------------
  // A reference for the structural errors: the stack's height alone

  /** How many values a token takes from the stack. */
  function Takes(t: Token): nat
  {
    if IsNumeric(t) then 0
    else if IsOperator(t) then (if t.c == '!' || t.c == '%' then 1 else 2)
    else if IsFunction(t) then 1
    else 0
  }

  /** How many values a token puts back. */
  function Gives(t: Token): nat
  {
    if IsNumeric(t) || IsOperator(t) || IsFunction(t) then 1 else 0
  }

  /** No token of `ts` finds fewer values than it takes, `d` values being there at first. */
  predicate Fits(ts: seq<Token>, d: nat)
    decreases |ts|
  {
    ts == [] || (d >= Takes(ts[0]) && Fits(ts[1..], d - Takes(ts[0]) + Gives(ts[0])))
  }

  /** The height of the stack after `ts`, when it fits. */
  function Height(ts: seq<Token>, d: nat): nat
    decreases |ts|
  {
    if ts == [] then d
    else if d < Takes(ts[0]) then 0
    else Height(ts[1..], d - Takes(ts[0]) + Gives(ts[0]))
  }

  /** `!` is the one token whose success depends on the value it finds. */
  predicate NoFactorial(ts: seq<Token>)
  {
    forall k :: 0 <= k < |ts| ==> ts[k] != Sym('!')
  }

  /** One token changes the height as Takes and Gives say, and fails only on too few values
      or on a bad factorial operand. */
  lemma EvalTokenShape(lib: MathLib, isRadian: bool, stack: seq<Value>, t: Token)
    ensures EvalToken(lib, isRadian, stack, t).Ok? ==>
              |stack| >= Takes(t) && |EvalToken(lib, isRadian, stack, t).value| == |stack| - Takes(t) + Gives(t)
    ensures EvalToken(lib, isRadian, stack, t).Err? ==>
              (|stack| < Takes(t) && EvalToken(lib, isRadian, stack, t).error == MissingOperand) ||
              (t == Sym('!') && |stack| >= 1 && EvalToken(lib, isRadian, stack, t).error == InvalidFactorialOperand)
    ensures |stack| >= Takes(t) && t != Sym('!') ==> EvalToken(lib, isRadian, stack, t).Ok?
  {
  }

  /** A run that succeeds fits, and leaves the height the reference computes. */
  lemma {:induction false} EvalFromHeight(lib: MathLib, isRadian: bool, ts: seq<Token>, stack: seq<Value>)
    ensures EvalFrom(lib, isRadian, ts, stack).Ok? ==>
              Fits(ts, |stack|) && |EvalFrom(lib, isRadian, ts, stack).value| == Height(ts, |stack|)
    decreases |ts|
  {
    if ts != [] {
      EvalTokenShape(lib, isRadian, stack, ts[0]);
      var r := EvalToken(lib, isRadian, stack, ts[0]);
      if r.Ok? {
        EvalFromHeight(lib, isRadian, ts[1..], r.value);
      }
    }
  }

  /** The tail of a sequence without `!` has none either. */
  lemma NoFactorialTail(ts: seq<Token>)
    requires ts != [] && NoFactorial(ts)
    ensures ts[0] != Sym('!') && NoFactorial(ts[1..])
  {
    assert ts[0] == ts[0 + 0];
    forall k | 0 <= k < |ts[1..]|
      ensures ts[1..][k] != Sym('!')
    {
      assert ts[1..][k] == ts[k + 1];
    }
  }

  /** A run fails only with one of the two token errors; a missing operand means the
      sequence does not fit. */
  lemma {:induction false} EvalFromErrors(lib: MathLib, isRadian: bool, ts: seq<Token>, stack: seq<Value>)
    ensures EvalFrom(lib, isRadian, ts, stack).Err? ==>
              EvalFrom(lib, isRadian, ts, stack).error in {MissingOperand, InvalidFactorialOperand}
    ensures EvalFrom(lib, isRadian, ts, stack) == Err(MissingOperand) ==> !Fits(ts, |stack|)
    ensures NoFactorial(ts) && EvalFrom(lib, isRadian, ts, stack).Err? ==>
              EvalFrom(lib, isRadian, ts, stack).error == MissingOperand
    decreases |ts|
  {
    if ts != [] {
      if NoFactorial(ts) {
        NoFactorialTail(ts);
      }
      EvalTokenShape(lib, isRadian, stack, ts[0]);
      var r := EvalToken(lib, isRadian, stack, ts[0]);
      if r.Ok? {
        EvalFromErrors(lib, isRadian, ts[1..], r.value);
      }
    }
  }

  /** Without `!`, a sequence that fits cannot fail. */
  lemma {:induction false} EvalFromFits(lib: MathLib, isRadian: bool, ts: seq<Token>, stack: seq<Value>)
    requires NoFactorial(ts) && Fits(ts, |stack|)
    ensures EvalFrom(lib, isRadian, ts, stack).Ok?
    decreases |ts|
  {
    if ts != [] {
      NoFactorialTail(ts);
      EvalTokenShape(lib, isRadian, stack, ts[0]);
      var r := EvalToken(lib, isRadian, stack, ts[0]);
      EvalFromFits(lib, isRadian, ts[1..], r.value);
    }
  }

  /** evaluateRpn's structural failures, stated on the height reference: without `!`, it
      fails exactly when some token lacks operands or the final height is not one, and it
      says which. */
  lemma EvaluateRpnShape(lib: MathLib, isRadian: bool, rpn: seq<Token>)
    requires NoFactorial(rpn)
    ensures EvaluateRpn(lib, isRadian, rpn).Err? <==> !Fits(rpn, 0) || Height(rpn, 0) != 1
    ensures !Fits(rpn, 0) ==> EvaluateRpn(lib, isRadian, rpn) == Err(MissingOperand)
    ensures Fits(rpn, 0) && Height(rpn, 0) != 1 ==> EvaluateRpn(lib, isRadian, rpn) == Err(InvalidFinalStack)
  {
    EvalFromHeight(lib, isRadian, rpn, []);
    EvalFromErrors(lib, isRadian, rpn, []);
    if Fits(rpn, 0) {
      EvalFromFits(lib, isRadian, rpn, []);
    }
  }

  /** With `!`, the reference still bounds the outcome: success means the sequence fits and
      ends with one value. */
  lemma EvaluateRpnSuccess(lib: MathLib, isRadian: bool, rpn: seq<Token>)
    ensures EvaluateRpn(lib, isRadian, rpn).Ok? ==> Fits(rpn, 0) && Height(rpn, 0) == 1
    ensures EvaluateRpn(lib, isRadian, rpn).Err? ==>
              EvaluateRpn(lib, isRadian, rpn).error in {MissingOperand, InvalidFactorialOperand, InvalidFinalStack}
  {
    EvalFromHeight(lib, isRadian, rpn, []);
    EvalFromErrors(lib, isRadian, rpn, []);
  }

  // ---------------------------------------------------------------------------------------
  // The method

  /** evaluateRpn, with its value stack as a local sequence, its top at the end. */
  method Evaluate(lib: MathLib, isRadian: bool, rpn: seq<Token>) returns (r: Result<Value>)
    ensures r == EvaluateRpn(lib, isRadian, rpn)
  {
    var values: seq<Value> := [];
    for i := 0 to |rpn|
      invariant EvalFrom(lib, isRadian, rpn[i..], values) == EvalFrom(lib, isRadian, rpn, [])
    {
      var t := rpn[i];
      assert rpn[i..][1..] == rpn[i + 1..];
      ghost var before := values;
      if t.Number? {
        values := values + [Finite(LiteralValue(t.text))];
      } else if IsNumeric(t) {
        values := values + [NonFinite];
      } else if IsOperator(t) {
        if t.c == '!' {
          if |values| == 0 {
            return Err(MissingOperand);
          }
          var v := values[|values| - 1];
          values := values[..|values| - 1];
          if v.NonFinite? || v.x < 0.0 || v.x != v.x.Floor as real {
            return Err(InvalidFactorialOperand);
          }
          var f := Factorial(v.x.Floor);
          values := values + [Finite(f)];
        } else if t.c == '%' {
          if |values| == 0 {
            return Err(MissingOperand);
          }
          var v := values[|values| - 1];
          values := values[..|values| - 1] + [Percent(v)];
        } else {
          if |values| < 2 {
            return Err(MissingOperand);
          }
          var right := values[|values| - 1];
          values := values[..|values| - 1];
          var left := values[|values| - 1];
          values := values[..|values| - 1];
          assert values == before[..|before| - 2];
          values := values + [Binary(lib, t.c, left, right)];
        }
      } else if IsFunction(t) {
        if |values| == 0 {
          return Err(MissingOperand);
        }
        var v := values[|values| - 1];
        values := values[..|values| - 1] + [Unary(lib, isRadian, t.name, v)];
      }
      assert EvalToken(lib, isRadian, before, t) == Ok(values);
    }
    if |values| != 1 {
      return Err(InvalidFinalStack);
    }
    r := Ok(values[0]);
  }
}
