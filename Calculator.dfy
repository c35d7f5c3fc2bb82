/** evaluateExpression: the four stages in sequence, every failure shown as the error text. */
module Calculator {
  import opened Failures
  import opened Tokens
  import opened Preprocessing
  import opened Lexer
  import opened ShuntingYard
  import opened Evaluation
  import opened Formatting

  /** The value of an expression, or the error of the first stage that fails. */
  function Outcome(lib: MathLib, isRadian: bool, expression: string): Result<Value>
  {
    match ToPostfix(Lex(Preprocess(expression)))
    case Err(e) => Err(e)
    case Ok(rpn) => EvaluateRpn(lib, isRadian, rpn)
  }

  /** evaluateExpression as a function of its inputs: the empty text for empty input, the
      formatted value on success, the error text on any failure. */
  function Calculate(lib: MathLib, fixed8: real -> string, expression: string, isRadian: bool): string
  {
    if expression == [] then ""
    else match Outcome(lib, isRadian, expression)
      case Err(_) => ErrorText
      case Ok(v) => FormatResult(fixed8, v)
  }

  /** evaluateExpression, running the stage methods one after the other. */
  method EvaluateExpression(lib: MathLib, fixed8: real -> string, expression: string, isRadian: bool)
    returns (r: string)
    ensures r == Calculate(lib, fixed8, expression, isRadian)
  {
    if |expression| == 0 {
      return "";
    }
    var preprocessed := Preprocess(expression);
    var tokens := Tokenize(preprocessed);
    var rpn := Convert(tokens);
    if rpn.Err? {
      return ErrorText;
    }
    var result := Evaluate(lib, isRadian, rpn.value);
    if result.Err? {
      return ErrorText;
    }
    r := FormatResult(fixed8, result.value);
  }

  // ---------------------------------------------------------------------------------------
  // Empty input and failures

  lemma EmptyInput(lib: MathLib, fixed8: real -> string, isRadian: bool)
    ensures Calculate(lib, fixed8, "", isRadian) == ""
  {
  }

  /** For non-empty input the error text appears exactly when a stage fails or the value is
      NaN or infinite, provided the eight-decimal text never holds an "E". */
  lemma ErrorExactly(lib: MathLib, fixed8: real -> string, expression: string, isRadian: bool)
    requires expression != []
    requires forall x :: 'E' !in fixed8(x)
    ensures Calculate(lib, fixed8, expression, isRadian) == ErrorText <==>
              Outcome(lib, isRadian, expression).Err? || Outcome(lib, isRadian, expression).value.NonFinite?
  {
    var o := Outcome(lib, isRadian, expression);
    if o.Ok? {
      FormatErrorExactly(fixed8, o.value);
    }
  }

  /** Unbalanced parentheses in the tokens give the error text. */
  lemma UnbalancedIsError(lib: MathLib, fixed8: real -> string, expression: string, isRadian: bool)
    requires expression != []
    requires !Balanced(Lex(Preprocess(expression)), 0)
    ensures Calculate(lib, fixed8, expression, isRadian) == ErrorText
  {
    ToPostfixFacts(Lex(Preprocess(expression)));
  }

  /** So does a preprocessed text with more "(" than ")" or the other way round. */
  lemma ParenMismatchIsError(lib: MathLib, fixed8: real -> string, expression: string, isRadian: bool)
    requires expression != []
    requires CountChar(Preprocess(expression), '(') != CountChar(Preprocess(expression), ')')
    ensures Calculate(lib, fixed8, expression, isRadian) == ErrorText
  {
    var ts := Lex(Preprocess(expression));
    LexCountsParens(Preprocess(expression), '(');
    LexCountsParens(Preprocess(expression), ')');
    if Balanced(ts, 0) {
      BalancedCounts(ts, 0);
    }
    UnbalancedIsError(lib, fixed8, expression, isRadian);
  }

  /** One "(" in front, a balanced middle and two ")" at the end: the counts differ. */
  lemma OneOpenTwoClose(p: string, a: string)
    requires CountChar(p, '(') == 1 && CountChar(p, ')') == 0
    requires CountChar(a, '(') == CountChar(a, ')')
    ensures CountChar(p + a + "))", '(') + 1 == CountChar(p + a + "))", ')')
  {
    var q := "))";
    CountCharConcat(p + a, q, '(');
    CountCharConcat(p + a, q, ')');
    CountCharConcat(p, a, '(');
    CountCharConcat(p, a, ')');
    CountCharConcat(q[..1], q[1..], '(');
    CountCharConcat(q[..1], q[1..], ')');
    assert q[..1] + q[1..] == q;
  }

  /** "a" + f followed by "(" holds one "(" and no ")". */
  lemma InversePrefixCounts(f: string)
    requires f == "sin" || f == "cos" || f == "tan"
    ensures CountChar("a" + f + "(", '(') == 1 && CountChar("a" + f + "(", ')') == 0
  {
    var h := "a" + f;
    assert '(' !in h && ')' !in h;
    CountCharAbsent(h, '(');
    CountCharAbsent(h, ')');
    CountCharConcat(h, "(", '(');
    CountCharConcat(h, "(", ')');
  }

  /** The inverse key followed by a trigonometric key and a balanced argument, closed with
      both parentheses the keys opened, is an error: the rewrite of "inv(f(" to "af(" drops
      the "(" of "inv(" but not its ")". */
  lemma InverseWithBothParens(lib: MathLib, fixed8: real -> string, f: string, a: string, isRadian: bool)
    requires f == "sin" || f == "cos" || f == "tan"
    requires IsPlainText(a) && CountChar(a, '(') == CountChar(a, ')')
    ensures Calculate(lib, fixed8, "inv(" + f + "(" + a + "))", isRadian) == ErrorText
  {
    var tail := a + "))";
    assert "inv(" + f + "(" + a + "))" == "inv(" + f + "(" + tail;
    assert "a" + f + "(" + tail == ("a" + f + "(") + a + "))";
    assert IsPlainText(tail);
    InverseRewrite(f, tail);
    InversePrefixCounts(f);
    OneOpenTwoClose("a" + f + "(", a);
    ParenMismatchIsError(lib, fixed8, "inv(" + f + "(" + a + "))", isRadian);
  }

  // ---------------------------------------------------------------------------------------
  // Precedence and grouping

  /** The value of three numbers and two binary operators: the first operator is applied
      first exactly when it binds at least as tightly as the second. */
  function Grouped(lib: MathLib, a: real, o1: char, b: real, o2: char, c: real): Value
  {
    if Precedence(Sym(o1)) >= Precedence(Sym(o2))
    then Binary(lib, o2, Binary(lib, o1, Finite(a), Finite(b)), Finite(c))
    else Binary(lib, o1, Finite(a), Binary(lib, o2, Finite(b), Finite(c)))
  }

  /** Conversion and evaluation of such tokens give that grouping. */
  lemma TokensGroup(lib: MathLib, isRadian: bool, a: string, o1: char, b: string, o2: char, c: string)
    requires o1 in "+-*/^" && o2 in "+-*/^"
    ensures ToPostfix([Number(a), Sym(o1), Number(b), Sym(o2), Number(c)]).Ok?
    ensures EvaluateRpn(lib, isRadian, ToPostfix([Number(a), Sym(o1), Number(b), Sym(o2), Number(c)]).value) ==
              Ok(Grouped(lib, LiteralValue(a), o1, LiteralValue(b), o2, LiteralValue(c)))
  {
    TwoOperators(Number(a), Sym(o1), Number(b), Sym(o2), Number(c));
    if Precedence(Sym(o1)) >= Precedence(Sym(o2)) {
      LeftGrouped(lib, isRadian, a, b, o1, o2, c);
    } else {
      RightGrouped(lib, isRadian, a, b, c, o2, o1);
    }
  }

  /** Digit words and operator signs pass preprocessing unchanged. */
  lemma ThreeNumbersUnchanged(a: string, o1: char, b: string, o2: char, c: string)
    requires AllDigits(a) && AllDigits(b) && AllDigits(c)
    requires o1 in "+-*/^" && o2 in "+-*/^"
    ensures Preprocess(a + [o1] + b + [o2] + c) == a + [o1] + b + [o2] + c
  {
    var e := a + [o1] + b + [o2] + c;
    forall k | 0 <= k < |e|
      ensures e[k] !in [Times[0], Divide[0], Pi[0], 'i', 'D', 'A']
    {
      if k < |a| {
        assert e[k] == a[k];
      } else if k == |a| {
      } else if k < |a| + 1 + |b| {
        assert e[k] == b[k - |a| - 1];
      } else if k == |a| + 1 + |b| {
      } else {
        assert e[k] == c[k - |a| - 2 - |b|];
      }
    }
    PreprocessIdentity(e);
  }

  /** They read as three numbers and two operators. */
  lemma ThreeNumbersText(a: string, o1: char, b: string, o2: char, c: string)
    requires |a| > 0 && |b| > 0 && |c| > 0 && AllDigits(a) && AllDigits(b) && AllDigits(c)
    requires o1 in "+-*/^" && o2 in "+-*/^"
    ensures Lex(Preprocess(a + [o1] + b + [o2] + c)) == [Number(a), Sym(o1), Number(b), Sym(o2), Number(c)]
  {
    ThreeNumbersUnchanged(a, o1, b, o2, c);
    LexThreeNumbers(a, o1, b, o2, c);
  }

  /** An expression such as "2+3*4" or "8-3-2": the value follows precedence, and operators
      of equal strength, "^" among them, group from the left. */
  lemma PrecedenceOfText(lib: MathLib, isRadian: bool, a: string, o1: char, b: string, o2: char, c: string)
    requires |a| > 0 && |b| > 0 && |c| > 0 && AllDigits(a) && AllDigits(b) && AllDigits(c)
    requires o1 in "+-*/^" && o2 in "+-*/^"
    ensures Outcome(lib, isRadian, a + [o1] + b + [o2] + c) ==
              Ok(Grouped(lib, DigitsValue(a) as real, o1, DigitsValue(b) as real, o2, DigitsValue(c) as real))
  {
    ThreeNumbersText(a, o1, b, o2, c);
    TokensGroup(lib, isRadian, a, o1, b, o2, c);
    LiteralOfDigits(a);
    LiteralOfDigits(b);
    LiteralOfDigits(c);
  }

  /** "2^3^2" is (2^3)^2: the power operator groups from the left as well. */
  lemma PowerGroupsLeft(lib: MathLib, isRadian: bool, a: string, b: string, c: string)
    requires |a| > 0 && |b| > 0 && |c| > 0 && AllDigits(a) && AllDigits(b) && AllDigits(c)
    ensures Outcome(lib, isRadian, a + "^" + b + "^" + c) ==
              Ok(Binary(lib, '^', Binary(lib, '^', Finite(DigitsValue(a) as real), Finite(DigitsValue(b) as real)),
                        Finite(DigitsValue(c) as real)))
  {
    PrecedenceOfText(lib, isRadian, a, '^', b, '^', c);
  }

  // ---------------------------------------------------------------------------------------
  // Feeding the shown result back in, as the "=" key does

  /** A digit string passes preprocessing unchanged. */
  lemma DigitsUnchanged(w: string)
    requires AllDigits(w)
    ensures Preprocess(w) == w
  {
    forall c | c in w
      ensures c !in [Times[0], Divide[0], Pi[0], 'i', 'D', 'A']
    {
      var k :| 0 <= k < |w| && w[k] == c;
    }
    PreprocessIdentity(w);
  }

  /** A lone number converts to itself. */
  lemma PostfixOfNumber(w: string)
    ensures ToPostfix([Number(w)]) == Ok([Number(w)])
  {
    var t := Number(w);
    var ts := [t];
    var st0 := State([], []);
    assert Step(st0, t) == Ok(State(st0.ops, st0.out + [t]));
    assert st0.out + [t] == [t];
    RunUnfold(ts, st0);
    assert ts[1..] == [];
  }

  /** A minus sign before a number moves behind it. */
  lemma PostfixOfMinusNumber(w: string)
    ensures ToPostfix([Sym('-'), Number(w)]) == Ok([Number(w), Sym('-')])
  {
    var m, t := Sym('-'), Number(w);
    var ts := [m, t];
    var st0 := State([], []);
    var st1 := State([m], []);
    var st2 := State([m], [t]);
    assert PopOperators(st0, Precedence(m)) == st0;
    assert st0.ops + [m] == [m];
    assert Step(st0, m) == Ok(st1);
    RunUnfold(ts, st0);
    assert ts[1..] == [Number(w)];
    assert Step(st1, t) == Ok(State(st1.ops, st1.out + [t]));
    assert st1.out + [t] == [t];
    RunUnfold(ts[1..], st1);
    assert ts[1..][1..] == [];
    assert Flush(st2) == Flush(MoveTop(st2));
    assert MoveTop(st2) == State([], [Number(w), Sym('-')]);
  }

  /** An identifier that names no function converts to nothing. */
  lemma PostfixOfUnknownName(w: string)
    requires w !in FunctionNames && !IsNumeric(Ident(w))
    ensures ToPostfix([Ident(w)]) == Ok([])
  {
    var ts := [Ident(w)];
    var st0 := State([], []);
    assert Step(st0, ts[0]) == Ok(st0);
    RunUnfold(ts, st0);
    assert ts[1..] == [];
  }

  /** The value of a lone number token. */
  lemma EvaluateNumber(lib: MathLib, isRadian: bool, n: nat)
    ensures EvaluateRpn(lib, isRadian, [Number(NatToString(n))]) == Ok(Finite(n as real))
  {
    var w := NatToString(n);
    LiteralOfDigits(w);
    NatToStringRoundTrip(n);
    var t := Number(w);
    var ts := [t];
    var v := Finite(n as real);
    var none: seq<Value> := [];
    assert LiteralValue(w) == n as real;
    assert EvalToken(lib, isRadian, none, t) == Ok(none + [v]);
    assert none + [v] == [v];
    assert ts[1..] == [];
    assert EvalFrom(lib, isRadian, ts, none) == EvalFrom(lib, isRadian, [], [v]);
  }

  /** The value of any lone number token. */
  lemma EvaluateLiteral(lib: MathLib, isRadian: bool, w: string)
    ensures EvaluateRpn(lib, isRadian, [Number(w)]) == Ok(Finite(LiteralValue(w)))
  {
    var t := Number(w);
    var ts := [t];
    var v := Finite(LiteralValue(w));
    var none: seq<Value> := [];
    assert EvalToken(lib, isRadian, none, t) == Ok(none + [v]);
    assert none + [v] == [v];
    assert ts[1..] == [];
    assert EvalFrom(lib, isRadian, ts, none) == EvalFrom(lib, isRadian, [], [v]);
  }

  /** Digits, a point and digits pass preprocessing unchanged. */
  lemma DecimalUnchanged(a: string, b: string)
    requires AllDigits(a) && AllDigits(b)
    ensures Preprocess(a + "." + b) == a + "." + b
  {
    var e := a + "." + b;
    forall c | c in e
      ensures c !in [Times[0], Divide[0], Pi[0], 'i', 'D', 'A']
    {
      var k :| 0 <= k < |e| && e[k] == c;
      if k < |a| {
        assert c == a[k];
      } else if k > |a| {
        assert c == b[k - |a| - 1];
      }
    }
    PreprocessIdentity(e);
  }

  /** It reads as one number token. */
  lemma DecimalText(a: string, b: string)
    requires AllDigits(a) && |b| > 0 && AllDigits(b)
    ensures Lex(Preprocess(a + "." + b)) == [Number(a + "." + b)]
  {
    var w := a + "." + b;
    var none: string := [];
    DecimalUnchanged(a, b);
    assert w + none == w;
    LexDecimalThen(a, b, none);
    assert Lex(none) == [];
  }

  /** A typed decimal "a.b" is one number, worth x = a + b / 10^|b|. */
  lemma DecimalValue(lib: MathLib, isRadian: bool, a: string, b: string, x: real)
    requires AllDigits(a) && |b| > 0 && AllDigits(b)
    requires x == DigitsValue(a) as real + DigitsValue(b) as real / Pow10(|b|) as real
    ensures Outcome(lib, isRadian, a + "." + b) == Ok(Finite(x))
  {
    DecimalText(a, b);
    LiteralWithPoint(a, b);
    LiteralOutcome(lib, isRadian, a + "." + b, x);
  }

  /** Text that reads as one number token has that number's value. */
  lemma LiteralOutcome(lib: MathLib, isRadian: bool, w: string, x: real)
    requires Lex(Preprocess(w)) == [Number(w)] && LiteralValue(w) == x
    ensures Outcome(lib, isRadian, w) == Ok(Finite(x))
  {
    PostfixOfNumber(w);
    EvaluateLiteral(lib, isRadian, w);
  }

  /** A shown natural number, entered again, shows as itself. */
  lemma NaturalIsFixedPoint(lib: MathLib, fixed8: real -> string, n: nat, isRadian: bool)
    requires n <= LongMax
    ensures Calculate(lib, fixed8, IntToString(n), isRadian) == IntToString(n)
  {
    var w := NatToString(n);
    DigitsUnchanged(w);
    DigitsAreOneNumber(w);
    PostfixOfNumber(w);
    EvaluateNumber(lib, isRadian, n);
    FormatInteger(fixed8, n);
  }

  /** The text of a negative number reads as a minus sign and the number's digits. */
  lemma NegativeText(n: int)
    requires n < 0
    ensures Lex(Preprocess(IntToString(n))) == [Sym('-'), Number(NatToString(-n))]
  {
    var w := NatToString(-n);
    var e := IntToString(n);
    assert e == ['-'] + w;
    forall c | c in e
      ensures c !in [Times[0], Divide[0], Pi[0], 'i', 'D', 'A']
    {
      var k :| 0 <= k < |e| && e[k] == c;
      if k > 0 {
        assert c == w[k - 1];
      }
    }
    PreprocessIdentity(e);
    LexSymbolThen('-', w);
    DigitsAreOneNumber(w);
  }

  /** A number followed by a minus sign leaves the minus sign one operand short. */
  lemma MinusAfterNumber(lib: MathLib, isRadian: bool, w: string)
    ensures EvaluateRpn(lib, isRadian, [Number(w), Sym('-')]) == Err(MissingOperand)
  {
    var t, m := Number(w), Sym('-');
    var rpn := [t, m];
    var v := Finite(LiteralValue(w));
    var none: seq<Value> := [];
    assert EvalToken(lib, isRadian, none, t) == Ok(none + [v]);
    assert none + [v] == [v];
    assert rpn[1..] == [m];
    assert EvalFrom(lib, isRadian, rpn, none) == EvalFrom(lib, isRadian, [m], [v]);
    assert EvalToken(lib, isRadian, [v], m) == Err(MissingOperand);
  }

  /** A shown negative number, entered again, is an error: the minus sign is always the binary
      operator, which finds one operand only. */
  lemma NegativeIsError(lib: MathLib, fixed8: real -> string, n: int, isRadian: bool)
    requires n < 0
    ensures Calculate(lib, fixed8, IntToString(n), isRadian) == ErrorText
  {
    var w := NatToString(-n);
    NegativeText(n);
    PostfixOfMinusNumber(w);
    MinusAfterNumber(lib, isRadian, w);
    assert Outcome(lib, isRadian, IntToString(n)) == Err(MissingOperand);
  }

  /** A word of letters that preprocessing does not touch and that names no function is
      dropped by conversion, which leaves nothing to evaluate: the error text. */
  lemma UnknownNameIsError(lib: MathLib, fixed8: real -> string, e: string, isRadian: bool)
    requires PlainWord(e) && e !in FunctionNames
    ensures Calculate(lib, fixed8, e, isRadian) == ErrorText
  {
    forall c | c in e
      ensures c !in [Times[0], Divide[0], Pi[0], 'i', 'D', 'A']
    {
      var k :| 0 <= k < |e| && e[k] == c;
    }
    PreprocessIdentity(e);
    var none: string := [];
    assert e == e + none;
    LexLettersThen(e, none);
    assert Lex(none) == [];
    assert Lex(e) == [Ident(e)];
    PlainWordNotNumeric(e);
    PostfixOfUnknownName(e);
    assert ToPostfix(Lex(Preprocess(e))) == Ok([]);
    assert EvaluateRpn(lib, isRadian, []) == Err(InvalidFinalStack);
    assert Outcome(lib, isRadian, e).Err?;
  }

  /** The error text, entered again, is an error: "Error" is such a word. */
  lemma ErrorTextIsError(lib: MathLib, fixed8: real -> string, e: string, isRadian: bool)
    requires e == ErrorText
    ensures Calculate(lib, fixed8, e, isRadian) == ErrorText
  {
    UnknownNameIsError(lib, fixed8, e, isRadian);
  }

  // ---------------------------------------------------------------------------------------
  // The pi key

  /** A word of letters other than "i", "D" and "A", which passes preprocessing unchanged, and
      not "NaN", the one such word toDoubleOrNull reads as a number ("Infinity" has an "i"). */
  predicate PlainWord(word: string)
  {
    |word| > 0 && (forall k :: 0 <= k < |word| ==> IsLetter(word[k]) && word[k] !in "iDA") &&
    word != "NaN"
  }

  /** Such a word is not one toDoubleOrNull reads as a number. */
  lemma PlainWordNotNumeric(word: string)
    requires PlainWord(word)
    ensures !IsNumeric(Ident(word))
  {
    var inf := "Infinity";
    assert inf[3] == 'i';
  }

  /** A number followed by such a word passes preprocessing unchanged. */
  lemma NumberThenWordUnchanged(w: string, word: string)
    requires AllDigits(w) && PlainWord(word)
    ensures Preprocess(w + word) == w + word
  {
    var e := w + word;
    forall c | c in e
      ensures c !in [Times[0], Divide[0], Pi[0], 'i', 'D', 'A']
    {
      var k :| 0 <= k < |e| && e[k] == c;
      if k < |w| {
        assert c == w[k];
      } else {
        assert c == word[k - |w|];
      }
    }
    PreprocessIdentity(e);
  }

  /** It reads as the number and the word. */
  lemma NumberThenWordText(w: string, word: string)
    requires |w| > 0 && AllDigits(w) && PlainWord(word)
    ensures Lex(Preprocess(w + word)) == [Number(w), Ident(word)]
  {
    NumberThenWordUnchanged(w, word);
    LexDigitsThen(w, word);
    var none: string := [];
    assert word == word + none;
    LexLettersThen(word, none);
    assert Lex(none) == [];
  }

  /** Conversion keeps the number and drops the word. */
  lemma PostfixDropsName(w: string, name: string)
    requires name !in FunctionNames && !IsNumeric(Ident(name))
    ensures ToPostfix([Number(w), Ident(name)]) == Ok([Number(w)])
  {
    var t, p := Number(w), Ident(name);
    var ts := [t, p];
    var st0 := State([], []);
    var st1 := State([], [t]);
    assert Step(st0, t) == Ok(State(st0.ops, st0.out + [t]));
    assert st0.out + [t] == [t];
    RunUnfold(ts, st0);
    assert ts[1..] == [p];
    assert Step(st1, p) == Ok(st1);
    RunUnfold(ts[1..], st1);
    assert ts[1..][1..] == [];
  }

  /** A number followed by a word that names no function shows as the number alone. */
  lemma UnknownNameAfterNumberIsIgnored(lib: MathLib, fixed8: real -> string, n: nat, word: string, isRadian: bool)
    requires n <= LongMax
    requires PlainWord(word) && word !in FunctionNames
    ensures Calculate(lib, fixed8, IntToString(n) + word, isRadian) == IntToString(n)
  {
    var w := NatToString(n);
    NumberThenWordText(w, word);
    PlainWordNotNumeric(word);
    PostfixDropsName(w, word);
    EvaluateNumber(lib, isRadian, n);
    FormatInteger(fixed8, n);
  }

  /** The word "NaN" passes preprocessing unchanged and reads as one identifier. */
  lemma NaNText(e: string)
    requires e == "NaN"
    ensures Lex(Preprocess(e)) == [Ident(e)]
  {
    forall c | c in e
      ensures c !in [Times[0], Divide[0], Pi[0], 'i', 'D', 'A']
    {
    }
    PreprocessIdentity(e);
    var none: string := [];
    assert e == e + none;
    LexLettersThen(e, none);
    assert Lex(none) == [];
  }

  /** toDoubleOrNull reads the word "NaN" as a number, so it is evaluated, not dropped: alone
      it has a non-finite value, whose text is the error text. */
  lemma NaNWordIsNumber(lib: MathLib, isRadian: bool, e: string)
    requires e == "NaN"
    ensures Lex(Preprocess(e)) == [Ident(e)]
    ensures ToPostfix([Ident(e)]) == Ok([Ident(e)])
    ensures Outcome(lib, isRadian, e) == Ok(NonFinite)
  {
    NaNText(e);
    var t := Ident(e);
    var ts := [t];
    var st0 := State([], []);
    assert Step(st0, t) == Ok(State(st0.ops, st0.out + [t]));
    assert st0.out + [t] == [t];
    RunUnfold(ts, st0);
    assert ts[1..] == [];
    var vs: seq<Value> := [];
    assert EvalToken(lib, isRadian, vs, t) == Ok(vs + [NonFinite]);
    assert vs + [NonFinite] == [NonFinite];
    assert EvalFrom(lib, isRadian, ts, vs) == EvalFrom(lib, isRadian, [], [NonFinite]);
  }

  /** A number followed by "NaN" reads as the number and the word. */
  lemma NumberThenNaNText(w: string, e: string)
    requires |w| > 0 && AllDigits(w) && e == "NaN"
    ensures Lex(Preprocess(w + e)) == [Number(w), Ident(e)]
  {
    var x := w + e;
    forall c | c in x
      ensures c !in [Times[0], Divide[0], Pi[0], 'i', 'D', 'A']
    {
      var k :| 0 <= k < |x| && x[k] == c;
      if k < |w| {
        assert c == w[k];
      } else {
        assert c == e[k - |w|];
      }
    }
    PreprocessIdentity(x);
    LexDigitsThen(w, e);
    NaNText(e);
    PreprocessIdentity(e);
  }

  /** After a number, "NaN" leaves two values where one is expected: the error text. */
  lemma NaNAfterNumberIsError(lib: MathLib, fixed8: real -> string, n: nat, e: string, isRadian: bool)
    requires e == "NaN"
    ensures Calculate(lib, fixed8, IntToString(n) + e, isRadian) == ErrorText
  {
    var w := NatToString(n);
    NumberThenNaNText(w, e);
    NumbersThenNaN(lib, isRadian, Number(w), Ident(e));
  }

  /** The postfix of a number and "NaN" is both, and it leaves two values. */
  lemma NumbersThenNaN(lib: MathLib, isRadian: bool, a: Token, t: Token)
    requires a.Number? && t == Ident("NaN")
    ensures ToPostfix([a, t]) == Ok([a, t])
    ensures EvaluateRpn(lib, isRadian, [a, t]) == Err(InvalidFinalStack)
  {
    var ts := [a, t];
    var st0 := State([], []);
    var st1 := State([], [a]);
    assert Step(st0, a) == Ok(State(st0.ops, st0.out + [a]));
    assert st0.out + [a] == [a];
    RunUnfold(ts, st0);
    assert ts[1..] == [t];
    assert Step(st1, t) == Ok(State(st1.ops, st1.out + [t]));
    assert st1.out + [t] == [a, t];
    RunUnfold(ts[1..], st1);
    assert ts[1..][1..] == [];
    var vs: seq<Value> := [];
    var v := Finite(LiteralValue(a.text));
    assert EvalToken(lib, isRadian, vs, a) == Ok(vs + [v]);
    assert vs + [v] == [v];
    assert EvalFrom(lib, isRadian, ts, vs) == EvalFrom(lib, isRadian, [t], [v]);
    assert EvalToken(lib, isRadian, [v], t) == Ok([v] + [NonFinite]);
    assert [v] + [NonFinite] == [v, NonFinite];
    assert EvalFrom(lib, isRadian, [t], [v]) == EvalFrom(lib, isRadian, [], [v, NonFinite]);
  }

  /** The pi key enters "PI", which preprocessing leaves alone and conversion drops: a
      number followed by it shows as the number alone. */
  lemma PiKeyAfterNumberIsIgnored(lib: MathLib, fixed8: real -> string, n: nat, p: string, isRadian: bool)
    requires n <= LongMax && p == "PI"
    ensures Calculate(lib, fixed8, IntToString(n) + p, isRadian) == IntToString(n)
  {
    UnknownNameAfterNumberIsIgnored(lib, fixed8, n, p, isRadian);
  }

  /** The pi key on its own is an error: "PI" is such a word too. */
  lemma PiKeyAloneIsError(lib: MathLib, fixed8: real -> string, e: string, isRadian: bool)
    requires e == "PI"
    ensures Calculate(lib, fixed8, e, isRadian) == ErrorText
  {
    UnknownNameIsError(lib, fixed8, e, isRadian);
  }
}
