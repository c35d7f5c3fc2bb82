/** tokenize: the regex scan `(\d*\.?\d+)|([a-zA-Z]+)|([\^*\/+\-()!%])` run with findAll. */
module Lexer {
  import opened Tokens
  import opened Failures

  /** `w` is a whole match of `\d*\.?\d+`: digits, or digits, a point and at least one digit. */
  predicate IsNumberLiteral(w: string)
  {
    (|w| > 0 && AllDigits(w)) ||
    (exists k :: 0 <= k < |w| - 1 && w[k] == '.' && AllDigits(w[..k]) && AllDigits(w[k + 1..]))
  }

  /** A digit, or a point with a digit after it. */
  predicate NumberCharAt(t: string, k: nat)
    requires k < |t|
  {
    IsDigit(t[k]) || (t[k] == '.' && k + 1 < |t| && IsDigit(t[k + 1]))
  }

  /** The length of the match of the number alternative at the start of `t` (0: no match).
      The greedy `\d*` takes every leading digit; the point is taken only when a digit follows
      it, since otherwise `\d+` can only succeed by giving back the last leading digit. */
  function NumberMatch(t: string): (n: nat)
    ensures n <= |t|
    ensures n > 0 ==> IsNumberLiteral(t[..n])
    ensures forall k :: 0 <= k < n ==> NumberCharAt(t, k)
    ensures n == 0 <==> |t| == 0 || (!IsDigit(t[0]) && !(t[0] == '.' && |t| > 1 && IsDigit(t[1])))
    ensures n < |t| ==> !IsDigit(t[n])
  {
    var k := Span(t, IsDigit);
    if k + 1 < |t| && t[k] == '.' && IsDigit(t[k + 1]) then
      var m := Span(t[k + 1..], IsDigit);
      assert AllDigits(t[..k + 1 + m][..k]) && AllDigits(t[..k + 1 + m][k + 1..]);
      k + 1 + m
    else
      assert k > 0 ==> AllDigits(t[..k]);
      k
  }

  /** The match is the longest prefix of `t` that is a number literal, as the greedy `\d*`
      with backtracking finds it. */
  lemma NumberMatchLongest(t: string, m: nat)
    requires NumberMatch(t) < m <= |t|
    ensures !IsNumberLiteral(t[..m])
  {
    var n := NumberMatch(t);
    var k := Span(t, IsDigit);
    var w := t[..m];
    assert k < m by {
      if k + 1 < |t| && t[k] == '.' && IsDigit(t[k + 1]) {
      } else {
        assert n == k;
      }
    }
    assert !AllDigits(w) by {
      assert w[k] == t[k] && !IsDigit(t[k]);
    }
    if j :| 0 <= j < |w| - 1 && w[j] == '.' && AllDigits(w[..j]) && AllDigits(w[j + 1..]) {
      assert false;
    }
  }

  /** One step of findAll at the start of `t`: the token of the first alternative that matches
      and its length, or None when no alternative matches here and the scan moves one on. */
  function MatchAt(t: string): (r: Option<(Token, nat)>)
    ensures r.Some? ==> 0 < r.value.1 <= |t|
  {
    var n := NumberMatch(t);
    if n > 0 then Some((Number(t[..n]), n))
    else
      var m := Span(t, IsLetter);
      if m > 0 then Some((Ident(t[..m]), m))
      else if |t| > 0 && IsSymbolChar(t[0]) then Some((Sym(t[0]), 1))
      else None
  }

  /** The tokens findAll produces from `s`, in order. */
  function Lex(s: string): seq<Token>
    decreases |s|
  {
    if s == [] then []
    else match MatchAt(s)
      case None => Lex(s[1..])
      case Some(m) => [m.0] + Lex(s[m.1..])
  }

  /** The end of the run of characters satisfying `p` that starts at position i. */
  method ScanRun(s: string, i: nat, p: char -> bool) returns (j: nat)
    requires i <= |s|
    ensures i <= j <= |s| && j - i == Span(s[i..], p)
  {
    j := i;
    while j < |s| && p(s[j])
      invariant i <= j <= |s|
      invariant forall k :: i <= k < j ==> p(s[k])
    {
      j := j + 1;
    }
    SpanUnique(s[i..], p, j - i);
  }

  /** The end of the match of the number alternative at position i (i itself: no match). */
  method ScanNumber(s: string, i: nat) returns (end: nat)
    requires i <= |s|
    ensures i <= end <= |s| && end - i == NumberMatch(s[i..])
  {
    var j := ScanRun(s, i, IsDigit);
    end := j;
    if j + 1 < |s| && s[j] == '.' && IsDigit(s[j + 1]) {
      end := ScanRun(s, j + 1, IsDigit);
      assert s[i..][j - i + 1..] == s[j + 1..];
    }
  }

  /** The token list as a sequence: empty for a skipped character. */
  function AsSeq(t: Option<Token>): seq<Token>
  {
    if t.Some? then [t.value] else []
  }

  /** How far one step of findAll at the start of `t` moves on. */
  function StepLength(t: string): nat
  {
    match MatchAt(t)
    case None => 1
    case Some(m) => m.1
  }

  /** What one step of findAll at the start of `t` adds to the token list. */
  function StepToken(t: string): Option<Token>
  {
    match MatchAt(t)
    case None => None
    case Some(m) => Some(m.0)
  }

  /** One step of the scan at position i, in terms of Lex: the step's token, then the tokens
      of the text after it. */
  lemma LexAt(s: string, i: nat, next: nat, t: Option<Token>)
    requires i < next <= |s|
    requires next == i + StepLength(s[i..]) && t == StepToken(s[i..])
    ensures Lex(s[i..]) == AsSeq(t) + Lex(s[next..])
  {
    var r := s[i..];
    assert r[StepLength(r)..] == s[next..];
  }

  /** One match attempt at position i: the alternatives tried in order, or the character skipped. */
  method ScanToken(s: string, i: nat) returns (next: nat, t: Option<Token>)
    requires i < |s|
    ensures i < next <= |s|
    ensures next == i + StepLength(s[i..]) && t == StepToken(s[i..])
  {
    ghost var r := s[i..];
    var end := ScanNumber(s, i);
    if end > i {
      next, t := end, Some(Number(s[i..end]));
      assert r[..end - i] == s[i..end];
      assert MatchAt(r) == Some((Number(s[i..end]), end - i));
    } else {
      var m := ScanRun(s, i, IsLetter);
      if m > i {
        next, t := m, Some(Ident(s[i..m]));
        assert r[..m - i] == s[i..m];
        assert MatchAt(r) == Some((Ident(s[i..m]), m - i));
      } else if IsSymbolChar(s[i]) {
        next, t := i + 1, Some(Sym(s[i]));
        assert MatchAt(r) == Some((Sym(s[i]), 1));
      } else {
        next, t := i + 1, None;
        assert MatchAt(r) == None;
      }
    }
  }

  /** tokenize: scans `s` once, left to right, appending each match to the token list. */
  method Tokenize(s: string) returns (tokens: seq<Token>)
    ensures tokens == Lex(s)
  {
    tokens := [];
    var i := 0;
    while i < |s|
      invariant 0 <= i <= |s|
      invariant tokens + Lex(s[i..]) == Lex(s)
    {
      var next, t := ScanToken(s, i);
      LexAt(s, i, next, t);
      JoinStep(tokens, AsSeq(t), Lex(s[next..]), Lex(s[i..]), Lex(s));
      tokens := tokens + AsSeq(t);
      i := next;
    }
    assert s[i..] == [];
  }

  /** What a token of each kind looks like. */
  predicate WellFormed(t: Token)
  {
    match t
    case Number(w) => IsNumberLiteral(w)
    case Ident(w) => |w| > 0 && forall k :: 0 <= k < |w| ==> IsLetter(w[k])
    case Sym(c) => IsSymbolChar(c)
  }

  /** Every token is a number literal, a non-empty run of letters or one symbol character. */
  lemma {:induction false} LexWellFormed(s: string)
    ensures forall t :: t in Lex(s) ==> WellFormed(t)
    decreases |s|
  {
    if s != [] {
      match MatchAt(s)
      case None =>
        LexWellFormed(s[1..]);
      case Some(m) =>
        LexWellFormed(s[m.1..]);
    }
  }

  /** The text a token was matched from. */
  function Text(t: Token): string
  {
    match t
    case Number(w) => w
    case Ident(w) => w
    case Sym(c) => [c]
  }

  function Texts(ts: seq<Token>): string
  {
    if ts == [] then [] else Text(ts[0]) + Texts(ts[1..])
  }

  /** Whether the character at position k survives the scan: digits, letters and symbol
      characters always do; a point does exactly when a digit follows it. */
  predicate KeptAt(s: string, k: nat)
    requires k < |s|
  {
    IsDigit(s[k]) || IsLetter(s[k]) || IsSymbolChar(s[k]) ||
    (s[k] == '.' && k + 1 < |s| && IsDigit(s[k + 1]))
  }

  /** `s` with every character the scan skips taken out: a reference definition of the
      characters that end up in tokens. */
  function Kept(s: string): (r: string)
    ensures |r| <= |s|
  {
    if s == [] then [] else (if KeptAt(s, 0) then [s[0]] else []) + Kept(s[1..])
  }

  lemma {:induction false} KeptPrefix(s: string, n: nat)
    requires n <= |s|
    requires forall k :: 0 <= k < n ==> KeptAt(s, k)
    ensures Kept(s) == s[..n] + Kept(s[n..])
  {
    if n > 0 {
      assert KeptAt(s, 0);
      forall k | 0 <= k < n - 1
        ensures KeptAt(s[1..], k)
      {
        assert KeptAt(s, k + 1);
      }
      KeptPrefix(s[1..], n - 1);
      assert s[1..][n - 1..] == s[n..];
      assert [s[0]] + s[1..][..n - 1] == s[..n];
    }
  }

  /** The tokens, read back to back, spell out exactly the kept characters of the input in
      their input order: nothing is reordered, duplicated or invented, and a character is
      dropped only when no alternative can match it. */
  lemma {:induction false} LexKeepsText(s: string)
    ensures Texts(Lex(s)) == Kept(s)
    decreases |s|
  {
    if s != [] {
      match MatchAt(s)
      case None =>
        assert !KeptAt(s, 0) by {
          assert NumberMatch(s) == 0;
          assert Span(s, IsLetter) == 0;
        }
        LexKeepsText(s[1..]);
      case Some(m) =>
        var n := m.1;
        var t := m.0;
        assert Text(t) == s[..n];
        forall k | 0 <= k < n
          ensures KeptAt(s, k)
        {
          if NumberMatch(s) == 0 {
            assert IsLetter(s[k]) || IsSymbolChar(s[k]);
          }
        }
        KeptPrefix(s, n);
        LexKeepsText(s[n..]);
        assert Lex(s) == [t] + Lex(s[n..]);
    }
  }

  /** Every "(" and every ")" of the text becomes a token of its own. */
  lemma {:induction false} LexCountsParens(s: string, c: char)
    requires c == '(' || c == ')'
    ensures CountSym(Lex(s), c) == CountChar(s, c)
    decreases |s|
  {
    if s != [] {
      match MatchAt(s)
      case None =>
        assert !IsSymbolChar(s[0]);
        LexCountsParens(s[1..], c);
      case Some(m) =>
        var n := m.1;
        CountCharSplit(s, n, c);
        LexCountsParens(s[n..], c);
        assert Lex(s) == [m.0] + Lex(s[n..]);
        assert CountSym(Lex(s), c) == (if m.0 == Sym(c) then 1 else 0) + CountSym(Lex(s[n..]), c);
        if !m.0.Sym? {
          assert c !in s[..n] by {
            forall k | 0 <= k < n
              ensures s[..n][k] != c
            {
              if NumberMatch(s) == 0 {
                assert IsLetter(s[k]);
              } else {
                assert NumberCharAt(s, k);
              }
            }
          }
          CountCharAbsent(s[..n], c);
        } else {
          assert n == 1 && s[..1] == [s[0]];
        }
    }
  }

  /** A symbol character is a token of its own, whatever follows it. */
  lemma LexSymbolThen(c: char, rest: string)
    requires IsSymbolChar(c)
    ensures Lex([c] + rest) == [Sym(c)] + Lex(rest)
  {
    var t := [c] + rest;
    assert Span(t, IsDigit) == 0 && Span(t, IsLetter) == 0;
    assert NumberMatch(t) == 0;
    assert t[1..] == rest;
  }

  /** A run of digits not followed by a digit or a point is one number token. */
  lemma LexDigitsThen(w: string, rest: string)
    requires |w| > 0 && AllDigits(w)
    requires rest != [] ==> !IsDigit(rest[0]) && rest[0] != '.'
    ensures Lex(w + rest) == [Number(w)] + Lex(rest)
  {
    var t := w + rest;
    SpanUnique(t, IsDigit, |w|);
    assert NumberMatch(t) == |w|;
    assert t[..|w|] == w && t[|w|..] == rest;
  }

  /** The number match of digits, a point and digits runs to the end of the last digit. */
  lemma DecimalMatch(a: string, b: string, rest: string)
    requires AllDigits(a) && |b| > 0 && AllDigits(b)
    requires rest != [] ==> !IsDigit(rest[0])
    ensures NumberMatch(a + "." + b + rest) == |a| + 1 + |b|
  {
    var t := a + "." + b + rest;
    assert t[|a|] == '.' && t[|a| + 1] == b[0];
    SpanUnique(t, IsDigit, |a|);
    assert t[|a| + 1..] == b + rest;
    SpanUnique(b + rest, IsDigit, |b|);
  }

  /** Digits, a point and digits not followed by a digit are one number token. */
  lemma LexDecimalThen(a: string, b: string, rest: string)
    requires AllDigits(a) && |b| > 0 && AllDigits(b)
    requires rest != [] ==> !IsDigit(rest[0])
    ensures Lex(a + "." + b + rest) == [Number(a + "." + b)] + Lex(rest)
  {
    var w := a + "." + b;
    var t := w + rest;
    DecimalMatch(a, b, rest);
    assert t[..|w|] == w && t[|w|..] == rest;
    assert MatchAt(t) == Some((Number(w), |w|));
  }

  /** A run of letters not followed by a letter is one identifier token. */
  lemma LexLettersThen(w: string, rest: string)
    requires |w| > 0 && forall k :: 0 <= k < |w| ==> IsLetter(w[k])
    requires rest != [] ==> !IsLetter(rest[0])
    ensures Lex(w + rest) == [Ident(w)] + Lex(rest)
  {
    var t := w + rest;
    assert !IsDigit(t[0]) && t[0] != '.';
    assert NumberMatch(t) == 0;
    SpanUnique(t, IsLetter, |w|);
    assert t[..|w|] == w && t[|w|..] == rest;
  }

  /** A non-empty run of digits is a single number token. */
  lemma DigitsAreOneNumber(w: string)
    requires |w| > 0 && AllDigits(w)
    ensures Lex(w) == [Number(w)]
  {
    SpanUnique(w, IsDigit, |w|);
    assert NumberMatch(w) == |w|;
    assert w[..|w|] == w;
    assert w[|w|..] == [];
  }

  /** A run of digits and an operator sign: a number token and a symbol token. */
  lemma LexNumberOperator(w: string, o: char, rest: string)
    requires |w| > 0 && AllDigits(w) && IsOperator(Sym(o))
    ensures Lex(w + ([o] + rest)) == [Number(w), Sym(o)] + Lex(rest)
  {
    var r := [o] + rest;
    assert r[0] == o && !IsDigit(o);
    LexDigitsThen(w, r);
    LexSymbolThen(o, rest);
    ConcatAssoc([Number(w)], [Sym(o)], Lex(rest));
    assert [Number(w)] + [Sym(o)] == [Number(w), Sym(o)];
  }

  /** Three runs of digits separated by two operator signs, grouped from the right. */
  lemma LexThreeNested(a: string, o1: char, b: string, o2: char, c: string)
    requires |a| > 0 && |b| > 0 && |c| > 0 && AllDigits(a) && AllDigits(b) && AllDigits(c)
    requires IsOperator(Sym(o1)) && IsOperator(Sym(o2))
    ensures Lex(a + ([o1] + (b + ([o2] + c)))) == [Number(a), Sym(o1)] + ([Number(b), Sym(o2)] + [Number(c)])
  {
    LexNumberOperator(a, o1, b + ([o2] + c));
    LexNumberOperator(b, o2, c);
    DigitsAreOneNumber(c);
  }

  /** Three runs of digits separated by two operator signs. */
  lemma LexThreeNumbers(a: string, o1: char, b: string, o2: char, c: string)
    requires |a| > 0 && |b| > 0 && |c| > 0 && AllDigits(a) && AllDigits(b) && AllDigits(c)
    requires IsOperator(Sym(o1)) && IsOperator(Sym(o2))
    ensures Lex(a + [o1] + b + [o2] + c) == [Number(a), Sym(o1), Number(b), Sym(o2), Number(c)]
  {
    assert a + [o1] + b + [o2] + c == a + ([o1] + (b + ([o2] + c)));
    LexThreeNested(a, o1, b, o2, c);
    JoinFive(Number(a), Sym(o1), Number(b), Sym(o2), Number(c));
  }
}
