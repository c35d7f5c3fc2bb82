/** Tokens, character classes and the static operator tables of the evaluator. */
module Tokens {

  /** A token as the tokenizer produces it: the text of a number literal, a run of
      letters, or one operator or parenthesis character. */
  datatype Token = Number(text: string) | Ident(name: string) | Sym(c: char)

  /** `\d` of java.util.regex: the ASCII digits only. */
  predicate IsDigit(c: char) { '0' <= c <= '9' }

  /** Every character of `w` is a decimal digit. */
  predicate AllDigits(w: string)
  {
    forall k :: 0 <= k < |w| ==> IsDigit(w[k])
  }

  /** `[a-zA-Z]` */
  predicate IsLetter(c: char) { 'a' <= c <= 'z' || 'A' <= c <= 'Z' }

  // The regex class of single-character tokens: the characters ^ * / + - ( ) ! %.
  predicate IsSymbolChar(c: char)
  {
    c == '^' || c == '*' || c == '/' || c == '+' || c == '-' || c == '(' || c == ')' || c == '!' || c == '%'
  }

  /** The names the evaluator knows as unary functions. */
  const FunctionNames: set<string> := {"sin", "cos", "tan", "asin", "acos", "atan", "log", "ln", "sqrt"}

  predicate IsFunction(t: Token) { t.Ident? && t.name in FunctionNames }

  /** toDoubleOrNull accepts the token: a number literal, or one of the two words the double
      parser reads as NaN and as positive infinity. */
  predicate IsNumeric(t: Token) { t.Number? || t == Ident("NaN") || t == Ident("Infinity") }

  /** isOperator: the token is one of "+", "-", "*", "/", "^", "%", "!". */
  predicate IsOperator(t: Token)
  {
    t.Sym? && (t.c == '+' || t.c == '-' || t.c == '*' || t.c == '/' || t.c == '^' || t.c == '%' || t.c == '!')
  }

  /** precedence: the binding strength of an operator token, 0 for everything else. */
  function Precedence(t: Token): (p: nat)
    ensures IsOperator(t) <==> p > 0
    ensures p <= 5
  {
    if !t.Sym? then 0
    else if t.c == '!' then 5
    else if t.c == '^' then 4
    else if t.c == '%' then 3
    else if t.c == '*' || t.c == '/' then 2
    else if t.c == '+' || t.c == '-' then 1
    else 0
  }

  /** The length of the longest prefix of `s` whose characters all satisfy `p`. */
  function Span(s: string, p: char -> bool): (n: nat)
    ensures n <= |s|
    ensures forall k :: 0 <= k < n ==> p(s[k])
    ensures n < |s| ==> !p(s[n])
  {
    if |s| > 0 && p(s[0]) then 1 + Span(s[1..], p) else 0
  }

  /** Any prefix length with the two properties of Span is the span. */
  lemma SpanUnique(s: string, p: char -> bool, n: nat)
    requires n <= |s|
    requires forall k :: 0 <= k < n ==> p(s[k])
    requires n < |s| ==> !p(s[n])
    ensures Span(s, p) == n
  {
  }

  /** How often `c` occurs in `s`. */
  function CountChar(s: string, c: char): nat
  {
    if s == [] then 0 else (if s[0] == c then 1 else 0) + CountChar(s[1..], c)
  }

  /** How many tokens of `ts` are the single-character token `c`. */
  function CountSym(ts: seq<Token>, c: char): nat
  {
    if ts == [] then 0 else (if ts[0] == Sym(c) then 1 else 0) + CountSym(ts[1..], c)
  }

  lemma {:induction false} CountCharSplit(s: string, n: nat, c: char)
    requires n <= |s|
    ensures CountChar(s, c) == CountChar(s[..n], c) + CountChar(s[n..], c)
  {
    if n > 0 {
      assert s[..n][1..] == s[1..][..n - 1] && s[n..] == s[1..][n - 1..];
      CountCharSplit(s[1..], n - 1, c);
    } else {
      assert s[n..] == s;
    }
  }

  lemma {:induction false} CountCharAbsent(s: string, c: char)
    requires c !in s
    ensures CountChar(s, c) == 0
  {
    if s != [] {
      assert s[0] in s;
      CountCharAbsent(s[1..], c);
    }
  }

  lemma {:induction false} CountCharConcat(a: string, b: string, c: char)
    ensures CountChar(a + b, c) == CountChar(a, c) + CountChar(b, c)
  {
    CountCharSplit(a + b, |a|, c);
    assert (a + b)[..|a|] == a && (a + b)[|a|..] == b;
  }

  /** Concatenation regroups freely. */
  lemma ConcatAssoc<T>(a: seq<T>, b: seq<T>, c: seq<T>)
    ensures (a + b) + c == a + (b + c)
  {
  }

  /** Two pairs and one element joined make the five-element display. */
  lemma JoinFive<T>(x: T, y: T, z: T, u: T, v: T)
    ensures [x, y] + ([z, u] + [v]) == [x, y, z, u, v]
  {
  }

  /** A prefix taken off the rest joins the part already done. */
  lemma JoinStep<T>(done: seq<T>, step: seq<T>, after: seq<T>, rest: seq<T>, whole: seq<T>)
    requires done + rest == whole && rest == step + after
    ensures (done + step) + after == whole
  {
    ConcatAssoc(done, step, after);
  }
}
