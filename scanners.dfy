/** The winnow primitives the parser is built from, over a `&str` cursor that
    is modelled as the unconsumed suffix of the input. A parser either
    succeeds with a value and the rest of the input, backtracks (a recoverable
    error that `alt`, `opt` and `separated` catch, restoring the cursor), or
    aborts (a panic in a `map` closure, which nothing catches). */
module Scanners {
  import opened Names
  import opened Domain

  /** The outcome of a parser that can fail. */
  datatype ParseResult<+T> = Parsed(value: T, rest: string) | Backtrack | Abort(failure: Failure) {
    predicate IsFailure() {
      !Parsed?
    }

    function PropagateFailure<U>(): ParseResult<U>
      requires !Parsed?
    {
      if Backtrack? then Backtrack else Abort(failure)
    }

    function Extract(): Step<T>
      requires Parsed?
    {
      Step(value, rest)
    }
  }

  /** The outcome of a parser that cannot fail. */
  datatype Step<+T> = Step(value: T, rest: string)

  /** `rest` is what is left of `s` after a prefix has been consumed. */
  predicate IsSuffix(rest: string, s: string)
    decreases |s|
  {
    |rest| <= |s| && (rest == s || IsSuffix(rest, s[1..]))
  }

  /** Whatever follows the first `n` characters is a suffix. */
  lemma {:induction false} DropIsSuffix(s: string, n: nat)
    requires n <= |s|
    ensures IsSuffix(s[n..], s)
    decreases n
  {
    if n == 0 {
      assert s[0..] == s;
    } else {
      DropIsSuffix(s[1..], n - 1);
      assert s[1..][n - 1..] == s[n..];
    }
  }

  /** A suffix is the text after its first `|s| - |rest|` characters. */
  lemma {:induction false} SuffixIsDrop(rest: string, s: string)
    requires IsSuffix(rest, s)
    ensures rest == s[|s| - |rest|..]
    decreases |s|
  {
    if rest != s {
      SuffixIsDrop(rest, s[1..]);
      assert s[1..][|s| - 1 - |rest|..] == s[|s| - |rest|..];
    }
  }

  /** Being a suffix is transitive. */
  lemma {:induction false} SuffixTrans(c: string, b: string, a: string)
    requires IsSuffix(c, b) && IsSuffix(b, a)
    ensures IsSuffix(c, a)
    decreases |a|
  {
    if b != a {
      SuffixTrans(c, b, a[1..]);
    }
  }

  /** Text split around its character at `n`. */
  lemma SplitAround(p: string, n: nat, t: string)
    requires n < |p|
    ensures p + t == p[..n] + ([p[n]] + (p[n + 1..] + t))
  {
    var r := p[..n] + ([p[n]] + (p[n + 1..] + t));
    assert |r| == |p + t|;
    forall i | 0 <= i < |r|
      ensures r[i] == (p + t)[i]
    {
      if i < n {
      } else if i == n {
      } else if i < |p| {
        assert r[i] == p[n + 1..][i - n - 1];
      } else {
        assert r[i] == t[i - |p|];
      }
    }
  }

  /** A successful parse leaves a suffix of its input. */
  predicate Advances<T>(r: ParseResult<T>, s: string) {
    r.Parsed? ==> IsSuffix(r.rest, s)
  }

  /** A successful parse leaves a strictly shorter suffix of its input. */
  predicate Consumes<T>(r: ParseResult<T>, s: string) {
    r.Parsed? ==> IsSuffix(r.rest, s) && |r.rest| < |s|
  }

  /** `c.is_alphanumeric() || c == '_'`, over ASCII. */
  predicate IsIdentChar(c: char) {
    IsAsciiLetter(c) || IsAsciiDigit(c) || c == '_'
  }

  /** The characters of a named argument's path: `c.is_alphanumeric() || c == '.' || c == '_'`. */
  predicate IsArgChar(c: char) {
    IsIdentChar(c) || c == '.'
  }

  /** The characters of a match pattern or result: `!c.is_whitespace() && c != ']'`. */
  predicate IsCaseChar(c: char) {
    !IsWhitespace(c) && c != ']'
  }

  /** The characters `winnow::ascii::multispace0` skips. */
  predicate IsMultispace(c: char) {
    c == ' ' || c == '\t' || c == '\r' || c == '\n'
  }

  /** `char::is_whitespace`: the Unicode White_Space property. */
  predicate IsWhitespace(c: char) {
    || '\t' <= c <= '\r'
    || c == ' ' || c == '\U{0085}' || c == '\U{00A0}' || c == '\U{1680}'
    || '\U{2000}' <= c <= '\U{200A}'
    || c == '\U{2028}' || c == '\U{2029}' || c == '\U{202F}' || c == '\U{205F}' || c == '\U{3000}'
  }

  lemma MultispaceIsWhitespace(c: char)
    ensures IsMultispace(c) ==> IsWhitespace(c)
    ensures IsIdentChar(c) ==> !IsWhitespace(c)
  {
  }

  /** The character classes the parser's `take_while` calls and `multispace0` test. */
  datatype CharClass = Ident | ArgPath | CaseText | Multispace | White

  predicate InClass(k: CharClass, c: char) {
    match k
    case Ident => IsIdentChar(c)
    case ArgPath => IsArgChar(c)
    case CaseText => IsCaseChar(c)
    case Multispace => IsMultispace(c)
    case White => IsWhitespace(c)
  }

  /** The length of the longest prefix of `s` whose characters all are in class `p`. */
  function Span(k: CharClass, s: string): (n: nat)
    ensures n <= |s|
    ensures forall i | 0 <= i < n :: InClass(k, s[i])
    ensures n == |s| || !InClass(k, s[n])
  {
    if s == [] || !InClass(k, s[0]) then 0 else 1 + Span(k, s[1..])
  }

  /** The span of `w + t` is `w` when `w` satisfies `p` and `t` does not start with a match. */
  lemma SpanOf(k: CharClass, w: string, t: string)
    requires forall i | 0 <= i < |w| :: InClass(k, w[i])
    requires t == [] || !InClass(k, t[0])
    ensures Span(k, w + t) == |w|
  {
    assert forall i | 0 <= i < |w| :: (w + t)[i] == w[i];
    assert t != [] ==> (w + t)[|w|] == t[0];
  }

  /** `take_while(1.., k)` */
  function TakeWhile1(k: CharClass, s: string): (r: ParseResult<string>)
    ensures !r.Abort? && Consumes(r, s)
    ensures r.Backtrack? <==> (s == [] || !InClass(k, s[0]))
    ensures r.Parsed? ==> 0 < |r.value| <= |s| && r.value == s[..|r.value|] && r.rest == s[|r.value|..]
    ensures r.Parsed? ==> r.rest == [] || !InClass(k, r.rest[0])
    ensures r.Parsed? ==> forall i | 0 <= i < |r.value| :: InClass(k, r.value[i])
  {
    var n := Span(k, s);
    DropIsSuffix(s, n);
    if n == 0 then Backtrack else Parsed(s[..n], s[n..])
  }

  /** `take_while(0.., k)` */
  function TakeWhile0(k: CharClass, s: string): (r: Step<string>)
    ensures |r.value| <= |s| && r.value == s[..|r.value|] && r.rest == s[|r.value|..]
    ensures IsSuffix(r.rest, s)
    ensures r.rest == [] || !InClass(k, r.rest[0])
    ensures forall i | 0 <= i < |r.value| :: InClass(k, r.value[i])
  {
    var n := Span(k, s);
    DropIsSuffix(s, n);
    Step(s[..n], s[n..])
  }

  /** `multispace0`, keeping only the rest of the input. */
  function Multispace0(s: string): (rest: string)
    ensures IsSuffix(rest, s)
    ensures rest == [] || !InClass(Multispace, rest[0])
    ensures forall i | 0 <= i < |s| - |rest| :: InClass(Multispace, s[i])
  {
    DropIsSuffix(s, Span(Multispace, s));
    s[Span(Multispace, s)..]
  }

  /** `multispace0` skips exactly a run of spaces before a non-space. */
  lemma Multispace0Of(w: string, t: string)
    requires forall i | 0 <= i < |w| :: InClass(Multispace, w[i])
    requires t == [] || !InClass(Multispace, t[0])
    ensures Multispace0(w + t) == t
  {
    SpanOf(Multispace, w, t);
    assert (w + t)[|w|..] == t;
  }

  /** A run of the characters `multispace0` skips. */
  predicate IsSpaces(w: string) {
    forall i | 0 <= i < |w| :: InClass(Multispace, w[i])
  }

  /** Text that does not start with a character `multispace0` skips. */
  predicate NoLeadingSpace(t: string) {
    t == [] || !InClass(Multispace, t[0])
  }

  /** `multispace0` leaves text without a leading space as it is. */
  lemma Multispace0None(t: string)
    requires NoLeadingSpace(t)
    ensures Multispace0(t) == t
  {
    Multispace0Of([], t);
    assert [] + t == t;
  }

  /** `take_while(1.., k)` on a run of `k` characters followed by a character outside `k`. */
  lemma TakeWhile1Of(k: CharClass, w: string, t: string)
    requires |w| > 0 && forall i | 0 <= i < |w| :: InClass(k, w[i])
    requires t == [] || !InClass(k, t[0])
    ensures TakeWhile1(k, w + t) == Parsed(w, t)
  {
    SpanOf(k, w, t);
    assert (w + t)[..|w|] == w;
    assert (w + t)[|w|..] == t;
  }

  /** `take_while(0.., k)` on a run of `k` characters followed by a character outside `k`. */
  lemma TakeWhile0Of(k: CharClass, w: string, t: string)
    requires forall i | 0 <= i < |w| :: InClass(k, w[i])
    requires t == [] || !InClass(k, t[0])
    ensures TakeWhile0(k, w + t) == Step(w, t)
  {
    SpanOf(k, w, t);
    assert (w + t)[..|w|] == w;
    assert (w + t)[|w|..] == t;
  }

  /** `literal(lit)` on text that starts with `lit`. */
  lemma LiteralOf(lit: string, t: string)
    ensures Literal(lit, lit + t) == Parsed(lit, t)
  {
    assert lit <= lit + t;
    assert (lit + t)[|lit|..] == t;
  }

  /** `literal(lit)` backtracks on text that does not start with the literal's first character. */
  lemma LiteralMismatch(lit: string, t: string)
    requires |lit| > 0 && (t == [] || t[0] != lit[0])
    ensures Literal(lit, t) == Backtrack
  {
    assert lit <= t ==> |t| > 0 && t[0] == lit[0];
  }

  /** `ignore_whitespace(literal(lit))` on `lit` with spaces around it. */
  lemma TokenOf(lit: string, before: string, after: string, t: string)
    requires |lit| > 0 && !InClass(Multispace, lit[0])
    requires IsSpaces(before) && IsSpaces(after) && NoLeadingSpace(t)
    ensures Token(lit, before + (lit + (after + t))) == Parsed(lit, t)
  {
    Multispace0Of(before, lit + (after + t));
    LiteralOf(lit, after + t);
    Multispace0Of(after, t);
  }

  /** `ignore_whitespace(literal(lit))` on `lit` with no spaces around it. */
  lemma TokenAt(lit: string, t: string)
    requires |lit| > 0 && !InClass(Multispace, lit[0]) && NoLeadingSpace(t)
    ensures Token(lit, lit + t) == Parsed(lit, t)
  {
    Multispace0None(lit + t);
    LiteralOf(lit, t);
    Multispace0None(t);
  }

  /** `ignore_whitespace(literal(lit))` on `lit` followed by spaces. */
  lemma TokenAfter(lit: string, after: string, t: string)
    requires |lit| > 0 && !InClass(Multispace, lit[0])
    requires IsSpaces(after) && NoLeadingSpace(t)
    ensures Token(lit, lit + (after + t)) == Parsed(lit, t)
  {
    Multispace0None(lit + (after + t));
    LiteralOf(lit, after + t);
    Multispace0Of(after, t);
  }

  /** `literal(lit)` */
  function Literal(lit: string, s: string): (r: ParseResult<string>)
    ensures !r.Abort? && Advances(r, s)
    ensures r.Parsed? <==> lit <= s
    ensures r.Parsed? ==> r.value == lit && r.rest == s[|lit|..]
  {
    if lit <= s then DropIsSuffix(s, |lit|); Parsed(lit, s[|lit|..]) else Backtrack
  }

  /** `multispace0` after a parser: the trailing half of `ignore_whitespace`. */
  function SkipAfter<T>(r: ParseResult<T>): (r': ParseResult<T>)
    ensures r'.Parsed? <==> r.Parsed?
    ensures r'.Parsed? ==> r'.value == r.value && IsSuffix(r'.rest, r.rest)
    ensures !r.Parsed? ==> r' == r
  {
    if r.Parsed? then Parsed(r.value, Multispace0(r.rest)) else r
  }

  /** `ignore_whitespace(literal(lit))`: the literal with spaces around it skipped. */
  function Token(lit: string, s: string): (r: ParseResult<string>)
    requires |lit| > 0
    ensures !r.Abort? && Consumes(r, s)
    ensures r.Parsed? <==> lit <= Multispace0(s)
  {
    var m := Multispace0(s);
    var r := SkipAfter(Literal(lit, m));
    if r.Parsed? then
      SuffixTrans(Literal(lit, m).rest, m, s);
      SuffixTrans(r.rest, Literal(lit, m).rest, s);
      r
    else r
  }

  /** `alt((first, second))` once `first` has run: the second is tried only on backtrack. */
  function OrElse<T>(first: ParseResult<T>, second: ParseResult<T>): (r: ParseResult<T>)
    ensures first.Backtrack? ==> r == second
    ensures !first.Backtrack? ==> r == first
  {
    if first.Backtrack? then second else first
  }

  /** `line_ending`: `"\n"` or `"\r\n"`. */
  function LineEnding(s: string): (r: ParseResult<string>)
    ensures !r.Abort? && Consumes(r, s)
    ensures r.Parsed? <==> (|s| > 0 && s[0] == '\n') || (|s| > 1 && s[0] == '\r' && s[1] == '\n')
  {
    OrElse(Literal("\n", s), Literal("\r\n", s))
  }

  /** `opt(p)` for a parser that never aborts and whose value is dropped: the rest of the input. */
  function OptRest<T>(r: ParseResult<T>, s: string): (rest: string)
    requires Advances(r, s)
    ensures IsSuffix(rest, s)
    ensures rest == if r.Parsed? then r.rest else s
  {
    if r.Parsed? then r.rest else s
  }

  /** `str::trim_end` */
  function TrimEnd(s: string): (r: string)
    ensures |r| <= |s| && r == s[..|r|]
    ensures r == [] || !InClass(White, r[|r| - 1])
    ensures forall i | |r| <= i < |s| :: InClass(White, s[i])
  {
    if s != [] && InClass(White, s[|s| - 1]) then TrimEnd(s[..|s| - 1]) else s
  }

  /** `str::trim`: leading and trailing White_Space removed. */
  function Trim(s: string): (r: string)
    ensures |r| <= |s|
    ensures r == [] || (!InClass(White, r[0]) && !InClass(White, r[|r| - 1]))
    ensures (forall i | 0 <= i < |s| :: !InClass(White, s[i])) ==> r == s
  {
    TrimEnd(s[Span(White, s)..])
  }
}
