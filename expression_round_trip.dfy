/** Reading back printed mapping expressions.
    Each lemma runs a parser on the canonical text of a value followed by text
    that cannot continue it, and shows that the parser returns exactly that
    value and leaves exactly the following text. */
module ExpressionRoundTrip {
  import opened Wrappers
  import opened Names
  import opened Domain
  import opened Scanners
  import opened Canonical
  import opened Parser
  import opened RoundTrip

  /** What may follow an entry: the end of the text, a separator, or the `}`
      that closes a nested block. */
  predicate EntryDelim(u: string) {
    u == [] || u[0] == ',' || u[0] == ';' || u[0] == '}'
  }

  /** No identifier, path or space continues into such text. */
  lemma DelimFacts(u: string)
    requires EntryDelim(u)
    ensures WordEnd(u) && PathEnd(u) && NoLeadingSpace(u)
    ensures u == [] || (u[0] != '-' && u[0] != '{' && u[0] != ':')
  {
  }

  /** Nor does `->`, `{` or the colon of an expression. */
  lemma DelimStops(u: string)
    requires EntryDelim(u)
    ensures Literal("->", u) == Backtrack
    ensures Literal("{", u) == Backtrack
    ensures Token(":", u) == Backtrack
  {
    DelimFacts(u);
    LiteralMismatch("->", u);
    LiteralMismatch("{", u);
    Multispace0None(u);
    LiteralMismatch(":", u);
  }

  /** A GraphQL name is an identifier word and a path of one segment. */
  lemma NameFacts(a: Name)
    ensures IsIdentWord(a) && IsPath(a) && '.' !in a
    ensures a[0] != '{' && a[0] != ':' && !InClass(Multispace, a[0])
    ensures NewName(a) == Some(a)
  {
    assert forall i | 0 <= i < |a| :: InClass(Ident, a[i]) by {
      forall i | 0 <= i < |a|
        ensures InClass(Ident, a[i])
      {
        if i > 0 {
          assert IsNameContinue(a[i]);
        }
      }
    }
    assert forall i | 0 <= i < |a| :: PathCharAt(a, i);
  }

  /** `identifier` on a word with nothing skipped before it. */
  lemma IdentifierAt(w: string, t: string)
    requires IsIdentWord(w) && WordEnd(t)
    ensures ParseIdentifier(w + t) == Parsed(w, t)
  {
    IdentifierOf([], w, [], t);
    assert [] + (w + ([] + t)) == w + t;
  }

  /** Text starting with `c`, which is not a space. */
  lemma StartsWith(c: char, x: string, t: string)
    requires |x| > 0 && x[0] == c
    ensures |x + t| > 0 && (x + t)[0] == c
  {
  }

  // ---------------------------------------------------------------------
  // Mapping expressions, after the colon

  /** A source that no `->` follows: neither transform applies. */
  lemma SourceStops(t: string, source: string, v: string)
    requires ParseSource(t) == Parsed(source, v)
    requires Literal("->", v) == Backtrack
    ensures ParseMatchTransform(t) == Backtrack
    ensures ParseTransformFn(t) == Backtrack
  {
  }

  /** A path that an entry delimiter follows is not the source of a transform. */
  lemma PathStops(p: string, u: string)
    requires IsPath(p) && EntryDelim(u)
    ensures ParseMatchTransform(p + u) == Backtrack
    ensures ParseTransformFn(p + u) == Backtrack
    ensures ParseNamedArg(p + u) == Backtrack
    ensures NoLeadingSpace(p + u)
  {
    DelimFacts(u);
    DelimStops(u);
    NamedPathStrOf(p, u);
    SourceStops(p + u, p, u);
    assert PathCharAt(p, 0);
    StartsWith(p[0], p, u);
    LiteralMismatch("{", p + u);
  }

  /** When both transforms backtrack, the last three alternatives decide. */
  lemma ReferenceParts(t: string, r: ParseResult<MappingExpression>)
    requires ParseMatchTransform(t) == Backtrack
    requires ParseTransformFn(t) == Backtrack
    requires ParseReference(t) == r
    ensures ParseExpressionAfterColon(t) == r
  {
  }

  /** `alias`: a name on its own. */
  lemma AliasAfterColon(a: Name, u: string)
    requires EntryDelim(u)
    ensures ParseExpressionAfterColon(a + u) == Parsed(Alias(a), u)
    ensures NoLeadingSpace(a + u)
  {
    NameFacts(a);
    DelimFacts(u);
    PathStops(a, u);
    NamedPathOf(a, u);
    IdentifierAt(a, u);
    ReferenceParts(a + u, Parsed(Alias(a), u));
  }

  /** `named_path`: a dotted path, which `named_path_str` also reads but which
      no `->` follows. */
  lemma NamedPathAfterColon(p: string, u: string)
    requires IsDottedPath(p) && EntryDelim(u)
    ensures ParseExpressionAfterColon(p + u) == Parsed(NamedPath(p), u)
    ensures NoLeadingSpace(p + u)
  {
    DelimFacts(u);
    PathStops(p, u);
    NamedPathOf(p, u);
    ReferenceParts(p + u, Parsed(NamedPath(p), u));
  }

  /** Text starting with `{` is not a source. */
  lemma NoSource(x: string)
    requires |x| > 0 && x[0] == '{'
    ensures ParseSource(x) == Backtrack
  {
    Multispace0None(x);
  }

  /** Without a source, neither transform applies. */
  lemma NoSourceStops(t: string)
    requires ParseSource(t) == Backtrack
    ensures ParseMatchTransform(t) == Backtrack
    ensures ParseTransformFn(t) == Backtrack
  {
  }

  /** Text starting with `{` is the source of no transform. */
  lemma BraceStops(x: string)
    requires |x| > 0 && x[0] == '{'
    ensures ParseMatchTransform(x) == Backtrack
    ensures ParseTransformFn(x) == Backtrack
    ensures NoLeadingSpace(x)
  {
    NoSource(x);
    NoSourceStops(x);
  }

  /** `named_arg` is its four parts in sequence. */
  lemma NamedArgParts(s: string, s1: string, s2: string, path: Step<string>, u: string)
    requires Literal("{", s) == Parsed("{", s1)
    requires Literal("$", s1) == Parsed("$", s2)
    requires TakeWhile0(ArgPath, s2) == path
    requires Literal("}", path.rest) == Parsed("}", u)
    ensures ParseNamedArg(s) == Parsed(NamedArgument("$" + path.value), u)
  {
  }

  /** `named_arg`: `{$path}`. */
  lemma NamedArgOf(a: string, u: string)
    requires IsArgumentText(a)
    ensures ParseNamedArg("{" + (a + ("}" + u))) == Parsed(NamedArgument(a), u)
  {
    var path := a[1..];
    assert a + ("}" + u) == "$" + (path + ("}" + u));
    assert "$" + path == a;
    LiteralOf("{", a + ("}" + u));
    LiteralOf("$", path + ("}" + u));
    TakeWhile0Of(ArgPath, path, "}" + u);
    LiteralOf("}", u);
    NamedArgParts("{" + (a + ("}" + u)), a + ("}" + u), path + ("}" + u), Step(path, "}" + u), u);
  }

  /** `named_arg` after `match_transform` and `transform_fn` have backtracked. */
  lemma NamedArgAfterColon(a: string, u: string)
    requires IsArgumentText(a)
    ensures ParseExpressionAfterColon("{" + (a + ("}" + u))) == Parsed(NamedArgument(a), u)
    ensures NoLeadingSpace("{" + (a + ("}" + u)))
  {
    var s := "{" + (a + ("}" + u));
    BraceStops(s);
    NamedArgOf(a, u);
    ReferenceParts(s, Parsed(NamedArgument(a), u));
  }

  /** A transform's source: `named_path_str` reads the path and stops at `->`. */
  lemma SourceOf(source: string, x: string)
    requires IsPath(source)
    ensures ParseSource(source + ("->" + x)) == Parsed(source, "->" + x)
    ensures NoLeadingSpace(source + ("->" + x))
  {
    NamedPathStrOf(source, "->" + x);
    assert PathCharAt(source, 0);
    StartsWith(source[0], source, "->" + x);
  }

  /** The name of a transform function is an identifier that converts back,
      and does not begin the `match(` keyword. */
  lemma TransformNameFacts(f: TransformFn, u: string)
    requires EntryDelim(u)
    ensures IsIdentWord(TransformFnName(f))
    ensures TransformFnFromString(TransformFnName(f)) == Ok(f)
    ensures ParseIdentifier(TransformFnName(f) + u) == Parsed(TransformFnName(f), u)
    ensures ParseMatchExpression(TransformFnName(f) + u) == Backtrack
  {
    TransformNameIdentifier(f, u);
    TransformNameNotMatch(f, u);
  }

  /** The name of a transform function is read as an identifier and converts back. */
  lemma TransformNameIdentifier(f: TransformFn, u: string)
    requires EntryDelim(u)
    ensures IsIdentWord(TransformFnName(f))
    ensures TransformFnFromString(TransformFnName(f)) == Ok(f)
    ensures ParseIdentifier(TransformFnName(f) + u) == Parsed(TransformFnName(f), u)
  {
    var name := TransformFnName(f);
    DelimFacts(u);
    IdentifierAt(name, u);
    TransformFnRoundTrip(f);
    TransformFnConversions(name);
  }

  /** The name of a transform function does not begin the `match(` keyword. */
  lemma TransformNameNotMatch(f: TransformFn, u: string)
    ensures ParseMatchExpression(TransformFnName(f) + u) == Backtrack
  {
    var name := TransformFnName(f);
    StartsWith('f', name, u);
    Multispace0None(name + u);
    assert !("match(" <= Multispace0(name + u));
    NoMatchKeyword(name + u);
  }

  /** `match_expression` backtracks when its keyword is not next. */
  lemma NoMatchKeyword(x: string)
    requires !("match(" <= Multispace0(x))
    ensures ParseMatchExpression(x) == Backtrack
  {
    assert MatchOpening(x) == Backtrack by {
      assert Token("match(", x).Backtrack?;
    }
  }

  /** `match_transform` backtracks when no match expression follows `->`. */
  lemma NoMatchTransform(s: string, source: string, s1: string, s2: string)
    requires ParseSource(s) == Parsed(source, s1)
    requires Literal("->", s1) == Parsed("->", s2)
    requires ParseMatchExpression(s2) == Backtrack
    ensures ParseMatchTransform(s) == Backtrack
  {
  }

  /** `transform_fn` is a source, `->` and a name that converts. */
  lemma TransformFnParts(s: string, source: string, s1: string, s2: string, name: string, u: string, f: TransformFn)
    requires ParseSource(s) == Parsed(source, s1)
    requires Literal("->", s1) == Parsed("->", s2)
    requires ParseIdentifier(s2) == Parsed(name, u)
    requires TransformFnFromString(name) == Ok(f)
    ensures ParseTransformFn(s) == Parsed(Transform(source, f), u)
  {
  }

  /** `transform_fn` decides once `match_transform` has backtracked. */
  lemma TransformParts(s: string, r: ParseResult<MappingExpression>)
    requires ParseMatchTransform(s) == Backtrack
    requires ParseTransformFn(s) == r && !r.Backtrack?
    ensures ParseExpressionAfterColon(s) == r
  {
  }

  /** `transform_fn`: `source->first`, after `match_transform` has backtracked
      on the missing `match(`. */
  lemma TransformAfterColon(source: string, f: TransformFn, u: string)
    requires IsPath(source) && EntryDelim(u)
    ensures ParseExpressionAfterColon(source + ("->" + (TransformFnName(f) + u)))
         == Parsed(Transform(source, f), u)
    ensures NoLeadingSpace(source + ("->" + (TransformFnName(f) + u)))
  {
    var name := TransformFnName(f);
    SourceOf(source, name + u);
    LiteralOf("->", name + u);
    TransformNameFacts(f, u);
    var s := source + ("->" + (name + u));
    NoMatchTransform(s, source, "->" + (name + u), name + u);
    TransformFnParts(s, source, "->" + (name + u), name + u, name, u, f);
    TransformParts(s, Parsed(Transform(source, f), u));
  }

  /** `match_transform` is a source, `->` and a match expression. */
  lemma MatchTransformParts(s: string, source: string, s1: string, s2: string, arms: seq<MatchArm>, u: string)
    requires ParseSource(s) == Parsed(source, s1)
    requires Literal("->", s1) == Parsed("->", s2)
    requires ParseMatchExpression(s2) == Parsed(arms, u)
    ensures ParseExpressionAfterColon(s) == Parsed(Matcher(source, arms), u)
  {
  }

  /** `match_transform`: `source->match(@ => { ... })`. */
  lemma MatcherAfterColon(source: string, arms: seq<MatchArm>, layout: Layout, u: string)
    requires IsPath(source) && WellFormedArms(arms) && IsSpaces(layout.gap) && EntryDelim(u)
    ensures ParseExpressionAfterColon(source + ("->" + (PrintMatch(arms, layout) + u)))
         == Parsed(Matcher(source, arms), u)
    ensures NoLeadingSpace(source + ("->" + (PrintMatch(arms, layout) + u)))
  {
    var m := PrintMatch(arms, layout) + u;
    DelimFacts(u);
    SourceOf(source, m);
    LiteralOf("->", m);
    MatchExpressionOf(arms, layout, u);
    MatchTransformParts(source + ("->" + m), source, "->" + m, m, arms, u);
  }

  // ---------------------------------------------------------------------
  // Mapping expressions, with the colon

  /** `mapping_expression` is the colon token and what follows it. */
  lemma MappingExpressionParts(s: string, s1: string, e: MappingExpression, u: string)
    requires Token(":", s) == Parsed(":", s1)
    requires ParseExpressionAfterColon(s1) == Parsed(e, u)
    ensures ParseMappingExpression(s) == Parsed(e, u)
  {
  }

  /** The colon token of `: ` before text that starts with no space. */
  lemma ColonToken(body: string)
    requires NoLeadingSpace(body)
    ensures Token(":", ":" + (" " + body)) == Parsed(":", body)
  {
    TokenAfter(":", " ", body);
  }

  /** `: alias` after the field name. */
  lemma AliasExpressionOf(a: Name, layout: Layout, u: string)
    requires WellFormedExpression(Alias(a)) && IsSpaces(layout.gap) && EntryDelim(u)
    ensures ParseMappingExpression(PrintExpression(Alias(a), layout) + u) == Parsed(Alias(a), u)
  {
    var body := a + u;
    assert PrintExpression(Alias(a), layout) + u == ":" + (" " + body);
    AliasAfterColon(a, u);
    ColonToken(body);
    MappingExpressionParts(":" + (" " + body), body, Alias(a), u);
  }

  /** `: {$path}` after the field name. */
  lemma NamedArgumentExpressionOf(a: string, layout: Layout, u: string)
    requires WellFormedExpression(NamedArgument(a)) && IsSpaces(layout.gap) && EntryDelim(u)
    ensures ParseMappingExpression(PrintExpression(NamedArgument(a), layout) + u) == Parsed(NamedArgument(a), u)
  {
    var body := "{" + (a + ("}" + u));
    assert PrintExpression(NamedArgument(a), layout) + u == ":" + (" " + body);
    NamedArgAfterColon(a, u);
    ColonToken(body);
    MappingExpressionParts(":" + (" " + body), body, NamedArgument(a), u);
  }

  /** `: a.b.c` after the field name. */
  lemma NamedPathExpressionOf(p: string, layout: Layout, u: string)
    requires WellFormedExpression(NamedPath(p)) && IsSpaces(layout.gap) && EntryDelim(u)
    ensures ParseMappingExpression(PrintExpression(NamedPath(p), layout) + u) == Parsed(NamedPath(p), u)
  {
    var body := p + u;
    assert PrintExpression(NamedPath(p), layout) + u == ":" + (" " + body);
    NamedPathAfterColon(p, u);
    ColonToken(body);
    MappingExpressionParts(":" + (" " + body), body, NamedPath(p), u);
  }

  /** `: source->first` after the field name. */
  lemma TransformExpressionOf(source: string, f: TransformFn, layout: Layout, u: string)
    requires WellFormedExpression(Transform(source, f)) && IsSpaces(layout.gap) && EntryDelim(u)
    ensures ParseMappingExpression(PrintExpression(Transform(source, f), layout) + u) == Parsed(Transform(source, f), u)
  {
    var body := source + ("->" + (TransformFnName(f) + u));
    assert PrintExpression(Transform(source, f), layout) + u == ":" + (" " + body);
    TransformAfterColon(source, f, u);
    ColonToken(body);
    MappingExpressionParts(":" + (" " + body), body, Transform(source, f), u);
  }

  /** The canonical text of a matcher, in the order the parser reads it. */
  lemma MatcherText(source: string, arms: seq<MatchArm>, layout: Layout, u: string)
    requires WellFormedExpression(Matcher(source, arms))
    ensures PrintExpression(Matcher(source, arms), layout) + u
         == ":" + (" " + (source + ("->" + (PrintMatch(arms, layout) + u))))
  {
  }

  /** `: source->match(...)` after the field name. */
  lemma MatcherExpressionOf(source: string, arms: seq<MatchArm>, layout: Layout, u: string)
    requires WellFormedExpression(Matcher(source, arms)) && IsSpaces(layout.gap) && EntryDelim(u)
    ensures ParseMappingExpression(PrintExpression(Matcher(source, arms), layout) + u) == Parsed(Matcher(source, arms), u)
  {
    var body := source + ("->" + (PrintMatch(arms, layout) + u));
    MatcherText(source, arms, layout, u);
    MatcherAfterColon(source, arms, layout, u);
    ColonToken(body);
    MappingExpressionParts(":" + (" " + body), body, Matcher(source, arms), u);
  }

  /** `mapping_expression` reads the canonical text of every expression that
      has one, and leaves what follows. */
  lemma ExpressionOf(e: MappingExpression, layout: Layout, u: string)
    requires WellFormedExpression(e) && !e.Direct? && !e.Nested?
    requires IsSpaces(layout.gap) && EntryDelim(u)
    ensures ParseMappingExpression(PrintExpression(e, layout) + u) == Parsed(e, u)
  {
    match e
    case Alias(a) => AliasExpressionOf(a, layout, u);
    case NamedArgument(a) => NamedArgumentExpressionOf(a, layout, u);
    case NamedPath(p) => NamedPathExpressionOf(p, layout, u);
    case Transform(source, f) => TransformExpressionOf(source, f, layout, u);
    case Matcher(source, arms) => MatcherExpressionOf(source, arms, layout, u);
  }

  /** Without a colon there is no expression: the field is `Direct`. */
  lemma NoExpression(u: string)
    requires EntryDelim(u)
    ensures ParseMappingExpression(u) == Backtrack
  {
    DelimStops(u);
  }
}
