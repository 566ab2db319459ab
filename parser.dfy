/** The mapping-language parser: each function models one parser of the
    source, taking the remaining input and returning what it built and the
    input it left. Alternatives are tried in the source's order; a later
    alternative sees the input the earlier one started from. */
module Parser {
  import opened Wrappers
  import opened Names
  import opened Domain
  import opened Scanners
  import opened Canonical

  /** `identifier`: one or more identifier characters, spaces skipped on both sides. */
  function ParseIdentifier(s: string): (r: ParseResult<string>)
    ensures !r.Abort? && Consumes(r, s)
    ensures r.Backtrack? <==> (Multispace0(s) == [] || !InClass(Ident, Multispace0(s)[0]))
    ensures r.Parsed? ==> IsIdentWord(r.value) && (r.rest == [] || !InClass(Multispace, r.rest[0]))
  {
    var m := Multispace0(s);
    var word :- TakeWhile1(Ident, m);
    var rest := Multispace0(word.rest);
    SuffixTrans(rest, word.rest, m);
    SuffixTrans(rest, m, s);
    Parsed(word.value, rest)
  }

  /** `named_arg`: `{$path}`, stored as `$` followed by the path characters. */
  function ParseNamedArg(s: string): (r: ParseResult<MappingExpression>)
    ensures !r.Abort? && Consumes(r, s)
    ensures r.Parsed? ==> r.value.NamedArgument? && IsArgumentText(r.value.argument)
  {
    var open :- Literal("{", s);
    var dollar :- Literal("$", open.rest);
    var path := TakeWhile0(ArgPath, dollar.rest);
    var close :- Literal("}", path.rest);
    SuffixTrans(close.rest, path.rest, dollar.rest);
    SuffixTrans(close.rest, dollar.rest, open.rest);
    SuffixTrans(close.rest, open.rest, s);
    Parsed(NamedArgument(dollar.value + path.value), close.rest)
  }

  /** `separated(1.., take_while(1.., ident), literal('.'))` */
  function PathSegments(s: string): (r: ParseResult<seq<string>>)
    ensures !r.Abort? && Consumes(r, s)
    ensures r.Backtrack? <==> (s == [] || !InClass(Ident, s[0]))
    ensures r.Parsed? ==> |r.value| > 0 && IsSegments(r.value)
  {
    var first :- TakeWhile1(Ident, s);
    var more := MoreSegments(first.rest);
    SuffixTrans(more.rest, first.rest, s);
    ConsSegments(first.value, more.value);
    Parsed([first.value] + more.value, more.rest)
  }

  /** The repetition of `separated`: `.segment` as long as both parts match; a
      dot not followed by a segment is left unconsumed. */
  function MoreSegments(s: string): (r: Step<seq<string>>)
    ensures IsSuffix(r.rest, s)
    ensures IsSegments(r.value)
    decreases |s|
  {
    match Literal(".", s)
    case Parsed(_, afterDot) =>
      (match TakeWhile1(Ident, afterDot)
       case Parsed(segment, rest) =>
         var more := MoreSegments(rest);
         SuffixTrans(more.rest, rest, afterDot);
         SuffixTrans(more.rest, afterDot, s);
         ConsSegments(segment, more.value);
         Step([segment] + more.value, more.rest)
       case _ => Step([], s))
    case _ => Step([], s)
  }

  /** `Vec::join`: the parts with `sep` between each two. */
  function Join(parts: seq<string>, sep: char): string {
    if |parts| == 0 then []
    else if |parts| == 1 then parts[0]
    else parts[0] + [sep] + Join(parts[1..], sep)
  }

  /** Joining identifier segments with dots gives a path, dotted exactly when there are two or more. */
  lemma {:induction false} JoinIsPath(parts: seq<string>)
    requires |parts| > 0 && IsSegments(parts)
    ensures IsPath(Join(parts, '.'))
    ensures '.' in Join(parts, '.') <==> |parts| >= 2
  {
    if |parts| > 1 {
      JoinIsPath(parts[1..]);
      var head, tail := parts[0], Join(parts[1..], '.');
      var p := head + ['.'] + tail;
      assert p == Join(parts, '.');
      assert IsIdentWord(head);
      forall i | 0 <= i < |p|
        ensures PathCharAt(p, i)
      {
        if i < |head| {
          assert p[i] == head[i];
        } else if i == |head| {
          assert PathCharAt(tail, 0);
          assert p[i + 1] == tail[0];
        } else {
          var j := i - |head| - 1;
          assert PathCharAt(tail, j);
          assert p[i] == tail[j];
          if j + 1 < |tail| {
            assert p[i + 1] == tail[j + 1];
          }
        }
      }
      assert p[|head|] == '.';
    } else {
      assert Join(parts, '.') == parts[0];
    }
  }

  /** `named_path_str`: a path of one or more segments, re-joined with `.`. */
  function ParseNamedPathStr(s: string): (r: ParseResult<string>)
    ensures !r.Abort? && Consumes(r, s)
    ensures r.Backtrack? <==> (s == [] || !InClass(Ident, s[0]))
    ensures r.Parsed? ==> IsPath(r.value)
  {
    var segments :- PathSegments(s);
    JoinIsPath(segments.value);
    Parsed(Join(segments.value, '.'), segments.rest)
  }

  /** `named_path`: a path of two or more segments. winnow's `separated(2.., ..)`
      fails when the second segment is missing, which is a maximal
      repetition that found fewer than two. */
  function ParseNamedPath(s: string): (r: ParseResult<MappingExpression>)
    ensures !r.Abort? && Consumes(r, s)
    ensures r.Parsed? ==> r.value.NamedPath? && IsDottedPath(r.value.path)
  {
    var segments :- PathSegments(s);
    if |segments.value| < 2 then Backtrack
    else
      JoinIsPath(segments.value);
      Parsed(NamedPath(Join(segments.value, '.')), segments.rest)
  }

  /** The pattern of a match case: `_` is the wildcard. */
  function CasePattern(content: string): (r: Option<string>)
    ensures r.None? <==> content == "_" || content == []
  {
    if content == "_" || content == [] then None else Some(Trim(content))
  }

  /** `map_match_case`: `[pattern => result]`; neither part may hold a space or `]`. */
  function ParseMapMatchCase(s: string): (r: ParseResult<MatchArm>)
    ensures !r.Abort? && Consumes(r, s)
    ensures r.Parsed? ==> WellFormedArm(r.value)
  {
    var open :- Token("[", s);
    var pair :- ParseCasePair(open.rest);
    var close :- Token("]", pair.rest);
    SuffixTrans(close.rest, pair.rest, open.rest);
    SuffixTrans(close.rest, open.rest, s);
    Parsed(pair.value, close.rest)
  }

  /** The `separated_pair` inside `map_match_case`: the case text, `=>`
      with spaces around it, and the (possibly empty) result text, trimmed. */
  function ParseCasePair(s: string): (r: ParseResult<MatchArm>)
    ensures !r.Abort? && Advances(r, s)
    ensures r.Parsed? ==> WellFormedArm(r.value)
  {
    var pattern :- TakeWhile1(CaseText, s);
    var arrow :- Token("=>", pattern.rest);
    var result := TakeWhile0(CaseText, arrow.rest);
    SuffixTrans(result.rest, arrow.rest, pattern.rest);
    SuffixTrans(result.rest, pattern.rest, s);
    CaseTextTrim(pattern.value);
    CaseTextTrim(result.value);
    Parsed((CasePattern(pattern.value), Trim(result.value)), result.rest)
  }

  /** `separated(0.., map_match_case, ignore_whitespace(literal(',')))` */
  function ParseMatchCases(s: string): (r: Step<seq<MatchArm>>)
    ensures IsSuffix(r.rest, s)
    ensures WellFormedArms(r.value)
  {
    match ParseMapMatchCase(s)
    case Parsed(arm, rest) =>
      var more := MoreMatchCases(rest);
      SuffixTrans(more.rest, rest, s);
      ConsArms(arm, more.value);
      Step([arm] + more.value, more.rest)
    case _ => Step([], s)
  }

  /** The repetition of `separated`: `, case` as long as both parts match; a
      comma not followed by a case is left unconsumed. */
  function MoreMatchCases(s: string): (r: Step<seq<MatchArm>>)
    ensures IsSuffix(r.rest, s)
    ensures WellFormedArms(r.value)
    decreases |s|
  {
    match Token(",", s)
    case Parsed(_, afterComma) =>
      (match ParseMapMatchCase(afterComma)
       case Parsed(arm, rest) =>
         var more := MoreMatchCases(rest);
         SuffixTrans(more.rest, rest, afterComma);
         SuffixTrans(more.rest, afterComma, s);
         ConsArms(arm, more.value);
         Step([arm] + more.value, more.rest)
       case _ => Step([], s))
    case _ => Step([], s)
  }

  /** `match_expression`: `match(@ => {`, the cases, and `})`. */
  function ParseMatchExpression(s: string): (r: ParseResult<seq<MatchArm>>)
    ensures !r.Abort? && Consumes(r, s)
    ensures r.Parsed? ==> WellFormedArms(r.value)
  {
    var open :- MatchOpening(s);
    var cases := MatchCaseList(open.rest);
    var close :- MatchClosing(cases.rest);
    SuffixTrans(close.rest, cases.rest, open.rest);
    SuffixTrans(close.rest, open.rest, s);
    Parsed(cases.value, close.rest)
  }

  /** The opening of `match_expression`: `match(`, `@`, `=>` and `{`, each with
      spaces around it, then an optional line ending. */
  function MatchOpening(s: string): (r: ParseResult<()>)
    ensures !r.Abort? && Consumes(r, s)
  {
    var keyword :- Token("match(", s);
    var at :- Token("@", keyword.rest);
    var arrow :- Token("=>", at.rest);
    var brace :- Token("{", arrow.rest);
    var rest := OptRest(LineEnding(brace.rest), brace.rest);
    SuffixTrans(rest, brace.rest, arrow.rest);
    SuffixTrans(rest, arrow.rest, at.rest);
    SuffixTrans(rest, at.rest, keyword.rest);
    SuffixTrans(rest, keyword.rest, s);
    Parsed((), rest)
  }

  /** The body of `match_expression`: the cases with spaces around them and an
      optional trailing comma. */
  function MatchCaseList(s: string): (r: Step<seq<MatchArm>>)
    ensures IsSuffix(r.rest, s)
    ensures WellFormedArms(r.value)
  {
    var m := Multispace0(s);
    var cases := ParseMatchCases(m);
    var comma := OptRest(Literal(",", cases.rest), cases.rest);
    var rest := Multispace0(comma);
    SuffixTrans(rest, comma, cases.rest);
    SuffixTrans(rest, cases.rest, m);
    SuffixTrans(rest, m, s);
    Step(cases.value, rest)
  }

  /** The closing of `match_expression`: an optional line ending, then `}` and
      `)`, each with spaces around it. */
  function MatchClosing(s: string): (r: ParseResult<()>)
    ensures !r.Abort? && Consumes(r, s)
  {
    var line := OptRest(LineEnding(s), s);
    var close :- CloseBraceParen(line);
    SuffixTrans(close.rest, line, s);
    Parsed((), close.rest)
  }

  /** `}` and `)`, each with spaces around it. */
  function CloseBraceParen(s: string): (r: ParseResult<()>)
    ensures !r.Abort? && Consumes(r, s)
  {
    var brace :- Token("}", s);
    var paren :- Token(")", brace.rest);
    SuffixTrans(paren.rest, brace.rest, s);
    Parsed((), paren.rest)
  }

  /** `alt((named_path_str, identifier))`: the source of a transform or a matcher. */
  function ParseSource(s: string): (r: ParseResult<string>)
    ensures !r.Abort? && Consumes(r, s)
    ensures r.Parsed? ==> IsPath(r.value)
  {
    OrElse(ParseNamedPathStr(s), ParseIdentifier(s))
  }

  /** `match_transform` in `mapping_expression`: `source->match(...)`. */
  function ParseMatchTransform(s: string): (r: ParseResult<MappingExpression>)
    ensures !r.Abort? && Consumes(r, s)
    ensures r.Parsed? ==> r.value.Matcher? && WellFormedExpression(r.value)
  {
    var source :- ParseSource(s);
    var arrow :- Literal("->", source.rest);
    var matchers :- ParseMatchExpression(arrow.rest);
    SuffixTrans(matchers.rest, arrow.rest, source.rest);
    SuffixTrans(matchers.rest, source.rest, s);
    Parsed(Matcher(source.value, matchers.value), matchers.rest)
  }

  /** `transform_fn` in `mapping_expression`: `source->name`; an unknown name aborts. */
  function ParseTransformFn(s: string): (r: ParseResult<MappingExpression>)
    ensures Consumes(r, s)
    ensures r.Parsed? ==> r.value.Transform? && WellFormedExpression(r.value)
    ensures r.Abort? ==> r.failure.UnknownTransformFn?
  {
    var source :- ParseSource(s);
    var arrow :- Literal("->", source.rest);
    var name :- ParseIdentifier(arrow.rest);
    SuffixTrans(name.rest, arrow.rest, source.rest);
    SuffixTrans(name.rest, source.rest, s);
    match TransformFnFromString(name.value)
    case Ok(f) => Parsed(Transform(source.value, f), name.rest)
    case Err(e) => Abort(e)
  }

  /** `alias` in `mapping_expression`: a single identifier, which must be a valid name. */
  function ParseAlias(s: string): (r: ParseResult<MappingExpression>)
    ensures Consumes(r, s)
    ensures r.Parsed? ==> r.value.Alias?
    ensures r.Abort? ==> r.failure.InvalidAlias?
  {
    var alias :- ParseIdentifier(s);
    match NewName(alias.value)
    case Some(name) => Parsed(Alias(name), alias.rest)
    case None => Abort(InvalidAlias(alias.value))
  }

  /** `mapping_expression`: `:` and then the first of match-transform, transform,
      named argument, named path and alias that matches. */
  function ParseMappingExpression(s: string): (r: ParseResult<MappingExpression>)
    ensures Consumes(r, s)
    ensures r.Parsed? ==> WellFormedExpression(r.value) && !r.value.Direct? && !r.value.Nested?
    ensures r.Abort? ==> r.failure.InvalidAlias? || r.failure.UnknownTransformFn?
  {
    var colon :- Token(":", s);
    var r := ParseExpressionAfterColon(colon.rest);
    if r.Parsed? then SuffixTrans(r.rest, colon.rest, s); r else r
  }

  /** The `alt` of `mapping_expression`, after the colon. */
  function ParseExpressionAfterColon(t: string): (r: ParseResult<MappingExpression>)
    ensures Consumes(r, t)
    ensures r.Parsed? ==> WellFormedExpression(r.value) && !r.value.Direct? && !r.value.Nested?
    ensures r.Abort? ==> r.failure.InvalidAlias? || r.failure.UnknownTransformFn?
  {
    match ParseMatchTransform(t)
    case Backtrack =>
      (match ParseTransformFn(t)
       case Backtrack => ParseReference(t)
       case r => r)
    case r => r
  }

  /** The last three alternatives of `mapping_expression`: named argument, named path, alias. */
  function ParseReference(t: string): (r: ParseResult<MappingExpression>)
    ensures Consumes(r, t)
    ensures r.Parsed? ==> WellFormedExpression(r.value) && !r.value.Direct? && !r.value.Nested?
    ensures r.Abort? ==> r.failure.InvalidAlias?
  {
    match ParseNamedArg(t)
    case Backtrack =>
      (match ParseNamedPath(t)
       case Backtrack => ParseAlias(t)
       case r => r)
    case r => r
  }

  /** `field_mapping`: a name and an optional expression, `Direct` when it is absent. */
  function ParseFieldMapping(s: string): (r: ParseResult<FieldMapping>)
    ensures Consumes(r, s)
    ensures r.Backtrack? <==> ParseIdentifier(s).Backtrack?
    ensures r.Parsed? ==> WellFormedField(r.value) && !r.value.expression.Nested?
  {
    var name :- ParseIdentifier(s);
    var expression := ParseMappingExpression(name.rest);
    if expression.Abort? then Abort(expression.failure)
    else
      var e := if expression.Parsed? then expression.value else DefaultExpression();
      var rest := if expression.Parsed? then expression.rest else name.rest;
      SuffixTrans(rest, name.rest, s);
      match NewName(name.value)
      case Some(fieldName) => Parsed(FieldMapping(fieldName, e), rest)
      case None => Abort(InvalidFieldName(name.value))
  }

  /** `nested_values`: `name { selection }`. */
  function ParseNestedValues(s: string): (r: ParseResult<FieldMapping>)
    ensures Consumes(r, s)
    ensures r.Parsed? ==> WellFormedField(r.value) && r.value.expression.Nested?
    decreases |s|, 0
  {
    var name :- ParseIdentifier(s);
    var gap := Multispace0(name.rest);
    var open :- Literal("{", gap);
    var inner := Multispace0(open.rest);
    SuffixTrans(inner, open.rest, gap);
    SuffixTrans(inner, gap, name.rest);
    SuffixTrans(inner, name.rest, s);
    var fields :- SelectionParser(inner);
    var tail := Multispace0(fields.rest);
    var close :- Literal("}", tail);
    SuffixTrans(close.rest, tail, fields.rest);
    SuffixTrans(close.rest, fields.rest, inner);
    SuffixTrans(close.rest, inner, s);
    match NewName(name.value)
    case Some(fieldName) =>
      var e := Nested(fields.value);
      assert WellFormedExpression(e);
      Parsed(FieldMapping(fieldName, e), close.rest)
    case None => Abort(InvalidFieldName(name.value))
  }

  /** One entry of a selection: `alt((ignore_whitespace(nested_values), field_mapping))`. */
  function ParseEntry(s: string): (r: ParseResult<FieldMapping>)
    ensures Consumes(r, s)
    ensures r.Parsed? ==> WellFormedField(r.value)
    decreases |s|, 1
  {
    var t := Multispace0(s);
    match ParseNestedValues(t)
    case Parsed(f, rest) =>
      var after := Multispace0(rest);
      SuffixTrans(after, rest, t);
      SuffixTrans(after, t, s);
      Parsed(f, after)
    case Abort(e) => Abort(e)
    case Backtrack => ParseFieldMapping(s)
  }

  /** The separator between entries: `alt((line_ending, literal(','), literal(';')))`. */
  function ParseSeparator(s: string): (r: ParseResult<string>)
    ensures !r.Abort? && Consumes(r, s)
    ensures r.Parsed? <==> (|s| > 0 && (s[0] == '\n' || s[0] == ',' || s[0] == ';')) || (|s| > 1 && s[..2] == "\r\n")
    ensures r.Parsed? ==> r.value in {"\n", "\r\n", ",", ";"}
    ensures r.Parsed? ==> |r.value| <= |s| && r.value == s[..|r.value|] && r.rest == s[|r.value|..]
  {
    OrElse(LineEnding(s), OrElse(Literal(",", s), Literal(";", s)))
  }

  /** `selection_parser`: zero or more entries, separated. It never backtracks:
      it either aborts or returns the entries it found and the input after them. */
  function SelectionParser(s: string): (r: ParseResult<seq<FieldMapping>>)
    ensures !r.Backtrack?
    ensures Advances(r, s)
    ensures r.Parsed? ==> WellFormedFields(r.value)
    decreases |s|, 2
  {
    match ParseEntry(s)
    case Backtrack => Parsed([], s)
    case Abort(e) => Abort(e)
    case Parsed(first, rest) =>
      var more :- MoreEntries(rest);
      SuffixTrans(more.rest, rest, s);
      ConsFields(first, more.value);
      Parsed([first] + more.value, more.rest)
  }

  /** The repetition of `separated`: a separator and an entry as long as both
      match; a separator not followed by an entry is left unconsumed. */
  function MoreEntries(s: string): (r: ParseResult<seq<FieldMapping>>)
    ensures !r.Backtrack?
    ensures Advances(r, s)
    ensures r.Parsed? ==> WellFormedFields(r.value)
    decreases |s|, 2
  {
    match ParseSeparator(s)
    case Parsed(_, afterSeparator) =>
      (match ParseEntry(afterSeparator)
       case Backtrack => Parsed([], s)
       case Abort(e) => Abort(e)
       case Parsed(entry, rest) =>
         var more :- MoreEntries(rest);
         SuffixTrans(more.rest, rest, afterSeparator);
         SuffixTrans(more.rest, afterSeparator, s);
         ConsFields(entry, more.value);
         Parsed([entry] + more.value, more.rest))
    case _ => Parsed([], s)
  }
}
