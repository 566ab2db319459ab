/** Behaviour of the selection parser outside the canonical texts: the empty
    input, the failures that abort instead of backtracking, what a bare
    newline does between entries, and where a list ends. */
module Behaviours {
  import opened Wrappers
  import opened Names
  import opened Domain
  import opened Scanners
  import opened Canonical
  import opened Parser
  import opened RoundTrip
  import opened ExpressionRoundTrip
  import opened ListRoundTrip

  /** The empty selection: no entries, and nothing consumed. */
  lemma EmptyInput()
    ensures SelectionParser([]) == Parsed([], [])
  {
    DelimNoEntry([]);
    EmptySelectionParts([]);
  }

  /** An entry whose name is followed by neither `{` nor `:`: `nested_values`
      backtracks and `field_mapping` reads the name with no expression. */
  lemma BareNameParts(s: string, w: string, t: string)
    requires ParseIdentifier(s) == Parsed(w, t) && ParseIdentifier(Multispace0(s)) == Parsed(w, t)
    requires Multispace0(t) == t && Literal("{", t) == Backtrack && ParseMappingExpression(t) == Backtrack
    ensures ParseEntry(s) == match NewName(w)
                             case Some(name) => Parsed(FieldMapping(name, Direct), t)
                             case None => Abort(InvalidFieldName(w))
  {
  }

  /** `identifier` reads a word that neither a space nor a word character follows. */
  lemma BareWord(w: string, t: string)
    requires IsIdentWord(w) && WordEnd(t)
    ensures ParseIdentifier(w + t) == Parsed(w, t)
    ensures Multispace0(w + t) == w + t
  {
    IdentifierAt(w, t);
    assert InClass(Ident, w[0]);
    StartsWith(w[0], w, t);
    Multispace0None(w + t);
  }

  /** A field name that is not a GraphQL name, such as `1abc`, aborts the
      whole parse with `InvalidFieldName` (the source panics) rather than
      ending the list. */
  lemma InvalidFieldNameAborts(w: string, t: string)
    requires IsIdentWord(w) && !IsName(w) && EntryDelim(t)
    ensures SelectionParser(w + t) == Abort(InvalidFieldName(w))
  {
    DelimFacts(t);
    DelimStops(t);
    Multispace0None(t);
    NoExpression(t);
    BareWord(w, t);
    BareNameParts(w + t, w, t);
  }

  /** Only a dotted path reaches `named_path`; a single word falls through to `alias`. */
  lemma WordReference(w: string, t: string)
    requires IsIdentWord(w) && EntryDelim(t)
    ensures IsPath(w) && '.' !in w
    ensures ParseNamedPath(w + t) == Backtrack
    ensures ParseNamedArg(w + t) == Backtrack
  {
    DelimFacts(t);
    assert forall i | 0 <= i < |w| :: PathCharAt(w, i);
    assert InClass(Ident, w[0]);
    NamedPathOf(w, t);
    StartsWith(w[0], w, t);
    LiteralMismatch("{", w + t);
  }

  /** After the colon, an alias that is not a GraphQL name aborts with
      `InvalidAlias` once the four earlier alternatives have backtracked. */
  lemma InvalidAliasAfterColon(w: string, t: string)
    requires IsIdentWord(w) && !IsName(w) && EntryDelim(t)
    ensures ParseExpressionAfterColon(w + t) == Abort(InvalidAlias(w))
    ensures NoLeadingSpace(w + t)
  {
    InvalidAliasReference(w, t);
    PathStops(w, t);
    ReferenceParts(w + t, Abort(InvalidAlias(w)));
  }

  /** Of the last three alternatives, only `alias` reads a single word. */
  lemma InvalidAliasReference(w: string, t: string)
    requires IsIdentWord(w) && !IsName(w) && EntryDelim(t)
    ensures ParseReference(w + t) == Abort(InvalidAlias(w))
  {
    WordReference(w, t);
    BareWord(w, t);
    InvalidAliasParts(w + t, w, t);
  }

  /** `alias` aborts on a word that is not a GraphQL name. */
  lemma InvalidAliasParts(s: string, w: string, u: string)
    requires ParseNamedArg(s) == Backtrack && ParseNamedPath(s) == Backtrack
    requires ParseIdentifier(s) == Parsed(w, u) && !IsName(w)
    ensures ParseReference(s) == Abort(InvalidAlias(w))
  {
  }

  /** `: 1abc` aborts the mapping expression. */
  lemma InvalidAliasAborts(w: string, t: string)
    requires IsIdentWord(w) && !IsName(w) && EntryDelim(t)
    ensures ParseMappingExpression(":" + (" " + (w + t))) == Abort(InvalidAlias(w))
  {
    InvalidAliasAfterColon(w, t);
    ColonToken(w + t);
  }

  /** The transform name is read by `identifier`; one other than `first`
      aborts with `UnknownTransformFn` (the source panics in `From<String>`). */
  lemma UnknownTransformAfterColon(source: string, w: string, t: string)
    requires IsPath(source) && IsIdentWord(w) && w != "first" && EntryDelim(t)
    ensures ParseExpressionAfterColon(source + ("->" + (w + t))) == Abort(UnknownTransformFn(w))
    ensures NoLeadingSpace(source + ("->" + (w + t)))
  {
    var s := source + ("->" + (w + t));
    DelimFacts(t);
    SourceOf(source, w + t);
    LiteralOf("->", w + t);
    BareWord(w, t);
    NoMatchOpening(w, t);
    NoMatchTransform(s, source, "->" + (w + t), w + t);
    TransformFnConversions(w);
    UnknownTransformParts(s, source, "->" + (w + t), w + t, w, t);
  }

  /** A word followed by an entry delimiter does not start `match(`. */
  lemma NoMatchOpening(w: string, t: string)
    requires IsIdentWord(w) && EntryDelim(t)
    ensures ParseMatchExpression(w + t) == Backtrack
  {
    DelimFacts(t);
    assert InClass(Ident, w[0]);
    StartsWith(w[0], w, t);
    Multispace0None(w + t);
    if |w| >= 6 {
      assert (w + t)[5] == w[5];
      assert !InClass(Ident, '(');
    } else if w + t != [] && |w + t| >= 6 {
      assert (w + t)[|w|] == t[0];
    }
    assert !("match(" <= Multispace0(w + t));
    NoMatchKeyword(w + t);
  }

  /** `transform_fn` aborts on a name that does not convert. */
  lemma UnknownTransformParts(s: string, source: string, s1: string, s2: string, w: string, u: string)
    requires ParseSource(s) == Parsed(source, s1)
    requires Literal("->", s1) == Parsed("->", s2)
    requires ParseIdentifier(s2) == Parsed(w, u)
    requires ParseMatchTransform(s) == Backtrack
    requires TransformFnFromString(w) == Err(UnknownTransformFn(w))
    ensures ParseExpressionAfterColon(s) == Abort(UnknownTransformFn(w))
  {
  }

  /** As written, a newline alone does not separate two entries without
      expressions: `identifier` skips the spaces after the first name,
      newline included, so no separator is left and the list ends there. */
  lemma NewlineListStopsAfterFirst(a: Name, b: Name)
    ensures SelectionParser(a + ("\n" + b)) == Parsed([FieldMapping(a, Direct)], b)
  {
    NewlineEntry(a, b);
    NextWordNoSeparator(b);
    SingleEntryParts(a + ("\n" + b), FieldMapping(a, Direct), b, b);
  }

  /** One entry that no further separator and entry follow. */
  lemma SingleEntryParts(s: string, f: FieldMapping, s1: string, t: string)
    requires ParseEntry(s) == Parsed(f, s1)
    requires MoreEntries(s1) == Parsed([], t)
    ensures SelectionParser(s) == Parsed([f], t)
  {
    assert [f] + [] == [f];
  }

  /** The first entry of `a\nb` is `a`, and the newline goes with it. */
  lemma NewlineEntry(a: Name, b: Name)
    ensures ParseEntry(a + ("\n" + b)) == Parsed(FieldMapping(a, Direct), b)
  {
    NameFacts(a);
    NameFacts(b);
    IdentifierBeforeSpace(a, "\n", b);
    StartsWith(a[0], a, "\n" + b);
    Multispace0None(a + ("\n" + b));
    NoBlockNoColon(b);
    BareNameParts(a + ("\n" + b), a, b);
  }

  /** Text that starts with a name opens neither a block nor an expression. */
  lemma NoBlockNoColon(b: string)
    requires b != [] && b[0] != '{' && b[0] != ':' && NoLeadingSpace(b)
    ensures Multispace0(b) == b && Literal("{", b) == Backtrack
    ensures ParseMappingExpression(b) == Backtrack
  {
    NoBlockNoColonToken(b);
  }

  /** The same, one token at a time. */
  lemma NoBlockNoColonToken(b: string)
    requires b != [] && b[0] != '{' && b[0] != ':' && NoLeadingSpace(b)
    ensures Multispace0(b) == b && Literal("{", b) == Backtrack
    ensures Token(":", b) == Backtrack
  {
    Multispace0None(b);
    LiteralMismatch("{", b);
    LiteralMismatch(":", b);
  }

  /** `identifier` stops at a space and skips every space after the word,
      whatever follows them. */
  lemma IdentifierBeforeSpace(w: string, after: string, t: string)
    requires IsIdentWord(w) && after != [] && IsSpaces(after) && NoLeadingSpace(t)
    ensures ParseIdentifier(w + (after + t)) == Parsed(w, t)
  {
    assert InClass(Ident, w[0]);
    StartsWith(w[0], w, after + t);
    Multispace0None(w + (after + t));
    assert InClass(Multispace, after[0]);
    TakeWhile1Of(Ident, w, after + t);
    Multispace0Of(after, t);
  }

  /** A name is not a separator, so the repetition stops before it. */
  lemma NextWordNoSeparator(b: Name)
    ensures MoreEntries(b) == Parsed([], b)
  {
    NameFacts(b);
    LiteralMismatch("\n", b);
    LiteralMismatch("\r\n", b);
    LiteralMismatch(",", b);
    LiteralMismatch(";", b);
    NoSeparatorParts(b);
  }

  /** A separator after the last entry is not consumed: `separated` resets to
      before a separator that no entry follows. */
  lemma TrailingSeparatorLeft(fs: seq<FieldMapping>, layout: Layout, sep: char)
    requires WellFormedFields(fs) && ValidLayout(layout) && (sep == ',' || sep == ';')
    ensures SelectionParser(PrintFields(fs, layout) + [sep]) == Parsed(fs, [sep])
  {
    assert [sep][1..] == [];
    SelectionRoundTrip(fs, layout, [sep]);
  }

  /** `,` and `;` are interchangeable between entries. */
  lemma SeparatorsAgree(fs: seq<FieldMapping>, gap: string, trailingComma: bool, t: string)
    requires WellFormedFields(fs) && IsSpaces(gap) && ListEnd(t)
    ensures SelectionParser(PrintFields(fs, Layout(',', gap, trailingComma)) + t)
         == SelectionParser(PrintFields(fs, Layout(';', gap, trailingComma)) + t)
  {
    SelectionRoundTrip(fs, Layout(',', gap, trailingComma), t);
    SelectionRoundTrip(fs, Layout(';', gap, trailingComma), t);
  }

  /** `: source->second` aborts the mapping expression. */
  lemma UnknownTransformAborts(source: string, w: string, t: string)
    requires IsPath(source) && IsIdentWord(w) && w != "first" && EntryDelim(t)
    ensures ParseMappingExpression(":" + (" " + (source + ("->" + (w + t))))) == Abort(UnknownTransformFn(w))
  {
    UnknownTransformAfterColon(source, w, t);
    ColonToken(source + ("->" + (w + t)));
  }

  /** A `$` right after the colon starts none of the five alternatives. */
  lemma DollarAfterColon(x: string)
    requires x != [] && x[0] == '$'
    ensures ParseExpressionAfterColon(x) == Backtrack
  {
    DollarNoWord(x);
    NoSourceParts(x);
    LiteralMismatch("{", x);
    NoArgumentParts(x);
    NoAliasParts(x);
    NoReferenceParts(x);
    NoAlternativeParts(x);
  }

  /** Neither a path nor an identifier starts at `$`. */
  lemma DollarNoWord(x: string)
    requires x != [] && x[0] == '$'
    ensures ParseSource(x) == Backtrack && ParseIdentifier(x) == Backtrack
    ensures ParseNamedPath(x) == Backtrack
  {
    assert !InClass(Ident, '$') && !InClass(Multispace, '$');
    Multispace0None(x);
  }

  /** Without a source, neither transform applies. */
  lemma NoSourceParts(t: string)
    requires ParseSource(t) == Backtrack
    ensures ParseMatchTransform(t) == Backtrack && ParseTransformFn(t) == Backtrack
  {
  }

  /** `named_arg` backtracks without its opening brace. */
  lemma NoArgumentParts(t: string)
    requires Literal("{", t) == Backtrack
    ensures ParseNamedArg(t) == Backtrack
  {
  }

  /** `alias` backtracks without an identifier. */
  lemma NoAliasParts(t: string)
    requires ParseIdentifier(t) == Backtrack
    ensures ParseAlias(t) == Backtrack
  {
  }

  /** The last three alternatives backtrack when each of them does. */
  lemma NoReferenceParts(t: string)
    requires ParseNamedArg(t) == Backtrack && ParseNamedPath(t) == Backtrack && ParseAlias(t) == Backtrack
    ensures ParseReference(t) == Backtrack
  {
  }

  /** `mapping_expression` after the colon backtracks when all five alternatives do. */
  lemma NoAlternativeParts(t: string)
    requires ParseMatchTransform(t) == Backtrack && ParseTransformFn(t) == Backtrack
    requires ParseReference(t) == Backtrack
    ensures ParseExpressionAfterColon(t) == Backtrack
  {
  }

  /** `: $path` is not a mapping expression: a named argument needs its braces. */
  lemma DollarNotExpression(x: string)
    requires x != [] && x[0] == '$'
    ensures ParseMappingExpression(": " + x) == Backtrack
  {
    assert !InClass(Multispace, x[0]);
    assert ": " + x == ":" + (" " + x);
    ColonToken(x);
    DollarAfterColon(x);
  }

  /** The repetition does not start at a colon. */
  lemma ColonNoSeparator(t: string)
    requires t != [] && t[0] == ':'
    ensures MoreEntries(t) == Parsed([], t)
  {
    LiteralMismatch("\n", t);
    LiteralMismatch("\r\n", t);
    LiteralMismatch(",", t);
    LiteralMismatch(";", t);
    NoSeparatorParts(t);
  }

  /** The entry `name: $path`, without braces around the argument, is read
      as `name` alone: the expression backtracks, `field_mapping` falls back
      to `Direct`, and the list ends before the colon. */
  lemma DollarWithoutBraces(a: Name, x: string)
    requires x != [] && x[0] == '$'
    ensures SelectionParser(a + (": " + x)) == Parsed([FieldMapping(a, Direct)], ": " + x)
  {
    var t := ": " + x;
    DollarEntry(a, x);
    ColonNoSeparator(t);
    SingleEntryParts(a + t, FieldMapping(a, Direct), t, t);
  }

  /** The entry itself: the name, with the default expression. */
  lemma DollarEntry(a: Name, x: string)
    requires x != [] && x[0] == '$'
    ensures ParseEntry(a + (": " + x)) == Parsed(FieldMapping(a, Direct), ": " + x)
  {
    var t := ": " + x;
    DollarEntryFacts(a, x);
    DollarNotExpression(x);
    BareNameParts(a + t, a, t);
  }

  /** What `nested_values` and `field_mapping` see in `name: $path`. */
  lemma DollarEntryFacts(a: Name, x: string)
    requires x != [] && x[0] == '$'
    ensures ParseIdentifier(a + (": " + x)) == Parsed(a, ": " + x)
    ensures Multispace0(a + (": " + x)) == a + (": " + x)
    ensures Multispace0(": " + x) == ": " + x && Literal("{", ": " + x) == Backtrack
  {
    var t := ": " + x;
    NameFacts(a);
    assert t[0] == ':';
    assert !InClass(Ident, ':') && !InClass(Multispace, ':');
    assert WordEnd(t);
    Multispace0None(t);
    LiteralMismatch("{", t);
    IdentifierAt(a, t);
    StartsWith(a[0], a, t);
    Multispace0None(a + t);
  }

  /** A line ending does separate entries after a named argument: its
      closing `}` is not followed by a skip of spaces. */
  lemma LineEndingAfterArgument(a: Name, arg: string, b: Name)
    requires IsArgumentText(arg)
    ensures SelectionParser(a + (": {" + (arg + ("}" + ("\n" + b)))))
         == Parsed([FieldMapping(a, NamedArgument(arg)), FieldMapping(b, Direct)], [])
  {
    var s := a + (": {" + (arg + ("}" + ("\n" + b))));
    var fs := [FieldMapping(a, NamedArgument(arg)), FieldMapping(b, Direct)];
    assert fs[1..] == [FieldMapping(b, Direct)];
    ArgumentEntry(a, arg, "\n" + b);
    NewlineThenName(b);
    SelectionParts(s, "\n" + b, fs, []);
  }

  /** `name: {$path}` is read as one entry, and nothing after the `}` is skipped. */
  lemma ArgumentEntry(a: Name, arg: string, u: string)
    requires IsArgumentText(arg)
    ensures ParseEntry(a + (": {" + (arg + ("}" + u)))) == Parsed(FieldMapping(a, NamedArgument(arg)), u)
  {
    var body := "{" + (arg + ("}" + u));
    ArgumentText(a, arg, u);
    ArgumentEntryFacts(a, body);
    ArgumentMapping(a, arg, u);
    ArgumentEntryParts(a + (": " + body), a, ": " + body, FieldMapping(a, NamedArgument(arg)), u);
  }

  /** An entry without a block is its field mapping, once `nested_values` backtracks. */
  lemma ArgumentEntryParts(s: string, a: string, s1: string, f: FieldMapping, u: string)
    requires Multispace0(s) == s && ParseIdentifier(s) == Parsed(a, s1)
    requires Multispace0(s1) == s1 && Literal("{", s1) == Backtrack
    requires ParseFieldMapping(s) == Parsed(f, u)
    ensures ParseEntry(s) == Parsed(f, u)
  {
    NotNestedParts(s, a, s1);
    EntryFieldParts(s, f, u);
  }

  lemma ArgumentText(a: string, arg: string, u: string)
    ensures a + (": {" + (arg + ("}" + u))) == a + (": " + ("{" + (arg + ("}" + u))))
  {
  }

  lemma ColonSpace(body: string)
    ensures ": " + body == ":" + (" " + body)
  {
  }

  /** `field_mapping` reads `name: {$path}`. */
  lemma ArgumentMapping(a: Name, arg: string, u: string)
    requires IsArgumentText(arg)
    ensures ParseFieldMapping(a + (": " + ("{" + (arg + ("}" + u)))))
         == Parsed(FieldMapping(a, NamedArgument(arg)), u)
  {
    var body := "{" + (arg + ("}" + u));
    ColonSpace(body);
    ArgumentEntryFacts(a, body);
    NamedArgAfterColon(arg, u);
    ColonToken(body);
    MappingExpressionParts(":" + (" " + body), body, NamedArgument(arg), u);
    FieldMappingParts(a + (": " + body), a, ": " + body, NamedArgument(arg), u);
  }

  /** What `identifier` and `nested_values` see in `name: body`. */
  lemma ArgumentEntryFacts(a: Name, body: string)
    ensures ParseIdentifier(a + (": " + body)) == Parsed(a, ": " + body)
    ensures Multispace0(a + (": " + body)) == a + (": " + body)
    ensures Multispace0(": " + body) == ": " + body && Literal("{", ": " + body) == Backtrack
  {
    var t := ": " + body;
    NameFacts(a);
    assert t[0] == ':';
    assert !InClass(Ident, ':') && !InClass(Multispace, ':');
    assert WordEnd(t);
    Multispace0None(t);
    LiteralMismatch("{", t);
    IdentifierAt(a, t);
    StartsWith(a[0], a, t);
    Multispace0None(a + t);
  }

  /** After a line ending, a name is the next entry. */
  lemma NewlineThenName(b: Name)
    ensures MoreEntries("\n" + b) == Parsed([FieldMapping(b, Direct)], [])
  {
    var fs := [FieldMapping(b, Direct)];
    assert fs[1..] == [];
    LiteralOf("\n", b);
    LastDirectEntry(b);
    MoreEnd([]);
    MoreParts("\n" + b, b, [], fs, []);
  }

  /** A name that ends the input is a direct entry. */
  lemma LastDirectEntry(b: Name)
    ensures ParseEntry(b) == Parsed(FieldMapping(b, Direct), [])
  {
    assert [] + (PrintField(FieldMapping(b, Direct), Compact()) + []) == b;
    FieldEntryOf([], FieldMapping(b, Direct), Compact(), []);
  }

  /** A nested block whose name is not a GraphQL name aborts the whole parse
      with `InvalidFieldName`, after its selection has been read. */
  lemma InvalidNestedNameAborts(w: string, fields: seq<FieldMapping>, layout: Layout, u: string)
    requires IsIdentWord(w) && !IsName(w) && WellFormedFields(fields) && ValidLayout(layout)
    ensures SelectionParser(w + (" {" + (PrintFields(fields, layout) + ("}" + u)))) == Abort(InvalidFieldName(w))
  {
    var body := PrintFields(fields, layout) + ("}" + u);
    var s := w + (" " + ("{" + body));
    assert w + (" {" + (PrintFields(fields, layout) + ("}" + u))) == s;
    IdentifierBeforeSpace(w, " ", "{" + body);
    OpenOf(body);
    BlockOf(fields, layout, u);
    CloseOf(u);
    InvalidNestedParts(s, w, "{" + body, body, fields, u);
    assert InClass(Ident, w[0]);
    StartsWith(w[0], w, " " + ("{" + body));
    Multispace0None(s);
    AbortedEntryParts(s, InvalidFieldName(w));
  }

  /** `nested_values` aborts when its name is not a GraphQL name. */
  lemma InvalidNestedParts(t: string, w: string, s1: string, s2: string, fields: seq<FieldMapping>, u: string)
    requires ParseIdentifier(t) == Parsed(w, s1) && !IsName(w)
    requires Multispace0(s1) == s1 && Literal("{", s1) == Parsed("{", s2)
    requires SelectionParser(Multispace0(s2)) == Parsed(fields, "}" + u)
    requires Multispace0("}" + u) == "}" + u && Literal("}", "}" + u) == Parsed("}", u)
    ensures ParseNestedValues(t) == Abort(InvalidFieldName(w))
  {
  }

  /** An entry that aborts aborts the selection. */
  lemma AbortedEntryParts(s: string, e: Failure)
    requires ParseNestedValues(Multispace0(s)) == Abort(e)
    ensures SelectionParser(s) == Abort(e)
  {
  }
}
