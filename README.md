# Selection parser for `@connect`

This project models the parser of the selection mini-language of the
`@connect` directive, and the AST it builds. A selection is a list of field
mappings. Each mapping names a GraphQL field and says how to get its value:

- directly (`name`);
- by alias (`id: account_number`);
- from a named argument (`bank: {$args.bank}`);
- from a dotted path (`bank: data.result.bank`);
- through a transform function (`bank: data.result.banks->first`);
- through a matcher (`status: status->match(@ => { [1 => online], [_ => offline] })`);
- from a nested block of mappings (`variants { name, price }`).

Every winnow parser in `src/selection/parser.rs` is a total function from
the remaining input to a `ParseResult`:

- `Parsed(value, rest)` when the parser succeeds;
- `Backtrack` for winnow's recoverable error, which `alt`, `opt` and
  `separated` catch;
- `Abort(failure)` for each place where the source panics: a field name or
  alias that `Name::new` rejects, and a transform name other than `first`.
  An abort ends the whole parse.

The AST of `src/selection/domain.rs` is a set of datatypes. `into_alias`, the
`Default` of `MappingExpression` and the `From` conversions are functions.

The parser's partner is a canonical printer (module `Canonical`). It writes
every well-formed selection in a family of layouts: separator `,` or `;`,
any run of spaces and line breaks before each entry, and an optional
trailing comma in match expressions. Two facts tie the parser to the
printer:

- **Soundness.** Every `Parse*` function's contract states that what it
  builds is well formed and that what it leaves is a suffix of its input.
- **Completeness.** `ListRoundTrip.SelectionRoundTrip` proves that parsing
  the printed text of any well-formed selection, followed by anything that
  ends a list, gives back exactly that selection and leaves the rest. This
  covers nested blocks at any depth.

So the selections the parser can produce are exactly the well-formed ones.

Module layout:

| file | module | contents |
|---|---|---|
| `wrappers.dfy` | `Wrappers` | `Option`, `Result` |
| `names.dfy` | `Names` | GraphQL `Name` (section 2.1.9 of the GraphQL specification, October 2021) and `Name::new` |
| `domain.dfy` | `Domain` | the AST of `domain.rs` and its functions |
| `scanners.dfy` | `Scanners` | the winnow primitives the parser uses (`literal`, `take_while`, `multispace0`, `line_ending`, `ignore_whitespace`) |
| `parser.dfy` | `Parser` | every parser of `parser.rs` |
| `canonical.dfy` | `Canonical` | well-formedness and the printer |
| `round_trip.dfy` | `RoundTrip` | identifiers, paths, match cases and match expressions read back |
| `expression_round_trip.dfy` | `ExpressionRoundTrip` | mapping expressions read back |
| `list_round_trip.dfy` | `ListRoundTrip` | entries, nested blocks and whole selections read back |
| `behaviours.dfy` | `Behaviours` | the empty input, aborts, separators, where a list ends |
| `source_examples.dfy` | `SourceExamples` | the unit tests of `parser.rs` as lemmas |

Behaviour worth knowing, of the code as written:

- `identifier` skips the whitespace after a word, newlines included. So in
  `a\nb` the newline is gone before the separator is tried, and the list
  stops after `a` (`Behaviours.NewlineListStopsAfterFirst`). Nested blocks
  and match expressions also skip the whitespace after them. A line ending
  can separate entries only after a named argument (`{$args.bank}`) or a
  named path, whose parsers do not skip trailing whitespace: `a: {$x}\nb`
  gives two entries (`Behaviours.LineEndingAfterArgument`,
  `SourceExamples.ArgumentThenLine`).
- The doc comment of `selection_parser` (`parser.rs:189`) shows
  `bank: $args.bank`. The grammar needs braces there (`{$args.bank}`).
  Without them the entry is read as `bank` alone and the list ends before
  the colon (`Behaviours.DollarWithoutBraces`, `SourceExamples.DocArgumentEntry`).
- A field name or an alias made of identifier characters that is not a
  GraphQL name, such as `1abc`, aborts the parse. It does not end the list.
- A separator after the last entry is not consumed.
- `nested_values` builds only `Nested`; `AliasNested` arises only from
  `into_alias`. Nesting depth is not limited.

## Model

| member | source | states |
|---|---|---|
| Names.NewName | src/selection/parser.rs:158-159 | `Name::new` accepts exactly the GraphQL names and keeps the text |
| Domain.DefaultExpression | src/selection/domain.rs:35-39 | the default expression is `Direct` |
| Domain.IntoAlias | src/selection/domain.rs:68-76 | the result is never `Direct` or `Nested`; it differs from the input only for `Direct` or `Nested`; a nested block keeps its fields under `AliasNested` |
| Domain.IntoAliasTwice | src/selection/domain.rs:68-76 | aliasing twice equals aliasing once with the first source |
| Domain.TransformFnFromStr | src/selection/domain.rs:85-93 | an accepted name is the spelling of the function returned; any other name is the failure that stands for the panic |
| Domain.TransformFnFromString | src/selection/domain.rs:95-103 | the same for `From<String>` |
| Domain.TransformFnConversions | src/selection/domain.rs:85-103 | both conversions agree on every string and accept exactly `first` |
| Domain.TransformFnRoundTrip | src/selection/domain.rs:80-93 | the spelling of each transform function converts back to it |
| Domain.SelectionFieldsFrom | src/selection/domain.rs:105-109 | the fields are kept, in order, with the same length |
| Parser.ParseIdentifier | src/selection/parser.rs:21-28 | never aborts; fails exactly when no identifier character follows the leading whitespace; reads an identifier word and leaves no leading whitespace |
| Parser.ParseNamedArg | src/selection/parser.rs:30-44 | never aborts; a result is a `NamedArgument` whose text is `$` followed by path characters |
| Parser.PathSegments | src/selection/parser.rs:49-53 | fails exactly when no identifier character starts the input; otherwise one or more identifier words |
| Parser.MoreSegments | src/selection/parser.rs:49-53 | the repetition inside `separated`: leaves a suffix of its input, and every segment read is an identifier word |
| Parser.JoinIsPath | src/selection/parser.rs:55 | joining segments with dots (`Parser.Join`, which is `Vec::join`) gives a path, dotted exactly when there are two or more segments |
| Parser.ParseNamedPathStr | src/selection/parser.rs:46-57 | fails exactly when no identifier character starts the input; a result is a path |
| Parser.ParseNamedPath | src/selection/parser.rs:59-70 | never aborts; a result is a `NamedPath` with at least one dot |
| Parser.CasePattern | src/selection/parser.rs:78-84 | the pattern is `None` exactly for `_` or empty text |
| Parser.ParseMapMatchCase | src/selection/parser.rs:72-94 | never aborts; a case read is well formed |
| Parser.ParseCasePair | src/selection/parser.rs:77-89 | never aborts and leaves a suffix of its input; the pair is well formed |
| Parser.ParseMatchCases | src/selection/parser.rs:108 | leaves a suffix of its input; every case is well formed |
| Parser.MoreMatchCases | src/selection/parser.rs:108 | the repetition after the first case: leaves a suffix of its input; every case is well formed |
| Parser.MatchOpening | src/selection/parser.rs:100-106 | `match(`, `@`, `=>`, `{` and an optional line ending: never aborts; an opening read consumes input |
| Parser.MatchCaseList | src/selection/parser.rs:107-110 | the cases with an optional trailing comma: leaves a suffix of its input; every case is well formed |
| Parser.MatchClosing | src/selection/parser.rs:111-115 | an optional line ending, `}` and `)`: never aborts; a closing read consumes input |
| Parser.CloseBraceParen | src/selection/parser.rs:113-114 | `}` then `)`: never aborts; consumes input when it succeeds |
| Parser.ParseMatchExpression | src/selection/parser.rs:96-119 | never aborts; the cases are well formed |
| Parser.ParseSource | src/selection/parser.rs:123 | never aborts; a source read is a path |
| Parser.ParseMatchTransform | src/selection/parser.rs:122-127 | never aborts; a result is a well-formed `Matcher` |
| Parser.ParseTransformFn | src/selection/parser.rs:136-140 | a result is a well-formed `Transform`; the only abort is an unknown transform name |
| Parser.ParseAlias | src/selection/parser.rs:129-134 | a result is an `Alias`; the only abort is an invalid alias |
| Parser.ParseMappingExpression | src/selection/parser.rs:121-150 | a result is well formed and neither `Direct` nor `Nested`; the only aborts are an invalid alias or an unknown transform |
| Parser.ParseExpressionAfterColon | src/selection/parser.rs:146 | the same guarantees for the five alternatives after the colon |
| Parser.ParseReference | src/selection/parser.rs:146 | the same for named argument, named path and alias; the only abort is an invalid alias |
| Parser.ParseFieldMapping | src/selection/parser.rs:152-163 | fails exactly when `identifier` fails; a result is well formed and not `Nested` |
| Parser.ParseNestedValues | src/selection/parser.rs:165-181 | a result is a well-formed `Nested` mapping; the abort on a name that is not a GraphQL name is stated by `Behaviours.InvalidNestedNameAborts` |
| Parser.ParseEntry | src/selection/parser.rs:209 | a result is well formed |
| Parser.ParseSeparator | src/selection/parser.rs:210 | never aborts; succeeds exactly when the input starts with `\n`, `\r\n`, `,` or `;`; reads that separator and leaves the rest |
| Parser.SelectionParser | src/selection/parser.rs:206-213 | never backtracks; leaves a suffix of its input; the mappings are well formed |
| Parser.MoreEntries | src/selection/parser.rs:207-211 | the same for the repetition after the first entry |
| RoundTrip.IdentifierOf | src/selection/parser.rs:21-28 | a word with whitespace on both sides is read as the word, and the whitespace is skipped |
| RoundTrip.NamedPathStrOf | src/selection/parser.rs:46-57 | any path is read back as itself |
| RoundTrip.NamedPathOf | src/selection/parser.rs:59-70 | a dotted path is read back; a single word backtracks |
| RoundTrip.MatchCaseOf | src/selection/parser.rs:72-94 | a printed case is read back, `_` as `None` |
| RoundTrip.SpacedCasePair | src/selection/parser.rs:77-89 | with spaces around `=>`, the pattern and the result are each read up to the first space |
| RoundTrip.SpacedMatchCase | src/selection/parser.rs:72-94 | spaces after `[`, around `=>` and before `]` are skipped, and the case is read |
| RoundTrip.MoreArmsOf | src/selection/parser.rs:108 | the cases after the first are read back, in order; a comma not followed by a case is left |
| RoundTrip.ArmsOf | src/selection/parser.rs:108 | a printed list of cases is read back in declared order |
| RoundTrip.MatchExpressionOf | src/selection/parser.rs:96-119 | a printed match expression, with or without a trailing comma, is read back |
| ExpressionRoundTrip.NamedArgOf | src/selection/parser.rs:30-44 | `{$path}` is read back as `$path` |
| ExpressionRoundTrip.AliasAfterColon | src/selection/parser.rs:129-134 | a name after the colon is an alias, once the four earlier alternatives have backtracked |
| ExpressionRoundTrip.NamedArgAfterColon | src/selection/parser.rs:146 | `{$path}` after the colon is a named argument |
| ExpressionRoundTrip.NamedPathAfterColon | src/selection/parser.rs:146 | a dotted path after the colon is a named path, not an alias |
| ExpressionRoundTrip.TransformAfterColon | src/selection/parser.rs:136-140 | `source->first` is a transform, whether the source is a path or a word |
| ExpressionRoundTrip.MatcherAfterColon | src/selection/parser.rs:122-127 | `source->match(...)` is a matcher, tried before the transform |
| ExpressionRoundTrip.TransformNameFacts | src/selection/parser.rs:136-140 | a transform name is read by `identifier`, converts back, and is not a match expression |
| ExpressionRoundTrip.ExpressionOf | src/selection/parser.rs:121-150 | every printed expression other than `Direct` and `Nested` is read back after the colon |
| ExpressionRoundTrip.NoExpression | src/selection/parser.rs:144-147 | with no colon before the end of an entry, the mapping expression backtracks |
| ListRoundTrip.IdentifierAfterSpaces | src/selection/parser.rs:209 | skipping whitespace first does not change whether an identifier is found |
| ListRoundTrip.EntryBacktracks | src/selection/parser.rs:209 | an entry is missing exactly when no identifier follows |
| ListRoundTrip.FieldMappingOf | src/selection/parser.rs:152-163 | a printed non-nested mapping is read back, with `Direct` when there is no expression |
| ListRoundTrip.FieldEntryOf | src/selection/parser.rs:209 | a non-nested entry is read back after `nested_values` backtracks |
| ListRoundTrip.NestedValuesOf | src/selection/parser.rs:165-181 | a printed nested block is read back |
| ListRoundTrip.EntryOf | src/selection/parser.rs:209 | every printed entry, nested or not, is read back |
| ListRoundTrip.BlockOf | src/selection/parser.rs:171 | the selection inside braces is read back up to the closing brace |
| ListRoundTrip.MoreOf | src/selection/parser.rs:207-211 | separators and the entries after them are read back; a trailing separator is left |
| ListRoundTrip.SelectionRoundTrip | src/selection/parser.rs:206-213 | any well-formed selection, printed with `,` or `;`, is read back exactly, and what follows it is left |
| Behaviours.EmptyInput | src/selection/parser.rs:207-208 | the empty input gives the empty selection |
| Behaviours.BareWord | src/selection/parser.rs:21-28 | a word that no whitespace follows is read as itself |
| Behaviours.InvalidFieldNameAborts | src/selection/parser.rs:157-159 | an identifier that is not a GraphQL name aborts the whole parse |
| Behaviours.WordReference | src/selection/parser.rs:59-70 | a single word is not a named path or a named argument |
| Behaviours.InvalidAliasAfterColon | src/selection/parser.rs:129-134 | an alias that is not a GraphQL name aborts after the colon |
| Behaviours.InvalidAliasReference | src/selection/parser.rs:129-134 | of the last three alternatives, `alias` reads the word and aborts |
| Behaviours.InvalidAliasAborts | src/selection/parser.rs:129-134 | `: 1abc` aborts the mapping expression with `InvalidAlias` |
| Behaviours.UnknownTransformAfterColon | src/selection/parser.rs:136-140 | a transform name other than `first` aborts after the colon |
| Behaviours.UnknownTransformAborts | src/selection/domain.rs:95-103 | `: source->second` aborts the mapping expression with `UnknownTransformFn` |
| Behaviours.NoMatchOpening | src/selection/parser.rs:101 | a word followed by the end of an entry does not begin `match(` |
| Behaviours.NewlineEntry | src/selection/parser.rs:209 | in `a\nb` the first entry is `a`, and the newline is consumed with it |
| Behaviours.NewlineListStopsAfterFirst | src/selection/parser.rs:206-213 | `a\nb` parses to `[a]` and leaves `b` |
| Behaviours.NoBlockNoColon | src/selection/parser.rs:155 | text that starts with a name opens neither a block nor an expression |
| Behaviours.IdentifierBeforeSpace | src/selection/parser.rs:24 | `identifier` skips every whitespace character after the word, line breaks included |
| Behaviours.NextWordNoSeparator | src/selection/parser.rs:210 | a name is not a separator, so the list ends before it |
| Behaviours.TrailingSeparatorLeft | src/selection/parser.rs:207-211 | a trailing `,` or `;` is not consumed |
| Behaviours.SeparatorsAgree | src/selection/parser.rs:210 | `,` and `;` give the same result |
| Behaviours.DollarAfterColon | src/selection/parser.rs:146 | a `$` after the colon starts none of the five alternatives |
| Behaviours.DollarNotExpression | src/selection/parser.rs:30-44 | `: $path` without braces is not a mapping expression |
| Behaviours.ColonNoSeparator | src/selection/parser.rs:210 | a colon is not a separator |
| Behaviours.DollarEntry | src/selection/parser.rs:152-163 | in `name: $path` the entry is `name` with the default expression, and the colon is left |
| Behaviours.DollarWithoutBraces | src/selection/parser.rs:186-189 | `name: $path` is read as `name` alone, and the list ends before the colon |
| Behaviours.ArgumentMapping | src/selection/parser.rs:152-163 | `field_mapping` reads `name: {$path}` and stops right after `}` |
| Behaviours.ArgumentEntry | src/selection/parser.rs:30-44 | `name: {$path}` is one entry, and nothing after `}` is skipped |
| Behaviours.LastDirectEntry | src/selection/parser.rs:209 | a name that ends the input is a `Direct` entry |
| Behaviours.NewlineThenName | src/selection/parser.rs:210-211 | after a line ending, a name is read as the next entry |
| Behaviours.LineEndingAfterArgument | src/selection/parser.rs:206-213 | `a: {$x}\nb` gives the two entries `a: {$x}` and `b`: a line ending separates entries after a named argument |
| Behaviours.InvalidNestedNameAborts | src/selection/parser.rs:175-177 | `w { ... }` with an identifier `w` that is not a GraphQL name aborts the whole parse with `InvalidFieldName(w)` |
| SourceExamples.SingleEntry | src/selection/parser.rs:206-213 | one printed entry that is the whole input is read back with nothing left |
| SourceExamples.DirectEntry | src/selection/parser.rs:152-163 | a bare name is `Direct` |
| SourceExamples.AliasEntry | src/selection/parser.rs:129-134 | `name: alias` is an alias |
| SourceExamples.NamedArgumentEntry | src/selection/parser.rs:30-44 | `name: {$path}` is a named argument |
| SourceExamples.NamedPathEntry | src/selection/parser.rs:59-70 | `name: a.b` is a named path |
| SourceExamples.TransformEntry | src/selection/parser.rs:136-140 | `name: source->first` is a transform |
| SourceExamples.NestedPairEntry | src/selection/parser.rs:165-181 | `name { a, b }` is a nested block of two direct fields |
| SourceExamples.DirectField | src/selection/parser.rs:221-232 | `name` gives `[name: Direct]` |
| SourceExamples.AliasField | src/selection/parser.rs:234-245 | `id: account_number` gives an alias |
| SourceExamples.OnlineCase | src/selection/parser.rs:247-252 | `[1 => online]` gives `(Some("1"), "online")` |
| SourceExamples.OfflineCase | src/selection/parser.rs:253-256 | `[0 => offline ]` gives `(Some("0"), "offline")` |
| SourceExamples.SuspendedCase | src/selection/parser.rs:257-260 | `[ _ =>  suspended]` gives `(None, "suspended")` |
| SourceExamples.StatusMatcher | src/selection/parser.rs:303-328 | `status: status->match(@ => {[1 => "online"],[0 => "offline"],[_ => "suspended"]})` gives one `Matcher` on `status` with the three cases in order, quotes kept in the results |
| SourceExamples.ArgumentThenLine | src/selection/parser.rs:206-213 | `bank: {$args.bank}\nname` gives the named argument and then `name` |
| SourceExamples.NamedArgumentField | src/selection/parser.rs:330-341 | `bank: {$args.bank}` gives a named argument `$args.bank` |
| SourceExamples.NamedPathField | src/selection/parser.rs:343-354 | `bank: data.result.bank` gives a named path |
| SourceExamples.TransformWithPath | src/selection/parser.rs:356-370 | `bank: data.result.banks->first` gives a transform of a path |
| SourceExamples.TransformWithoutPath | src/selection/parser.rs:372-386 | `bank: banks->first` gives a transform of a word |
| SourceExamples.SimpleNested | src/selection/parser.rs:443-471 | `variants { name, price }`, with line breaks, gives a nested block |
| SourceExamples.DocArgumentEntry | src/selection/parser.rs:186-189 | `bank: $args.bank` gives `[bank: Direct]` and leaves `: $args.bank` |

## Left out

- `src/selection/serde.rs`, `src/verify/` and the examples are not part of this model.
- Unicode character classes: `char::is_alphanumeric` is modelled as ASCII letters and digits. `char::is_whitespace`, used by match cases and `trim`, is modelled as the list of White_Space characters.
- The panics themselves: each one is an `Abort` result that ends the parse. Unwinding and the panic messages are not modelled.
- winnow's error values (`ContextError`) and `trace`: a backtrack carries no message, and tracing has no effect on the result.
- SelectionRoundTrip: the printer writes one run of whitespace before every entry, and separates entries with `,` or `;`. Inputs with different indentation per entry are covered by the soundness contracts only. So are inputs with whitespace before a closing brace, a match expression broken over lines, or a line ending as the only separator. A line ending separates entries after a named argument or a named path (`Behaviours.LineEndingAfterArgument`), but not after a bare word, a nested block or a match expression, which skip it (`Behaviours.NewlineListStopsAfterFirst`); the printer never writes it.
- SourceExamples.SimpleNested: stated with the same indentation before every entry and no spaces before the closing brace. The test's own text indents the block's entries deeper and puts spaces and a line break before `}`.
- The tests `multiple_match_cases`, `simple_match_exp`, `multiline` and `multi_nested_values` are not stated as lemmas. Their inputs break match expressions over lines or indent entries unevenly, which the printer does not produce.
- SourceExamples.StatusMatcher: `field_with_match_expression` is stated with its cases on one line and no trailing comma. The test's own text breaks the match expression over lines and ends the cases with a comma. Their kinds of entry are covered by the round-trip lemmas.
