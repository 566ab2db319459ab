/** The selections the mapping language can express, and the canonical text of
    each. This is the reference the parser is checked against: the parser
    builds only well-formed selections, and reading back the canonical text of
    a well-formed selection gives that selection again. */
module Canonical {
  import opened Wrappers
  import opened Names
  import opened Domain
  import opened Scanners

  /** One or more identifier characters, as `take_while(1.., ..)` captures them. */
  predicate IsIdentWord(w: string) {
    |w| > 0 && forall i | 0 <= i < |w| :: InClass(Ident, w[i])
  }

  /** The segments of a path, each an identifier word. */
  predicate IsSegments(parts: seq<string>) {
    forall i | 0 <= i < |parts| :: IsIdentWord(parts[i])
  }

  lemma ConsSegments(w: string, parts: seq<string>)
    requires IsIdentWord(w) && IsSegments(parts)
    ensures IsSegments([w] + parts)
  {
    assert forall i | 1 <= i < |parts| + 1 :: ([w] + parts)[i] == parts[i - 1];
  }

  /** Identifier segments joined by single dots: `data.result.banks`, or just `banks`. */
  predicate IsPath(p: string) {
    && |p| > 0
    && p[0] != '.'
    && forall i | 0 <= i < |p| :: PathCharAt(p, i)
  }

  /** The character at `i` is an identifier character, or a dot followed by one. */
  predicate PathCharAt(p: string, i: nat)
    requires i < |p|
  {
    InClass(Ident, p[i]) || (p[i] == '.' && i + 1 < |p| && InClass(Ident, p[i + 1]))
  }

  /** A path of two or more segments, the text of a `NamedPath`. */
  predicate IsDottedPath(p: string) {
    IsPath(p) && '.' in p
  }

  /** `$` followed by path characters, the text of a `NamedArgument`. */
  predicate IsArgumentText(a: string) {
    |a| > 0 && a[0] == '$' && forall i | 1 <= i < |a| :: InClass(ArgPath, a[i])
  }

  predicate IsCaseText(x: string) {
    forall i | 0 <= i < |x| :: InClass(CaseText, x[i])
  }

  /** A pattern is `None` (the wildcard) or a non-empty literal other than `_`. */
  predicate WellFormedArm(arm: MatchArm) {
    && IsCaseText(arm.1)
    && match arm.0
       case None => true
       case Some(p) => |p| > 0 && IsCaseText(p) && p != "_"
  }

  predicate WellFormedArms(arms: seq<MatchArm>) {
    forall i | 0 <= i < |arms| :: WellFormedArm(arms[i])
  }

  /** The expressions the grammar can produce; `AliasNested` has no surface syntax. */
  predicate WellFormedExpression(e: MappingExpression) {
    match e
    case Direct => true
    case Alias(_) => true
    case NamedArgument(a) => IsArgumentText(a)
    case NamedPath(p) => IsDottedPath(p)
    case Transform(source, _) => IsPath(source)
    case Matcher(source, arms) => IsPath(source) && WellFormedArms(arms)
    case Nested(fields) => WellFormedFields(fields)
    case AliasNested(_, _) => false
  }

  predicate WellFormedField(f: FieldMapping) {
    WellFormedExpression(f.expression)
  }

  predicate WellFormedFields(fields: seq<FieldMapping>) {
    forall i | 0 <= i < |fields| :: WellFormedField(fields[i])
  }

  /** Case text has no White_Space, so trimming leaves it as it is. */
  lemma CaseTextTrim(x: string)
    requires IsCaseText(x)
    ensures Trim(x) == x
  {
    assert forall i | 0 <= i < |x| :: !InClass(White, x[i]) by {
      forall i | 0 <= i < |x|
        ensures !InClass(White, x[i])
      {
        assert InClass(CaseText, x[i]);
      }
    }
  }

  lemma ConsArms(arm: MatchArm, arms: seq<MatchArm>)
    requires WellFormedArm(arm) && WellFormedArms(arms)
    ensures WellFormedArms([arm] + arms)
  {
    assert forall i | 1 <= i < |arms| + 1 :: ([arm] + arms)[i] == arms[i - 1];
  }

  lemma ConsFields(f: FieldMapping, fields: seq<FieldMapping>)
    requires WellFormedField(f) && WellFormedFields(fields)
    ensures WellFormedFields([f] + fields)
  {
    assert forall i | 1 <= i < |fields| + 1 :: ([f] + fields)[i] == fields[i - 1];
  }

  /** How the printer lays out a selection: the separator between entries
      (`,` or `;`), the spaces and line breaks after each separator and before
      the first entry, and whether the last match case has a trailing comma. */
  datatype Layout = Layout(sep: char, gap: string, trailingComma: bool)

  predicate ValidLayout(layout: Layout) {
    && (layout.sep == ',' || layout.sep == ';')
    && IsSpaces(layout.gap)
  }

  /** One entry in the compact layout: no spaces before the field. */
  function Compact(): Layout {
    Layout(',', "", false)
  }

  /** A selection: each entry preceded by the gap, entries separated by the separator. */
  function PrintFields(fields: seq<FieldMapping>, layout: Layout): string
    requires WellFormedFields(fields)
  {
    if fields == [] then [] else layout.gap + PrintField(fields[0], layout) + PrintMore(fields[1..], layout)
  }

  /** Each of `fields` preceded by the separator and the gap. */
  function PrintMore(fields: seq<FieldMapping>, layout: Layout): string
    requires WellFormedFields(fields)
  {
    if fields == [] then [] else [layout.sep] + layout.gap + PrintField(fields[0], layout) + PrintMore(fields[1..], layout)
  }

  function PrintField(f: FieldMapping, layout: Layout): string
    requires WellFormedField(f)
  {
    f.fieldName + PrintExpression(f.expression, layout)
  }

  function PrintExpression(e: MappingExpression, layout: Layout): string
    requires WellFormedExpression(e)
  {
    match e
    case Direct => []
    case Alias(alias) => ": " + alias
    case NamedArgument(a) => ": {" + a + "}"
    case NamedPath(p) => ": " + p
    case Transform(source, f) => ": " + source + "->" + TransformFnName(f)
    case Matcher(source, arms) => ": " + source + "->" + PrintMatch(arms, layout)
    case Nested(fields) => " {" + PrintFields(fields, layout) + "}"
  }

  /** A match expression: its cases after the gap, and a trailing comma if the layout asks for one. */
  function PrintMatch(arms: seq<MatchArm>, layout: Layout): string
    requires WellFormedArms(arms)
  {
    "match(@ => {" + layout.gap + PrintArms(arms, layout.gap) + TrailingComma(layout) + "})"
  }

  function TrailingComma(layout: Layout): string {
    if layout.trailingComma then "," else ""
  }

  /** Match cases separated by `,` and the gap. */
  function PrintArms(arms: seq<MatchArm>, gap: string): string
    requires WellFormedArms(arms)
  {
    if arms == [] then [] else PrintArm(arms[0]) + PrintMoreArms(arms[1..], gap)
  }

  function PrintMoreArms(arms: seq<MatchArm>, gap: string): string
    requires WellFormedArms(arms)
  {
    if arms == [] then [] else "," + gap + PrintArm(arms[0]) + PrintMoreArms(arms[1..], gap)
  }

  function PrintArm(arm: MatchArm): string
    requires WellFormedArm(arm)
  {
    "[" + PrintPattern(arm.0) + " => " + arm.1 + "]"
  }

  function PrintPattern(pattern: Option<string>): string {
    match pattern
    case None => "_"
    case Some(p) => p
  }
}
