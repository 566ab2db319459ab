/** The AST the selection parser builds: a selection is an ordered list of
    field mappings, each naming a target field and how its value is derived. */
module Domain {
  import opened Wrappers
  import opened Names

  /** Named transform functions; today only "take the first element of an array". */
  datatype TransformFn = First

  /** One match case: the pattern (`None` for the wildcard `_`) and the result text. */
  type MatchArm = (Option<string>, string)

  datatype MappingExpression =
    | Direct
    | Alias(alias: Name)
    | NamedArgument(argument: string)
    | NamedPath(path: string)
    | Transform(source: string, transform: TransformFn)
    | Matcher(source: string, matchers: seq<MatchArm>)
    | Nested(fields: seq<FieldMapping>)
    | AliasNested(aliasSource: Name, fields: seq<FieldMapping>)

  datatype FieldMapping = FieldMapping(fieldName: Name, expression: MappingExpression)

  datatype SelectionFields = SelectionFields(fields: seq<FieldMapping>)

  /** The conditions under which the source aborts (panics) while building the AST. */
  datatype Failure =
    | InvalidFieldName(name: string)
    | InvalidAlias(alias: string)
    | UnknownTransformFn(fnName: string)

  /** `#[default]` on `MappingExpression`: a field with no expression reads its own name. */
  function DefaultExpression(): (r: MappingExpression)
    ensures r.Direct?
  {
    Direct
  }

  /** `into_alias`: compose a rename of the source field with an expression. */
  function IntoAlias(e: MappingExpression, source: Name): (r: MappingExpression)
    ensures !r.Direct? && !r.Nested?
    ensures r != e ==> e.Direct? || e.Nested?
    ensures (e.Nested? || e.AliasNested?) ==> r.AliasNested? && r.fields == e.fields
  {
    match e
    case Direct => Alias(source)
    case Nested(fields) => AliasNested(source, fields)
    case _ => e
  }

  /** The spelling of each transform function in the mapping language. */
  function TransformFnName(f: TransformFn): string {
    match f
    case First => "first"
  }

  /** `impl From<&str> for TransformFn`; the panic on an unknown name is an `Err`. */
  function TransformFnFromStr(value: string): (r: Result<TransformFn, Failure>)
    ensures r.Ok? ==> TransformFnName(r.value) == value
    ensures r.Err? ==> r.error == UnknownTransformFn(value)
  {
    match value
    case "first" => Ok(First)
    case other => Err(UnknownTransformFn(other))
  }

  /** `impl From<String> for TransformFn`, which matches on the whole slice `&value[..]`. */
  function TransformFnFromString(value: string): (r: Result<TransformFn, Failure>)
    ensures r.Ok? ==> TransformFnName(r.value) == value
    ensures r.Err? ==> r.error == UnknownTransformFn(value)
  {
    match value[..]
    case "first" => Ok(First)
    case other => Err(UnknownTransformFn(other))
  }

  /** `impl From<Vec<FieldMapping>> for SelectionFields`. */
  function SelectionFieldsFrom(fields: seq<FieldMapping>): (r: SelectionFields)
    ensures |r.fields| == |fields|
    ensures forall i | 0 <= i < |fields| :: r.fields[i] == fields[i]
  {
    SelectionFields(fields)
  }

  lemma DefaultIsDirect()
    ensures DefaultExpression() == Direct
  {
  }

  lemma IntoAliasDirect(source: Name)
    ensures IntoAlias(Direct, source) == Alias(source)
  {
  }

  lemma IntoAliasNested(fields: seq<FieldMapping>, source: Name)
    ensures IntoAlias(Nested(fields), source) == AliasNested(source, fields)
  {
  }

  lemma IntoAliasKeepsOthers(e: MappingExpression, source: Name)
    requires !e.Direct? && !e.Nested?
    ensures IntoAlias(e, source) == e
  {
  }

  /** Aliasing twice is aliasing once with the first source. */
  lemma IntoAliasTwice(e: MappingExpression, first: Name, second: Name)
    ensures IntoAlias(IntoAlias(e, first), second) == IntoAlias(e, first)
  {
  }

  /** Both conversions accept exactly the name of a transform function. */
  lemma TransformFnConversions(value: string)
    ensures TransformFnFromStr(value) == TransformFnFromString(value)
    ensures TransformFnFromStr(value).Ok? <==> value == "first"
  {
  }

  /** The spelling of a transform function converts back to that function. */
  lemma TransformFnRoundTrip(f: TransformFn)
    ensures TransformFnFromStr(TransformFnName(f)) == Ok(f)
  {
  }
}
