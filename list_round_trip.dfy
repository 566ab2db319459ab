/** Reading back printed entries and selections: `field_mapping`,
    `nested_values`, the entry alternative and the separated list. */
module ListRoundTrip {
  import opened Wrappers
  import opened Names
  import opened Domain
  import opened Scanners
  import opened Canonical
  import opened Parser
  import opened RoundTrip
  import opened ExpressionRoundTrip

  // ---------------------------------------------------------------------
  // When an entry is missing

  /** `multispace0` applied twice skips no more than once. */
  lemma Multispace0Twice(s: string)
    ensures Multispace0(Multispace0(s)) == Multispace0(s)
  {
    Multispace0None(Multispace0(s));
  }

  /** `identifier` after skipped spaces starts exactly when it starts at all. */
  lemma IdentifierAfterSpaces(s: string)
    ensures ParseIdentifier(Multispace0(s)).Backtrack? <==> ParseIdentifier(s).Backtrack?
  {
    Multispace0Twice(s);
  }

  /** An entry is missing exactly when no identifier follows the spaces:
      neither alternative can start without one, and once one is read,
      `field_mapping` either succeeds or aborts. */
  lemma EntryBacktracks(s: string)
    ensures ParseEntry(s).Backtrack? <==> ParseIdentifier(s).Backtrack?
  {
    IdentifierAfterSpaces(s);
  }

  /** No entry starts in `v`. */
  predicate NoEntry(v: string) {
    Multispace0(v) == [] || !InClass(Ident, Multispace0(v)[0])
  }

  /** Where a selection may end: the end of the text, the `}` of an enclosing
      block, or a separator that no entry follows. */
  predicate ListEnd(t: string) {
    t == [] || t[0] == '}' || ((t[0] == ',' || t[0] == ';') && NoEntry(t[1..]))
  }

  // ---------------------------------------------------------------------
  // Entries without a nested block

  /** What follows the name of an entry without a block: its expression's
      text, then a delimiter. */
  lemma ExpressionStart(e: MappingExpression, layout: Layout, u: string)
    requires WellFormedExpression(e) && !e.Nested? && EntryDelim(u)
    ensures WordEnd(PrintExpression(e, layout) + u)
    ensures NoLeadingSpace(PrintExpression(e, layout) + u)
    ensures Literal("{", PrintExpression(e, layout) + u) == Backtrack
  {
    var x := PrintExpression(e, layout) + u;
    DelimFacts(u);
    if !e.Direct? {
      assert x[0] == ':';
    }
    LiteralMismatch("{", x);
  }

  /** `field_mapping` with an expression. */
  lemma FieldMappingParts(s: string, name: Name, s1: string, e: MappingExpression, u: string)
    requires ParseIdentifier(s) == Parsed(name, s1)
    requires ParseMappingExpression(s1) == Parsed(e, u)
    ensures ParseFieldMapping(s) == Parsed(FieldMapping(name, e), u)
  {
    NameFacts(name);
  }

  /** `field_mapping` without one: the default expression. */
  lemma DirectFieldParts(s: string, name: Name, s1: string)
    requires ParseIdentifier(s) == Parsed(name, s1)
    requires ParseMappingExpression(s1) == Backtrack
    ensures ParseFieldMapping(s) == Parsed(FieldMapping(name, Direct), s1)
  {
    NameFacts(name);
  }

  /** `field_mapping` reads the canonical text of a field without a block. */
  lemma FieldMappingOf(before: string, f: FieldMapping, layout: Layout, u: string)
    requires IsSpaces(before) && WellFormedField(f) && !f.expression.Nested?
    requires IsSpaces(layout.gap) && EntryDelim(u)
    ensures ParseFieldMapping(before + (PrintField(f, layout) + u)) == Parsed(f, u)
  {
    var x := PrintExpression(f.expression, layout) + u;
    assert before + (PrintField(f, layout) + u) == before + (f.fieldName + ([] + x));
    NameFacts(f.fieldName);
    ExpressionStart(f.expression, layout, u);
    IdentifierOf(before, f.fieldName, [], x);
    if f.expression.Direct? {
      NoExpression(u);
      DirectFieldParts(before + (f.fieldName + ([] + x)), f.fieldName, x);
    } else {
      ExpressionOf(f.expression, layout, u);
      FieldMappingParts(before + (f.fieldName + ([] + x)), f.fieldName, x, f.expression, u);
    }
  }

  /** `nested_values` backtracks when no `{` follows the name. */
  lemma NotNestedParts(t: string, name: string, s1: string)
    requires ParseIdentifier(t) == Parsed(name, s1)
    requires Multispace0(s1) == s1 && Literal("{", s1) == Backtrack
    ensures ParseNestedValues(t) == Backtrack
  {
  }

  /** A field without a block is not read as `nested_values`. */
  lemma NotNestedOf(f: FieldMapping, layout: Layout, u: string)
    requires WellFormedField(f) && !f.expression.Nested? && EntryDelim(u)
    ensures ParseNestedValues(PrintField(f, layout) + u) == Backtrack
  {
    var x := PrintExpression(f.expression, layout) + u;
    assert PrintField(f, layout) + u == [] + (f.fieldName + ([] + x));
    NameFacts(f.fieldName);
    ExpressionStart(f.expression, layout, u);
    IdentifierOf([], f.fieldName, [], x);
    Multispace0None(x);
    NotNestedParts(PrintField(f, layout) + u, f.fieldName, x);
  }

  /** The entry alternative falls through to `field_mapping`. */
  lemma EntryFieldParts(s: string, f: FieldMapping, u: string)
    requires ParseNestedValues(Multispace0(s)) == Backtrack
    requires ParseFieldMapping(s) == Parsed(f, u)
    ensures ParseEntry(s) == Parsed(f, u)
  {
  }

  /** An entry without a block, after any spaces. */
  lemma FieldEntryOf(before: string, f: FieldMapping, layout: Layout, u: string)
    requires IsSpaces(before) && WellFormedField(f) && !f.expression.Nested?
    requires IsSpaces(layout.gap) && EntryDelim(u)
    ensures ParseEntry(before + (PrintField(f, layout) + u)) == Parsed(f, u)
  {
    NameFacts(f.fieldName);
    StartsWith(f.fieldName[0], f.fieldName, PrintExpression(f.expression, layout));
    StartsWith(f.fieldName[0], PrintField(f, layout), u);
    Multispace0Of(before, PrintField(f, layout) + u);
    NotNestedOf(f, layout, u);
    FieldMappingOf(before, f, layout, u);
    EntryFieldParts(before + (PrintField(f, layout) + u), f, u);
  }

  // ---------------------------------------------------------------------
  // Separators and the list

  /** A layout's separator is read by `alt((line_ending, ",", ";"))`. */
  lemma SeparatorOf(sep: char, x: string)
    requires sep == ',' || sep == ';'
    ensures ParseSeparator([sep] + x) == Parsed([sep], x)
  {
    LiteralOf([sep], x);
    if sep == ';' {
      LiteralMismatch(",", [sep] + x);
    }
  }

  /** No identifier starts at an entry delimiter. */
  lemma DelimNoIdentifier(t: string)
    requires EntryDelim(t)
    ensures ParseIdentifier(t).Backtrack?
  {
    DelimFacts(t);
    Multispace0None(t);
    assert t == [] || !InClass(Ident, t[0]);
  }

  /** Nor does an entry. */
  lemma DelimNoEntry(t: string)
    requires EntryDelim(t)
    ensures ParseEntry(t) == Backtrack
  {
    DelimNoIdentifier(t);
    EntryBacktracks(t);
  }

  /** `separated` stops where no separator follows. */
  lemma NoSeparatorParts(s: string)
    requires ParseSeparator(s).Backtrack?
    ensures MoreEntries(s) == Parsed([], s)
  {
  }

  /** `separated` stops before a separator that no entry follows. */
  lemma TrailingSeparatorParts(s: string)
    requires ParseSeparator(s).Parsed? && ParseEntry(ParseSeparator(s).rest).Backtrack?
    ensures MoreEntries(s) == Parsed([], s)
  {
  }

  /** The repetition stops at the end of a selection. */
  lemma MoreEnd(t: string)
    requires ListEnd(t)
    ensures MoreEntries(t) == Parsed([], t)
  {
    if t == [] || t[0] == '}' {
      LiteralMismatch(",", t);
      LiteralMismatch(";", t);
      NoSeparatorParts(t);
    } else {
      assert t == [t[0]] + t[1..];
      SeparatorOf(t[0], t[1..]);
      EntryBacktracks(t[1..]);
      TrailingSeparatorParts(t);
    }
  }

  /** A nonempty list is its head before its tail. */
  lemma ConsSplit(fs: seq<FieldMapping>)
    requires fs != []
    ensures [fs[0]] + fs[1..] == fs
  {
  }

  /** One more separator and entry, then the rest of the repetition. */
  lemma MoreParts(s: string, s1: string, s2: string, fs: seq<FieldMapping>, t: string)
    requires fs != []
    requires ParseSeparator(s).Parsed? && ParseSeparator(s).rest == s1
    requires ParseEntry(s1) == Parsed(fs[0], s2)
    requires MoreEntries(s2) == Parsed(fs[1..], t)
    ensures MoreEntries(s) == Parsed(fs, t)
  {
    ConsSplit(fs);
  }

  /** A first entry, then the repetition. */
  lemma SelectionParts(s: string, s1: string, fs: seq<FieldMapping>, t: string)
    requires fs != []
    requires ParseEntry(s) == Parsed(fs[0], s1)
    requires MoreEntries(s1) == Parsed(fs[1..], t)
    ensures SelectionParser(s) == Parsed(fs, t)
  {
    ConsSplit(fs);
  }

  /** No entry: the empty selection, nothing consumed. */
  lemma EmptySelectionParts(s: string)
    requires ParseEntry(s) == Backtrack
    ensures SelectionParser(s) == Parsed([], s)
  {
  }

  /** What follows an entry inside a printed list is a delimiter. */
  lemma MoreDelim(fs: seq<FieldMapping>, layout: Layout, t: string)
    requires WellFormedFields(fs) && ValidLayout(layout) && ListEnd(t)
    ensures EntryDelim(PrintMore(fs, layout) + t)
  {
  }

  /** The canonical text of a field starts with its name's first character. */
  lemma FieldStart(f: FieldMapping, layout: Layout, u: string)
    requires WellFormedField(f)
    ensures |PrintField(f, layout) + u| > 0
    ensures (PrintField(f, layout) + u)[0] == f.fieldName[0]
    ensures NoLeadingSpace(PrintField(f, layout) + u)
  {
    NameFacts(f.fieldName);
  }

  /** The first field of a list and the rest are well formed. */
  lemma FieldsSplit(fs: seq<FieldMapping>)
    requires WellFormedFields(fs) && fs != []
    ensures WellFormedField(fs[0]) && WellFormedFields(fs[1..])
  {
    assert WellFormedField(fs[0]);
  }

  /** The repetition starts with a separator, and an entry delimiter
      follows the entry after it. */
  lemma MoreHead(fs: seq<FieldMapping>, layout: Layout, t: string)
    requires WellFormedFields(fs) && fs != [] && ValidLayout(layout) && ListEnd(t)
    ensures WellFormedField(fs[0]) && WellFormedFields(fs[1..])
    ensures ParseSeparator(PrintMore(fs, layout) + t).Parsed?
    ensures ParseSeparator(PrintMore(fs, layout) + t).rest
         == layout.gap + (PrintField(fs[0], layout) + (PrintMore(fs[1..], layout) + t))
    ensures EntryDelim(PrintMore(fs[1..], layout) + t)
  {
    MoreText(fs, layout, t);
    SeparatorOf(layout.sep, layout.gap + (PrintField(fs[0], layout) + (PrintMore(fs[1..], layout) + t)));
    MoreDelim(fs[1..], layout, t);
  }

  /** The parts of a printed list after its first entry's spaces. */
  lemma FieldsText(fs: seq<FieldMapping>, layout: Layout, t: string)
    requires WellFormedFields(fs) && fs != []
    ensures WellFormedField(fs[0]) && WellFormedFields(fs[1..])
    ensures PrintFields(fs, layout) + t
         == layout.gap + (PrintField(fs[0], layout) + (PrintMore(fs[1..], layout) + t))
  {
    assert WellFormedField(fs[0]);
    var x, y := PrintField(fs[0], layout), PrintMore(fs[1..], layout);
    assert PrintFields(fs, layout) == layout.gap + x + y;
    Regroup(layout.gap, x, y, t);
  }

  /** The parts of a printed repetition. */
  lemma MoreText(fs: seq<FieldMapping>, layout: Layout, t: string)
    requires WellFormedFields(fs) && fs != []
    ensures WellFormedField(fs[0]) && WellFormedFields(fs[1..])
    ensures PrintMore(fs, layout) + t
         == [layout.sep] + (layout.gap + (PrintField(fs[0], layout) + (PrintMore(fs[1..], layout) + t)))
  {
    assert WellFormedField(fs[0]);
    var x, y := PrintField(fs[0], layout), PrintMore(fs[1..], layout);
    assert PrintMore(fs, layout) == [layout.sep] + layout.gap + x + y;
    Reassociate([layout.sep], layout.gap, x, y, t);
  }

  /** Concatenation regrouped to the right. */
  lemma Regroup(b: string, c: string, d: string, e: string)
    ensures b + c + d + e == b + (c + (d + e))
  {
  }

  /** Concatenation regrouped to the right. */
  lemma Reassociate(a: string, b: string, c: string, d: string, e: string)
    ensures a + b + c + d + e == a + (b + (c + (d + e)))
  {
  }

  /** The canonical text of a nested entry, in the order the parser reads it. */
  lemma NestedText(f: FieldMapping, layout: Layout, u: string)
    requires WellFormedField(f) && f.expression.Nested?
    ensures WellFormedFields(f.expression.fields)
    ensures PrintField(f, layout) + u
         == [] + (f.fieldName + (" " + ("{" + (PrintFields(f.expression.fields, layout) + ("}" + u)))))
  {
  }

  /** `nested_values` is the name, `{`, a selection and `}`. */
  lemma NestedValuesParts(t: string, name: Name, s1: string, s2: string, fields: seq<FieldMapping>, u: string)
    requires ParseIdentifier(t) == Parsed(name, s1)
    requires Multispace0(s1) == s1 && Literal("{", s1) == Parsed("{", s2)
    requires SelectionParser(Multispace0(s2)) == Parsed(fields, "}" + u)
    requires Multispace0("}" + u) == "}" + u && Literal("}", "}" + u) == Parsed("}", u)
    ensures ParseNestedValues(t) == Parsed(FieldMapping(name, Nested(fields)), u)
  {
    NameFacts(name);
  }

  /** The entry alternative takes `nested_values` and skips the spaces after it. */
  lemma EntryNestedParts(s: string, f: FieldMapping, u: string)
    requires ParseNestedValues(Multispace0(s)) == Parsed(f, u)
    requires Multispace0(u) == u
    ensures ParseEntry(s) == Parsed(f, u)
  {
  }

  /** The closing `}` of a block. */
  lemma CloseOf(u: string)
    ensures Multispace0("}" + u) == "}" + u && Literal("}", "}" + u) == Parsed("}", u)
  {
    Multispace0None("}" + u);
    LiteralOf("}", u);
  }

  /** The opening `{` of a block. */
  lemma OpenOf(body: string)
    ensures Multispace0("{" + body) == "{" + body && Literal("{", "{" + body) == Parsed("{", body)
  {
    Multispace0None("{" + body);
    LiteralOf("{", body);
  }

  // ---------------------------------------------------------------------
  // The recursion: entries, blocks and lists

  /** `alt((ignore_whitespace(nested_values), field_mapping))` reads the
      canonical text of any entry, after any spaces. */
  lemma {:induction false} EntryOf(before: string, f: FieldMapping, layout: Layout, u: string)
    requires IsSpaces(before) && WellFormedField(f) && ValidLayout(layout) && EntryDelim(u)
    ensures ParseEntry(before + (PrintField(f, layout) + u)) == Parsed(f, u)
    decreases f, 2
  {
    if f.expression.Nested? {
      NestedEntryOf(before, f, layout, u);
    } else {
      FieldEntryOf(before, f, layout, u);
    }
  }

  /** An entry with a block, after any spaces. */
  lemma {:induction false} NestedEntryOf(before: string, f: FieldMapping, layout: Layout, u: string)
    requires IsSpaces(before) && WellFormedField(f) && f.expression.Nested?
    requires ValidLayout(layout) && EntryDelim(u)
    ensures ParseEntry(before + (PrintField(f, layout) + u)) == Parsed(f, u)
    decreases f, 1
  {
    NestedValuesOf(f, layout, u);
    FieldStart(f, layout, u);
    Multispace0Of(before, PrintField(f, layout) + u);
    DelimFacts(u);
    Multispace0None(u);
    EntryNestedParts(before + (PrintField(f, layout) + u), f, u);
  }

  /** `nested_values` reads `name {selection}`. */
  lemma {:induction false} NestedValuesOf(f: FieldMapping, layout: Layout, u: string)
    requires WellFormedField(f) && f.expression.Nested? && ValidLayout(layout) && EntryDelim(u)
    ensures ParseNestedValues(PrintField(f, layout) + u) == Parsed(f, u)
    decreases f, 0
  {
    var fields := f.expression.fields;
    var body := PrintFields(fields, layout) + ("}" + u);
    NestedText(f, layout, u);
    NameFacts(f.fieldName);
    IdentifierOf([], f.fieldName, " ", "{" + body);
    OpenOf(body);
    BlockOf(fields, layout, u);
    CloseOf(u);
    NestedValuesParts(PrintField(f, layout) + u, f.fieldName, "{" + body, body, fields, u);
  }

  /** Inside a block, the selection ends at the closing `}`. */
  lemma {:induction false} BlockOf(fields: seq<FieldMapping>, layout: Layout, u: string)
    requires WellFormedFields(fields) && ValidLayout(layout)
    ensures SelectionParser(Multispace0(PrintFields(fields, layout) + ("}" + u))) == Parsed(fields, "}" + u)
    decreases fields, 3
  {
    if fields == [] {
      assert PrintFields(fields, layout) + ("}" + u) == "}" + u;
      Multispace0None("}" + u);
      DelimNoEntry("}" + u);
      EmptySelectionParts("}" + u);
    } else {
      var x := PrintField(fields[0], layout) + (PrintMore(fields[1..], layout) + ("}" + u));
      FieldsText(fields, layout, "}" + u);
      FieldStart(fields[0], layout, PrintMore(fields[1..], layout) + ("}" + u));
      Multispace0Of(layout.gap, x);
      ListOf([], fields, layout, "}" + u);
      assert [] + x == x;
    }
  }

  /** A nonempty list after any spaces. */
  lemma {:induction false} ListOf(before: string, fs: seq<FieldMapping>, layout: Layout, t: string)
    requires IsSpaces(before) && fs != [] && WellFormedFields(fs) && ValidLayout(layout) && ListEnd(t)
    ensures WellFormedField(fs[0]) && WellFormedFields(fs[1..])
    ensures SelectionParser(before + (PrintField(fs[0], layout) + (PrintMore(fs[1..], layout) + t))) == Parsed(fs, t)
    decreases fs, 2
  {
    FieldsSplit(fs);
    var rest := PrintMore(fs[1..], layout) + t;
    MoreDelim(fs[1..], layout, t);
    EntryOf(before, fs[0], layout, rest);
    MoreOf(fs[1..], layout, t);
    SelectionParts(before + (PrintField(fs[0], layout) + rest), rest, fs, t);
  }

  /** The repetition reads every further separator and entry. */
  lemma {:induction false} MoreOf(fs: seq<FieldMapping>, layout: Layout, t: string)
    requires WellFormedFields(fs) && ValidLayout(layout) && ListEnd(t)
    ensures MoreEntries(PrintMore(fs, layout) + t) == Parsed(fs, t)
    decreases fs, 1
  {
    if fs == [] {
      assert PrintMore(fs, layout) + t == t;
      MoreEnd(t);
    } else {
      MoreHead(fs, layout, t);
      var rest := PrintMore(fs[1..], layout) + t;
      var entry := layout.gap + (PrintField(fs[0], layout) + rest);
      EntryOf(layout.gap, fs[0], layout, rest);
      MoreOf(fs[1..], layout, t);
      MoreParts(PrintMore(fs, layout) + t, entry, rest, fs, t);
    }
  }

  /** The round trip: `selection_parser` reads back the canonical text of
      any well-formed selection, in order, and stops where the list ends. */
  lemma SelectionRoundTrip(fs: seq<FieldMapping>, layout: Layout, t: string)
    requires WellFormedFields(fs) && ValidLayout(layout) && ListEnd(t)
    ensures SelectionParser(PrintFields(fs, layout) + t) == Parsed(fs, t)
  {
    if fs == [] {
      assert PrintFields(fs, layout) + t == t;
      DelimNoEntry(t);
      EmptySelectionParts(t);
    } else {
      FieldsText(fs, layout, t);
      ListOf(layout.gap, fs, layout, t);
    }
  }
}
