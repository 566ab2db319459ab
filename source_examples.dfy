/** The unit tests of the selection parser. Each kind of entry is first stated
    for every name, path and transform; the tests' own inputs are then
    instances of those statements. */
module SourceExamples {
  import opened Wrappers
  import opened Names
  import opened Domain
  import opened Scanners
  import opened Canonical
  import opened Parser
  import opened RoundTrip
  import opened ListRoundTrip
  import opened Behaviours

  /** A single entry that is the whole input parses to itself, with nothing left. */
  lemma SingleEntry(f: FieldMapping, layout: Layout)
    requires WellFormedField(f) && ValidLayout(layout)
    ensures SelectionParser(layout.gap + PrintField(f, layout)) == Parsed([f], "")
  {
    assert [f][1..] == [];
    assert WellFormedFields([f]);
    assert PrintFields([f], layout) + "" == layout.gap + PrintField(f, layout);
    SelectionRoundTrip([f], layout, "");
  }

  /** `name` alone is read directly. */
  lemma DirectEntry(name: Name)
    ensures SelectionParser(name) == Parsed([FieldMapping(name, Direct)], "")
  {
    assert "" + (name + []) == name;
    SingleEntry(FieldMapping(name, Direct), Compact());
  }

  /** `name: alias` renames. */
  lemma AliasEntry(name: Name, alias: Name)
    ensures SelectionParser(name + (": " + alias)) == Parsed([FieldMapping(name, Alias(alias))], "")
  {
    assert "" + (name + (": " + alias)) == name + (": " + alias);
    SingleEntry(FieldMapping(name, Alias(alias)), Compact());
  }

  /** `name: {$path}` keeps the `$` and the path. */
  lemma NamedArgumentEntry(name: Name, argument: string)
    requires IsArgumentText(argument)
    ensures SelectionParser(name + (": {" + (argument + "}")))
         == Parsed([FieldMapping(name, NamedArgument(argument))], "")
  {
    assert "" + (name + (": {" + argument + "}")) == name + (": {" + (argument + "}"));
    SingleEntry(FieldMapping(name, NamedArgument(argument)), Compact());
  }

  /** `name: a.b.c` is a named path. */
  lemma NamedPathEntry(name: Name, path: string)
    requires IsDottedPath(path)
    ensures SelectionParser(name + (": " + path)) == Parsed([FieldMapping(name, NamedPath(path))], "")
  {
    assert "" + (name + (": " + path)) == name + (": " + path);
    SingleEntry(FieldMapping(name, NamedPath(path)), Compact());
  }

  /** `name: source->first` is a transform of a path or of a single identifier. */
  lemma TransformEntry(name: Name, source: string, f: TransformFn)
    requires IsPath(source)
    ensures SelectionParser(name + (": " + (source + ("->" + TransformFnName(f)))))
         == Parsed([FieldMapping(name, Transform(source, f))], "")
  {
    assert "" + (name + (": " + source + "->" + TransformFnName(f)))
        == name + (": " + (source + ("->" + TransformFnName(f))));
    SingleEntry(FieldMapping(name, Transform(source, f)), Compact());
  }

  /** `name {a, b}` with the gap before each inner entry and before the block's field. */
  lemma NestedPairEntry(name: Name, a: Name, b: Name, gap: string)
    requires IsSpaces(gap)
    ensures SelectionParser(gap + (name + (" {" + (gap + (a + ("," + (gap + (b + "}"))))))))
         == Parsed([FieldMapping(name, Nested([FieldMapping(a, Direct), FieldMapping(b, Direct)]))], "")
  {
    var layout := Layout(',', gap, false);
    var inner := [FieldMapping(a, Direct), FieldMapping(b, Direct)];
    assert WellFormedFields(inner);
    assert inner[1..] == [FieldMapping(b, Direct)];
    assert inner[1..][1..] == [];
    var rest := [FieldMapping(b, Direct)];
    assert inner[1..] == rest && rest[1..] == [];
    assert WellFormedFields(rest);
    assert PrintField(rest[0], layout) == b;
    assert PrintMore(rest, layout) == [','] + gap + PrintField(rest[0], layout) + PrintMore(rest[1..], layout);
    assert PrintField(inner[0], layout) == a;
    assert PrintFields(inner, layout) == gap + PrintField(inner[0], layout) + PrintMore(rest, layout);
    assert layout.gap + PrintField(FieldMapping(name, Nested(inner)), layout)
        == gap + (name + (" {" + (gap + (a + ("," + (gap + (b + "}")))))));
    SingleEntry(FieldMapping(name, Nested(inner)), layout);
  }

  // ---------------------------------------------------------------------
  // The tests' own inputs

  /** The paths and the argument the tests use are well formed. */
  lemma TestPaths()
    ensures IsDottedPath("data.result.bank") && IsDottedPath("data.result.banks")
    ensures IsPath("banks") && IsArgumentText("$args.bank")
  {
    assert forall i | 0 <= i < |"data.result.bank"| :: PathCharAt("data.result.bank", i);
    assert forall i | 0 <= i < |"data.result.banks"| :: PathCharAt("data.result.banks", i);
    assert forall i | 0 <= i < |"banks"| :: PathCharAt("banks", i);
  }

  /** `direct_field_name_identifier`. */
  lemma DirectField()
    ensures SelectionParser("name") == Parsed([FieldMapping("name", Direct)], "")
  {
    DirectFieldInput();
    SingleEntry(FieldMapping("name", Direct), Compact());
  }

  lemma DirectFieldInput()
    ensures Compact().gap + PrintField(FieldMapping("name", Direct), Compact()) == "name"
  {
    assert PrintExpression(Direct, Compact()) == [];
  }

  lemma AliasFieldInput()
    ensures "id" + (": " + "account_number") == "id: account_number"
  {
  }

  /** `alias_field_name_identifier`. */
  lemma AliasField()
    ensures SelectionParser("id: account_number")
         == Parsed([FieldMapping("id", Alias("account_number"))], "")
  {
    AliasFieldInput();
    AliasEntry("id", "account_number");
  }

  lemma NamedArgumentFieldInput()
    ensures "bank" + (": {" + ("$args.bank" + "}")) == "bank: {$args.bank}"
  {
  }

  /** `named_argument_field_name_identifier`. */
  lemma NamedArgumentField()
    ensures SelectionParser("bank: {$args.bank}")
         == Parsed([FieldMapping("bank", NamedArgument("$args.bank"))], "")
  {
    TestPaths();
    NamedArgumentFieldInput();
    NamedArgumentEntry("bank", "$args.bank");
  }

  lemma NamedPathFieldInput()
    ensures "bank" + (": " + "data.result.bank") == "bank: data.result.bank"
  {
  }

  /** `named_path_field_name_identifier`: a path, not an alias. */
  lemma NamedPathField()
    ensures SelectionParser("bank: data.result.bank")
         == Parsed([FieldMapping("bank", NamedPath("data.result.bank"))], "")
  {
    TestPaths();
    NamedPathFieldInput();
    NamedPathEntry("bank", "data.result.bank");
  }

  lemma TransformWithPathInput()
    ensures "bank" + (": " + ("data.result.banks" + ("->" + TransformFnName(First))))
         == "bank: data.result.banks->first"
  {
  }

  /** `fn_first_with_path`. */
  lemma TransformWithPath()
    ensures SelectionParser("bank: data.result.banks->first")
         == Parsed([FieldMapping("bank", Transform("data.result.banks", First))], "")
  {
    TestPaths();
    TransformWithPathInput();
    TransformEntry("bank", "data.result.banks", First);
  }

  lemma TransformWithoutPathInput()
    ensures "bank" + (": " + ("banks" + ("->" + TransformFnName(First)))) == "bank: banks->first"
  {
  }

  /** `fn_first_without_path`. */
  lemma TransformWithoutPath()
    ensures SelectionParser("bank: banks->first")
         == Parsed([FieldMapping("bank", Transform("banks", First))], "")
  {
    TestPaths();
    TransformWithoutPathInput();
    TransformEntry("bank", "banks", First);
  }

  lemma SimpleNestedInput()
    ensures "\n  " + ("variants" + (" {" + ("\n  " + ("name" + ("," + ("\n  " + ("price" + "}")))))))
         == "\n  variants {\n  name,\n  price}"
  {
  }

  /** `simple_nested_values`, with no spaces before the closing brace. */
  lemma SimpleNested()
    ensures SelectionParser("\n  variants {\n  name,\n  price}")
         == Parsed([FieldMapping("variants", Nested([FieldMapping("name", Direct), FieldMapping("price", Direct)]))], "")
  {
    assert IsSpaces("\n  ");
    SimpleNestedInput();
    NestedPairEntry("variants", "name", "price", "\n  ");
  }

  lemma MatchCaseInput()
    ensures "[" + ("1" + (" " + ("=>" + (" " + ("online" + ("]" + "")))))) == "[1 => online]"
  {
  }

  /** The first case of `match_cases`. */
  lemma OnlineCase()
    ensures ParseMapMatchCase("[1 => online]") == Parsed((Some("1"), "online"), "")
  {
    assert IsCaseText("1") && IsCaseText("online");
    MatchCaseInput();
    MatchCaseSteps("1", "online", "");
    assert Trim("1") == "1" && Trim("online") == "online";
  }

  lemma SpacedCaseInputs()
    ensures "[" + ("" + ("0" + (" " + ("=>" + (" " + ("offline" + (" " + ("]" + "")))))))) == "[0 => offline ]"
    ensures "[" + (" " + ("_" + (" " + ("=>" + ("  " + ("suspended" + ("" + ("]" + "")))))))) == "[ _ =>  suspended]"
  {
  }

  /** The second case of `match_cases`: a space before `]` is skipped. */
  lemma OfflineCase()
    ensures ParseMapMatchCase("[0 => offline ]") == Parsed((Some("0"), "offline"), "")
  {
    assert IsCaseText("0") && IsCaseText("offline");
    assert IsSpaces(" ") && IsSpaces("");
    SpacedCaseInputs();
    SpacedMatchCase("", "0", " ", " ", "offline", " ", "");
    assert Trim("0") == "0";
  }

  /** The third case of `match_cases`: spaces after `[` and after `=>` are
      skipped, and `_` is the wildcard. */
  lemma SuspendedCase()
    ensures ParseMapMatchCase("[ _ =>  suspended]") == Parsed((None, "suspended"), "")
  {
    assert IsCaseText("_") && IsCaseText("suspended");
    assert IsSpaces(" ") && IsSpaces("  ") && IsSpaces("");
    SpacedCaseInputs();
    SpacedMatchCase(" ", "_", " ", "  ", "suspended", "", "");
  }

  /** The cases of `field_with_match_expression`. */
  function StatusArms(): seq<MatchArm> {
    [(Some("1"), "\"online\""), (Some("0"), "\"offline\""), (None, "\"suspended\"")]
  }

  lemma StatusArmsWellFormed()
    ensures WellFormedArm(StatusArms()[0]) && WellFormedArm(StatusArms()[1]) && WellFormedArm(StatusArms()[2])
    ensures WellFormedArms(StatusArms())
  {
    assert IsCaseText("1") && IsCaseText("0");
    assert IsCaseText("\"online\"");
    assert IsCaseText("\"offline\"");
    assert IsCaseText("\"suspended\"");
  }

  /** How the cases of `field_with_match_expression` are written without gaps. */
  lemma StatusArmsText()
    ensures WellFormedArms(StatusArms())
    ensures PrintArms(StatusArms(), "")
         == PrintArm(StatusArms()[0]) + ("," + PrintArm(StatusArms()[1]) + ("," + PrintArm(StatusArms()[2]) + []))
  {
    var arms := StatusArms();
    StatusArmsWellFormed();
    assert arms[1..][1..] == arms[2..] && arms[2..][1..] == [];
  }

  /** A printed case is its pattern and result between brackets. */
  lemma ArmPieces(arm: MatchArm)
    requires WellFormedArm(arm)
    ensures PrintArm(arm) == "[" + PrintPattern(arm.0) + " => " + arm.1 + "]"
  {
  }

  lemma StatusArmLiterals()
    ensures WellFormedArms(StatusArms())
    ensures PrintArm(StatusArms()[0]) == "[1 => \"online\"]"
    ensures PrintArm(StatusArms()[1]) == "[0 => \"offline\"]"
    ensures PrintArm(StatusArms()[2]) == "[_ => \"suspended\"]"
  {
    StatusArmsWellFormed();
    ArmPieces(StatusArms()[0]);
    ArmPieces(StatusArms()[1]);
    ArmPieces(StatusArms()[2]);
    ArmLiterals();
  }

  lemma ArmLiterals()
    ensures "[" + "1" + " => " + "\"online\"" + "]" == "[1 => \"online\"]"
    ensures "[" + "0" + " => " + "\"offline\"" + "]" == "[0 => \"offline\"]"
    ensures "[" + "_" + " => " + "\"suspended\"" + "]" == "[_ => \"suspended\"]"
  {
  }

  /** A one-line matcher entry of three cases, as the printer groups it. */
  lemma ThreeCaseText(name: string, source: string, a0: string, a1: string, a2: string)
    ensures name + (": " + source + "->" + ("match(@ => {" + "" + (a0 + ("," + "" + a1 + ("," + "" + a2 + []))) + "" + "})"))
         == name + ": " + source + "->match(@ => {" + a0 + "," + a1 + "," + a2 + "})"
  {
  }

  /** The status entry as the compact layout prints it. */
  lemma StatusPrinted()
    ensures WellFormedField(FieldMapping("status", Matcher("status", StatusArms())))
    ensures Compact().gap + PrintField(FieldMapping("status", Matcher("status", StatusArms())), Compact())
         == "status" + ": " + "status" + "->match(@ => {" + "[1 => \"online\"]"
            + "," + "[0 => \"offline\"]" + "," + "[_ => \"suspended\"]" + "})"
  {
    var arms := StatusArms();
    StatusArmsText();
    StatusArmLiterals();
    assert IsPath("status") by {
      assert forall i | 0 <= i < |"status"| :: PathCharAt("status", i);
    }
    ThreeCaseText("status", "status", PrintArm(arms[0]), PrintArm(arms[1]), PrintArm(arms[2]));
  }

  /** `field_with_match_expression`, with its cases on one line: the
      quotes stay part of each result. */
  lemma StatusMatcher()
    ensures SelectionParser("status" + ": " + "status" + "->match(@ => {" + "[1 => \"online\"]"
                            + "," + "[0 => \"offline\"]" + "," + "[_ => \"suspended\"]" + "})")
         == Parsed([FieldMapping("status", Matcher("status", StatusArms()))], "")
  {
    StatusPrinted();
    SingleEntry(FieldMapping("status", Matcher("status", StatusArms())), Compact());
  }

  lemma ArgumentLineInput()
    ensures "bank" + (": {" + ("$args.bank" + ("}" + ("\n" + "name")))) == "bank: {$args.bank}\nname"
  {
  }

  /** A line ending separates `bank: {$args.bank}` from the next entry. */
  lemma ArgumentThenLine()
    ensures SelectionParser("bank: {$args.bank}\nname")
         == Parsed([FieldMapping("bank", NamedArgument("$args.bank")), FieldMapping("name", Direct)], "")
  {
    TestPaths();
    ArgumentLineInput();
    LineEndingAfterArgument("bank", "$args.bank", "name");
  }

  lemma DocArgumentInput()
    ensures "bank" + (": " + "$args.bank") == "bank: $args.bank"
    ensures ": " + "$args.bank" == ": $args.bank"
  {
  }

  /** The entry `bank: $args.bank` of the doc comment on `selection_parser`
      stops after `bank`: without braces the argument is not read. */
  lemma DocArgumentEntry()
    ensures SelectionParser("bank: $args.bank")
         == Parsed([FieldMapping("bank", Direct)], ": $args.bank")
  {
    DocArgumentInput();
    DollarWithoutBraces("bank", "$args.bank");
  }
}
