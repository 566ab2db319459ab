/** Reading back printed selections. Each lemma runs one parser on the
    canonical text of a value followed by arbitrary text that cannot continue
    it, and shows that the parser returns exactly that value and leaves exactly
    the following text. The last, `SelectionRoundTrip`, does this for whole
    selections: together with the well-formedness that `SelectionParser`
    guarantees, it says that the well-formed selections are exactly the ones the
    parser builds. */
module RoundTrip {
  import opened Wrappers
  import opened Names
  import opened Domain
  import opened Scanners
  import opened Canonical
  import opened Parser

  /** Text that cannot continue an identifier or be skipped as space. */
  predicate WordEnd(t: string) {
    t == [] || (!InClass(Ident, t[0]) && !InClass(Multispace, t[0]))
  }

  /** Text that cannot continue a path: no identifier character, no dot. */
  predicate PathEnd(t: string) {
    t == [] || (!InClass(Ident, t[0]) && t[0] != '.')
  }

  /** `identifier` reads a word with spaces around it and leaves what follows. */
  lemma IdentifierOf(before: string, w: string, after: string, t: string)
    requires IsSpaces(before) && IsIdentWord(w) && IsSpaces(after) && WordEnd(t)
    ensures ParseIdentifier(before + (w + (after + t))) == Parsed(w, t)
  {
    assert InClass(Ident, w[0]);
    Multispace0Of(before, w + (after + t));
    if after != [] {
      assert InClass(Multispace, after[0]);
    }
    assert (after + t) == [] || !InClass(Ident, (after + t)[0]);
    TakeWhile1Of(Ident, w, after + t);
    Multispace0Of(after, t);
  }

  /** The first word of a path ends at the path's end, or at a dot that a
      further path follows. */
  lemma PathSplit(p: string)
    requires IsPath(p)
    ensures 0 < Span(Ident, p) <= |p| && IsIdentWord(p[..Span(Ident, p)])
    ensures Span(Ident, p) < |p| ==> p[Span(Ident, p)] == '.' && IsPath(p[Span(Ident, p) + 1..])
  {
    var n := Span(Ident, p);
    assert PathCharAt(p, 0);
    if n < |p| {
      assert PathCharAt(p, n);
      var q := p[n + 1..];
      forall j | 0 <= j < |q|
        ensures PathCharAt(q, j)
      {
        assert PathCharAt(p, n + 1 + j);
        assert q[j] == p[n + 1 + j];
        if j + 1 < |q| {
          assert q[j + 1] == p[n + 2 + j];
        }
      }
    }
  }

  /** The segments of a path: its words between the dots. */
  function Segments(p: string): (parts: seq<string>)
    requires IsPath(p)
    ensures |parts| > 0 && IsSegments(parts)
    decreases |p|
  {
    PathSplit(p);
    var n := Span(Ident, p);
    if n == |p| then [p]
    else
      var rest := Segments(p[n + 1..]);
      ConsSegments(p[..n], rest);
      [p[..n]] + rest
  }

  /** Joining the segments of a path with dots gives the path back. */
  lemma {:induction false} JoinSegments(p: string)
    requires IsPath(p)
    ensures Join(Segments(p), '.') == p
    decreases |p|
  {
    PathSplit(p);
    var n := Span(Ident, p);
    if n < |p| {
      var q := p[n + 1..];
      JoinSegments(q);
      var parts := Segments(p);
      assert parts == [p[..n]] + Segments(q);
      assert parts[1..] == Segments(q);
      assert Join(parts, '.') == p[..n] + ['.'] + q;
      assert p == p[..n] + ['.'] + q;
    }
  }

  /** After a path, the repetition of `named_path_str` reads nothing more. */
  lemma MoreSegmentsEnd(t: string)
    requires PathEnd(t)
    ensures MoreSegments(t) == Step([], t)
  {
    LiteralMismatch(".", t);
  }

  /** The repetition of `named_path_str` after a dot reads the segments of the
      path that follows the dot. */
  lemma {:induction false} MoreSegmentsOf(p: string, t: string)
    requires IsPath(p) && PathEnd(t)
    ensures MoreSegments(['.'] + (p + t)) == Step(Segments(p), t)
    decreases |p|
  {
    LiteralOf(['.'], p + t);
    PathSplit(p);
    var n := Span(Ident, p);
    if n == |p| {
      TakeWhile1Of(Ident, p, t);
      MoreSegmentsEnd(t);
      assert [p] + [] == [p];
    } else {
      var w, q := p[..n], p[n + 1..];
      SplitAround(p, n, t);
      TakeWhile1Of(Ident, w, ['.'] + (q + t));
      MoreSegmentsOf(q, t);
      assert Segments(p) == [w] + Segments(q);
    }
  }

  /** `separated(1.., ..)` reads the segments of a path. */
  lemma PathSegmentsOf(p: string, t: string)
    requires IsPath(p) && PathEnd(t)
    ensures PathSegments(p + t) == Parsed(Segments(p), t)
  {
    PathSplit(p);
    var n := Span(Ident, p);
    if n == |p| {
      TakeWhile1Of(Ident, p, t);
      MoreSegmentsEnd(t);
      assert [p] + [] == [p];
    } else {
      var w, q := p[..n], p[n + 1..];
      SplitAround(p, n, t);
      TakeWhile1Of(Ident, w, ['.'] + (q + t));
      MoreSegmentsOf(q, t);
      assert Segments(p) == [w] + Segments(q);
    }
  }

  /** `named_path_str` reads a path, dotted or not, and leaves what follows. */
  lemma NamedPathStrOf(p: string, t: string)
    requires IsPath(p) && PathEnd(t)
    ensures ParseNamedPathStr(p + t) == Parsed(p, t)
  {
    PathSegmentsOf(p, t);
    JoinSegments(p);
  }

  /** `named_path` reads a dotted path and backtracks on a single word. */
  lemma NamedPathOf(p: string, t: string)
    requires IsPath(p) && PathEnd(t)
    ensures ParseNamedPath(p + t) == if '.' in p then Parsed(NamedPath(p), t) else Backtrack
  {
    PathSegmentsOf(p, t);
    JoinSegments(p);
    JoinIsPath(Segments(p));
  }

  /** Case text never starts with a space. */
  lemma CaseTextStart(x: string, t: string)
    requires |x| > 0 && IsCaseText(x)
    ensures NoLeadingSpace(x + t)
  {
    assert InClass(CaseText, x[0]);
    MultispaceIsWhitespace(x[0]);
  }

  /** The printed case, split where `map_match_case` reads it. */
  lemma MatchCaseText(pattern: string, result: string, u: string)
    ensures "[" + pattern + " => " + result + "]" + u == "[" + (pattern + (" " + ("=>" + (" " + (result + ("]" + u))))))
  {
  }

  /** What the scanners of `map_match_case` see at each boundary of a printed case. */
  lemma MatchCaseBoundaries(pattern: string, result: string, u: string)
    requires |pattern| > 0 && IsCaseText(pattern) && IsCaseText(result) && NoLeadingSpace(u)
    ensures NoLeadingSpace(pattern + (" " + ("=>" + (" " + (result + ("]" + u))))))
    ensures NoLeadingSpace(result + ("]" + u))
    ensures !InClass(CaseText, (" " + ("=>" + (" " + (result + ("]" + u)))))[0])
    ensures !InClass(CaseText, ("]" + u)[0])
  {
    CaseTextStart(pattern, " " + ("=>" + (" " + (result + ("]" + u)))));
    if result != [] {
      CaseTextStart(result, "]" + u);
    }
  }

  /** The pair inside `map_match_case` on a printed case. */
  lemma CasePairOf(pattern: string, result: string, u: string)
    requires |pattern| > 0 && IsCaseText(pattern) && IsCaseText(result) && NoLeadingSpace(u)
    ensures ParseCasePair(pattern + (" " + ("=>" + (" " + (result + ("]" + u))))))
         == Parsed((CasePattern(pattern), Trim(result)), "]" + u)
  {
    MatchCaseBoundaries(pattern, result, u);
    var afterResult := "]" + u;
    var arrow := " " + ("=>" + (" " + (result + afterResult)));
    TakeWhile1Of(CaseText, pattern, arrow);
    TokenOf("=>", " ", " ", result + afterResult);
    TakeWhile0Of(CaseText, result, afterResult);
  }

  /** `map_match_case` is its three parts in sequence. */
  lemma MatchCaseParts(s: string, inner: string, v: string, u: string, arm: MatchArm)
    requires Token("[", s) == Parsed("[", inner)
    requires ParseCasePair(inner) == Parsed(arm, v)
    requires Token("]", v) == Parsed("]", u)
    ensures ParseMapMatchCase(s) == Parsed(arm, u)
  {
  }

  /** The steps of `map_match_case` on a printed case. */
  lemma MatchCaseSteps(pattern: string, result: string, u: string)
    requires |pattern| > 0 && IsCaseText(pattern) && IsCaseText(result) && NoLeadingSpace(u)
    ensures ParseMapMatchCase("[" + (pattern + (" " + ("=>" + (" " + (result + ("]" + u)))))))
         == Parsed((CasePattern(pattern), Trim(result)), u)
  {
    var inner := pattern + (" " + ("=>" + (" " + (result + ("]" + u)))));
    CaseBrackets(pattern, result, u);
    CasePairOf(pattern, result, u);
    MatchCaseParts("[" + inner, inner, "]" + u, u, (CasePattern(pattern), Trim(result)));
  }

  /** The brackets of a printed case are read as tokens. */
  lemma CaseBrackets(pattern: string, result: string, u: string)
    requires |pattern| > 0 && IsCaseText(pattern) && IsCaseText(result) && NoLeadingSpace(u)
    ensures Token("[", "[" + (pattern + (" " + ("=>" + (" " + (result + ("]" + u)))))))
         == Parsed("[", pattern + (" " + ("=>" + (" " + (result + ("]" + u))))))
    ensures Token("]", "]" + u) == Parsed("]", u)
  {
    MatchCaseBoundaries(pattern, result, u);
    TokenAt("[", pattern + (" " + ("=>" + (" " + (result + ("]" + u))))));
    TokenAt("]", u);
  }

  /** The pair inside `map_match_case` when spaces surround `=>` and
      precede the closing `]`: the result is read up to the first space. */
  lemma SpacedCasePair(pattern: string, s1: string, s2: string, result: string, v: string)
    requires |pattern| > 0 && IsCaseText(pattern) && |result| > 0 && IsCaseText(result)
    requires |s1| > 0 && IsSpaces(s1) && IsSpaces(s2)
    requires v == [] || !InClass(CaseText, v[0])
    ensures ParseCasePair(pattern + (s1 + ("=>" + (s2 + (result + v)))))
         == Parsed((CasePattern(pattern), result), v)
  {
    assert InClass(Multispace, s1[0]);
    MultispaceIsWhitespace(s1[0]);
    TakeWhile1Of(CaseText, pattern, s1 + ("=>" + (s2 + (result + v))));
    CaseTextStart(result, v);
    TokenOf("=>", s1, s2, result + v);
    TakeWhile0Of(CaseText, result, v);
    CaseTextTrim(pattern);
    CaseTextTrim(result);
  }

  /** `map_match_case` with spaces after `[`, around `=>` and before `]`. */
  lemma SpacedMatchCase(b0: string, pattern: string, s1: string, s2: string, result: string, b1: string, u: string)
    requires IsSpaces(b0) && |s1| > 0 && IsSpaces(s1) && IsSpaces(s2) && IsSpaces(b1)
    requires |pattern| > 0 && IsCaseText(pattern) && |result| > 0 && IsCaseText(result)
    requires NoLeadingSpace(u)
    ensures ParseMapMatchCase("[" + (b0 + (pattern + (s1 + ("=>" + (s2 + (result + (b1 + ("]" + u)))))))))
         == Parsed((CasePattern(pattern), result), u)
  {
    var v := b1 + ("]" + u);
    var inner := pattern + (s1 + ("=>" + (s2 + (result + v))));
    CaseTextStart(pattern, s1 + ("=>" + (s2 + (result + v))));
    TokenAfter("[", b0, inner);
    SpacedClose(b1, u);
    SpacedCasePair(pattern, s1, s2, result, v);
    MatchCaseParts("[" + (b0 + inner), inner, v, u, (CasePattern(pattern), result));
  }

  /** Spaces and then `]`: no case text, and the closing token. */
  lemma SpacedClose(b1: string, u: string)
    requires IsSpaces(b1) && NoLeadingSpace(u)
    ensures !InClass(CaseText, (b1 + ("]" + u))[0])
    ensures Token("]", b1 + ("]" + u)) == Parsed("]", u)
  {
    if b1 != [] {
      assert InClass(Multispace, b1[0]);
      MultispaceIsWhitespace(b1[0]);
    }
    assert "]" + ([] + u) == "]" + u;
    TokenOf("]", b1, [], u);
  }

  /** `map_match_case` reads back the pattern the printer wrote. */
  lemma PatternOf(pattern: Option<string>)
    requires WellFormedArm((pattern, []))
    ensures |PrintPattern(pattern)| > 0 && IsCaseText(PrintPattern(pattern))
    ensures CasePattern(PrintPattern(pattern)) == pattern
  {
    if pattern.Some? {
      CaseTextTrim(pattern.value);
    }
  }

  /** `map_match_case` reads a printed case and leaves what follows. */
  lemma MatchCaseOf(arm: MatchArm, u: string)
    requires WellFormedArm(arm) && NoLeadingSpace(u)
    ensures ParseMapMatchCase(PrintArm(arm) + u) == Parsed(arm, u)
  {
    var pattern, result := PrintPattern(arm.0), arm.1;
    PatternOf(arm.0);
    CaseTextTrim(result);
    var s := "[" + (pattern + (" " + ("=>" + (" " + (result + ("]" + u))))));
    assert ParseMapMatchCase(s) == Parsed(arm, u) by {
      MatchCaseSteps(pattern, result, u);
    }
    assert PrintArm(arm) + u == s by {
      MatchCaseText(pattern, result, u);
    }
  }

  /** A printed case starts with `[`. */
  lemma ArmStart(arm: MatchArm, v: string)
    requires WellFormedArm(arm)
    ensures |PrintArm(arm) + v| > 0 && (PrintArm(arm) + v)[0] == '['
  {
  }

  /** What may follow the last printed case: `}`, or a trailing comma and `}`. */
  predicate ArmsEnd(v: string) {
    |v| > 0 && (v[0] == '}' || (v[0] == ',' && |v| > 1 && v[1] == '}'))
  }

  /** `map_match_case` fails on text that does not start with `[`. */
  lemma NoCase(v: string)
    requires |v| > 0 && v[0] != '[' && !InClass(Multispace, v[0])
    ensures ParseMapMatchCase(v) == Backtrack
  {
    Multispace0None(v);
    LiteralMismatch("[", v);
  }

  /** After the last case, the repetition of `separated` stops and keeps the comma. */
  lemma MoreArmsEnd(v: string)
    requires ArmsEnd(v)
    ensures MoreMatchCases(v) == Step([], v)
  {
    if v[0] == ',' {
      TokenAt(",", v[1..]);
      assert v == "," + v[1..];
      NoCase(v[1..]);
    } else {
      Multispace0None(v);
      LiteralMismatch(",", v);
    }
  }

  /** The repetition of `separated` is a comma, a case, and the repetition again. */
  lemma MoreArmsParts(s: string, afterComma: string, arm: MatchArm, w: string, more: Step<seq<MatchArm>>)
    requires Token(",", s) == Parsed(",", afterComma)
    requires ParseMapMatchCase(afterComma) == Parsed(arm, w)
    requires MoreMatchCases(w) == more
    ensures MoreMatchCases(s) == Step([arm] + more.value, more.rest)
  {
  }

  /** Text after a printed case: more cases, or the end of the list. */
  lemma AfterArm(rest: seq<MatchArm>, gap: string, v: string)
    requires WellFormedArms(rest) && ArmsEnd(v)
    ensures NoLeadingSpace(PrintMoreArms(rest, gap) + v)
  {
    if rest != [] {
      assert (PrintMoreArms(rest, gap) + v)[0] == ',';
    } else {
      assert PrintMoreArms(rest, gap) + v == v;
    }
  }

  /** The printed cases after the first, split at their own first case. */
  lemma MoreArmsCons(arms: seq<MatchArm>, gap: string, v: string)
    requires |arms| > 0 && WellFormedArms(arms)
    ensures WellFormedArm(arms[0]) && WellFormedArms(arms[1..])
    ensures PrintMoreArms(arms, gap) + v
         == "," + (gap + (PrintArm(arms[0]) + (PrintMoreArms(arms[1..], gap) + v)))
    ensures arms == [arms[0]] + arms[1..]
  {
    assert WellFormedArm(arms[0]);
    var x, y := PrintArm(arms[0]), PrintMoreArms(arms[1..], gap);
    assert PrintMoreArms(arms, gap) == "," + gap + x + y;
    RegroupArms(",", gap, x, y, v);
  }

  /** Concatenation regrouped to the right. */
  lemma RegroupArms(a: string, b: string, c: string, d: string, e: string)
    ensures a + b + c + d + e == a + (b + (c + (d + e)))
  {
  }

  /** The printed cases, split at the first case. */
  lemma ArmsCons(arms: seq<MatchArm>, gap: string, v: string)
    requires |arms| > 0 && WellFormedArms(arms)
    ensures WellFormedArm(arms[0]) && WellFormedArms(arms[1..])
    ensures PrintArms(arms, gap) + v == PrintArm(arms[0]) + (PrintMoreArms(arms[1..], gap) + v)
    ensures arms == [arms[0]] + arms[1..]
  {
    assert WellFormedArm(arms[0]);
    var x, y := PrintArm(arms[0]), PrintMoreArms(arms[1..], gap);
    assert PrintArms(arms, gap) == x + y;
    assert x + y + v == x + (y + v);
  }

  /** The repetition of `separated` reads the printed cases after the first. */
  lemma {:induction false} MoreArmsOf(arms: seq<MatchArm>, gap: string, v: string)
    requires WellFormedArms(arms) && IsSpaces(gap) && ArmsEnd(v)
    ensures MoreMatchCases(PrintMoreArms(arms, gap) + v) == Step(arms, v)
    decreases |arms|
  {
    if arms == [] {
      assert PrintMoreArms(arms, gap) + v == v;
      MoreArmsEnd(v);
    } else {
      MoreArmsCons(arms, gap, v);
      var arm, rest := arms[0], arms[1..];
      var w := PrintMoreArms(rest, gap) + v;
      var pa := PrintArm(arm) + w;
      assert ParseMapMatchCase(pa) == Parsed(arm, w) by {
        AfterArm(rest, gap, v);
        MatchCaseOf(arm, w);
      }
      assert Token(",", "," + (gap + pa)) == Parsed(",", pa) by {
        ArmStart(arm, w);
        TokenAfter(",", gap, pa);
      }
      assert MoreMatchCases(w) == Step(rest, v) by {
        MoreArmsOf(rest, gap, v);
      }
      MoreArmsParts("," + (gap + pa), pa, arm, w, Step(rest, v));
    }
  }

  /** `separated(0.., map_match_case, ",")` reads the printed cases. */
  lemma ArmsOf(arms: seq<MatchArm>, gap: string, v: string)
    requires WellFormedArms(arms) && IsSpaces(gap) && ArmsEnd(v)
    ensures ParseMatchCases(PrintArms(arms, gap) + v) == Step(arms, v)
  {
    if arms == [] {
      assert PrintArms(arms, gap) + v == v;
      NoCase(v);
    } else {
      ArmsCons(arms, gap, v);
      var arm, rest := arms[0], arms[1..];
      var w := PrintMoreArms(rest, gap) + v;
      assert ParseMapMatchCase(PrintArm(arm) + w) == Parsed(arm, w) by {
        AfterArm(rest, gap, v);
        MatchCaseOf(arm, w);
      }
      assert MoreMatchCases(w) == Step(rest, v) by {
        MoreArmsOf(rest, gap, v);
      }
    }
  }

  /** The opening of `match_expression` is its four tokens and an optional line ending. */
  lemma MatchOpeningParts(s: string, s1: string, s2: string, s3: string, body: string)
    requires Token("match(", s) == Parsed("match(", s1)
    requires Token("@", s1) == Parsed("@", s2)
    requires Token("=>", s2) == Parsed("=>", s3)
    requires Token("{", s3) == Parsed("{", body)
    requires LineEnding(body).Backtrack?
    ensures MatchOpening(s) == Parsed((), body)
  {
  }

  lemma MatchOpeningText(afterBrace: string)
    ensures "match(@ => {" + afterBrace == "match(" + ("@" + (" " + ("=>" + (" " + ("{" + afterBrace)))))
  {
  }

  /** The opening of `match_expression` on `match(@ => {`, the gap, and the body. */
  lemma MatchOpeningOf(gap: string, body: string)
    requires IsSpaces(gap) && |body| > 0 && NoLeadingSpace(body)
    ensures MatchOpening("match(@ => {" + (gap + body)) == Parsed((), body)
  {
    var s3 := "{" + (gap + body);
    var s2 := "=>" + (" " + s3);
    var s1 := "@" + (" " + s2);
    MatchOpeningText(gap + body);
    TokenAt("match(", s1);
    TokenAfter("@", " ", s2);
    TokenAfter("=>", " ", s3);
    TokenAfter("{", gap, body);
    MatchOpeningParts("match(" + s1, s1, s2, s3, body);
  }

  /** The body of `match_expression` is spaces, the cases, an optional comma and spaces. */
  lemma MatchCaseListParts(s: string, arms: seq<MatchArm>, v: string, w: string)
    requires Multispace0(s) == s
    requires ParseMatchCases(s) == Step(arms, v)
    requires OptRest(Literal(",", v), v) == w
    requires Multispace0(w) == w
    ensures MatchCaseList(s) == Step(arms, w)
  {
  }

  /** After the cases: the optional comma is read, and `})` is left. */
  lemma TrailingCommaOf(layout: Layout, u: string)
    ensures ArmsEnd(TrailingComma(layout) + ("})" + u))
    ensures OptRest(Literal(",", TrailingComma(layout) + ("})" + u)), TrailingComma(layout) + ("})" + u))
         == "})" + u
    ensures Multispace0("})" + u) == "})" + u
  {
    var closing := "})" + u;
    assert closing[0] == '}';
    if layout.trailingComma {
      assert TrailingComma(layout) + closing == "," + closing;
      LiteralOf(",", closing);
    } else {
      assert TrailingComma(layout) + closing == closing;
      LiteralMismatch(",", closing);
    }
    Multispace0None(closing);
  }

  /** The body of `match_expression` on the printed cases, the optional comma and `})`. */
  lemma MatchCaseListOf(arms: seq<MatchArm>, layout: Layout, u: string)
    requires WellFormedArms(arms) && IsSpaces(layout.gap)
    ensures MatchCaseList(PrintArms(arms, layout.gap) + (TrailingComma(layout) + ("})" + u)))
         == Step(arms, "})" + u)
  {
    var closing := "})" + u;
    var v := TrailingComma(layout) + closing;
    var body := PrintArms(arms, layout.gap) + v;
    MatchCaseListStart(arms, layout, u);
    Multispace0None(body);
    TrailingCommaOf(layout, u);
    ArmsOf(arms, layout.gap, v);
    MatchCaseListParts(body, arms, v, closing);
  }

  /** The closing of `match_expression` on `})`. */
  lemma MatchClosingOf(u: string)
    requires NoLeadingSpace(u)
    ensures MatchClosing("})" + u) == Parsed((), u)
  {
    assert "})" + u == "}" + (")" + u);
    TokenAt("}", ")" + u);
    TokenAt(")", u);
    assert CloseBraceParen("})" + u) == Parsed((), u);
  }

  /** `match_expression` is its opening, its body and its closing in sequence. */
  lemma MatchExpressionParts(s: string, body: string, v: string, u: string, arms: seq<MatchArm>)
    requires MatchOpening(s) == Parsed((), body)
    requires MatchCaseList(body) == Step(arms, v)
    requires MatchClosing(v) == Parsed((), u)
    ensures ParseMatchExpression(s) == Parsed(arms, u)
  {
  }

  /** `match_expression` reads a printed match expression and leaves what follows. */
  lemma MatchExpressionOf(arms: seq<MatchArm>, layout: Layout, u: string)
    requires WellFormedArms(arms) && IsSpaces(layout.gap) && NoLeadingSpace(u)
    ensures ParseMatchExpression(PrintMatch(arms, layout) + u) == Parsed(arms, u)
  {
    var gap := layout.gap;
    var body := PrintArms(arms, gap) + (TrailingComma(layout) + ("})" + u));
    assert PrintMatch(arms, layout) + u == "match(@ => {" + (gap + body) by {
      PrintMatchText(arms, layout, u);
    }
    assert MatchOpening("match(@ => {" + (gap + body)) == Parsed((), body) by {
      assert |body| > 0 && NoLeadingSpace(body) by {
        MatchCaseListStart(arms, layout, u);
      }
      MatchOpeningOf(gap, body);
    }
    assert MatchCaseList(body) == Step(arms, "})" + u) by {
      MatchCaseListOf(arms, layout, u);
    }
    assert MatchClosing("})" + u) == Parsed((), u) by {
      MatchClosingOf(u);
    }
    MatchExpressionParts("match(@ => {" + (gap + body), body, "})" + u, u, arms);
  }

  /** The body of a printed match expression starts with `[`, `,` or `}`. */
  lemma MatchCaseListStart(arms: seq<MatchArm>, layout: Layout, u: string)
    requires WellFormedArms(arms)
    ensures var body := PrintArms(arms, layout.gap) + (TrailingComma(layout) + ("})" + u));
      |body| > 0 && NoLeadingSpace(body)
  {
    var v := TrailingComma(layout) + ("})" + u);
    if arms != [] {
      ArmsCons(arms, layout.gap, v);
      ArmStart(arms[0], PrintMoreArms(arms[1..], layout.gap) + v);
    } else {
      assert PrintArms(arms, layout.gap) + v == v;
    }
  }

  lemma PrintMatchText(arms: seq<MatchArm>, layout: Layout, u: string)
    requires WellFormedArms(arms)
    ensures PrintMatch(arms, layout) + u
         == "match(@ => {" + (layout.gap + (PrintArms(arms, layout.gap) + (TrailingComma(layout) + ("})" + u))))
  {
  }
}
