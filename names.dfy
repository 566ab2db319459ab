/** GraphQL names, as `apollo_compiler::Name` validates them: the `Name`
    production of the GraphQL specification (October 2021, section 2.1.9). */
module Names {
  import opened Wrappers

  predicate IsAsciiLetter(c: char) {
    'a' <= c <= 'z' || 'A' <= c <= 'Z'
  }

  predicate IsAsciiDigit(c: char) {
    '0' <= c <= '9'
  }

  /** NameStart :: Letter | `_` */
  predicate IsNameStart(c: char) {
    IsAsciiLetter(c) || c == '_'
  }

  /** NameContinue :: Letter | Digit | `_` */
  predicate IsNameContinue(c: char) {
    IsNameStart(c) || IsAsciiDigit(c)
  }

  predicate IsName(s: string) {
    |s| > 0 && IsNameStart(s[0]) && forall i | 1 <= i < |s| :: IsNameContinue(s[i])
  }

  /** A validated name; only `NewName` (Name::new) produces one from raw text. */
  type Name = s: string | IsName(s) witness "_"

  /** `Name::new`: accepts exactly the strings of the Name production. */
  function NewName(s: string): (r: Option<Name>)
    ensures r.Some? <==> IsName(s)
    ensures r.Some? ==> r.value == s
  {
    if IsName(s) then Some(s) else None
  }
}
