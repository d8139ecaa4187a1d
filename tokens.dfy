/**
 * The token set of src/compiler/token/mod.rs, which is the one the lexer
 * (src/compiler/lexer/mod.rs) produces: keywords `fun` and `exit69`, no
 * number literals.
 */
module Tokens {
  import opened Common

  datatype Keyword = Fun | Exit69

  datatype Token =
    | Keyword(keyword: Keyword)
    | Identifier(name: string)
    | LeftBrace
    | RightBrace
    | LeftParentheses
    | RightParentheses
    | LeftSquareBracket
    | RightSquareBracket
    | NewLine

  /** `Keyword::try_from_str`: an exact, case-sensitive match on the spelling. */
  function KeywordFromStr(s: string): (r: Option<Keyword>)
    ensures r.Some? ==> s == Spelling(r.value)
    ensures r.None? ==> forall k: Keyword :: s != Spelling(k)
  {
    match s
    case "fun" => Some(Fun)
    case "exit69" => Some(Exit69)
    case _ => None
  }

  /** The one spelling of each keyword (the inverse of `KeywordFromStr`). */
  function Spelling(k: Keyword): (s: string)
    ensures |s| > 0
  {
    match k
    case Fun => "fun"
    case Exit69 => "exit69"
  }

  /** Distinct keywords come only from distinct strings. */
  lemma KeywordFromStrInjective(s: string, t: string)
    requires KeywordFromStr(s).Some? && KeywordFromStr(s) == KeywordFromStr(t)
    ensures s == t
  {
  }

  /** Near misses are not keywords: `exit` belongs to the other token set, and matching is case-sensitive. */
  lemma KeywordFromStrNearMisses()
    ensures KeywordFromStr("exit") == None
    ensures KeywordFromStr("Fun") == None
    ensures KeywordFromStr("exit6") == None
    ensures KeywordFromStr("") == None
  {
  }
}
