/**
 * The token set of src/compiler/lexer/token.rs, which is the one the parser
 * (src/compiler/parser/mod.rs) consumes: keywords `fun`, `exit`, `int`,
 * `return`, plus number literals and the right arrow.
 */
module LexerTokens {
  import opened Common

  datatype Keyword = Fun | Exit | Int | Return

  datatype Token =
    | Keyword(keyword: Keyword)
    | Identifier(name: string)
    | Number(value: U32)
    | LeftBrace
    | RightBrace
    | LeftParentheses
    | RightParentheses
    | LeftSquareBracket
    | RightSquareBracket
    | NewLine
    | RightArrow

  /** `Keyword::try_from_str`: an exact, case-sensitive match on the spelling. */
  function KeywordFromStr(s: string): (r: Option<Keyword>)
    ensures r.Some? ==> s == Spelling(r.value)
    ensures r.None? ==> forall k: Keyword :: s != Spelling(k)
  {
    match s
    case "fun" => Some(Fun)
    case "exit" => Some(Exit)
    case "int" => Some(Int)
    case "return" => Some(Return)
    case _ => None
  }

  /** The one spelling of each keyword (the inverse of `KeywordFromStr`). */
  function Spelling(k: Keyword): (s: string)
    ensures |s| > 0
  {
    match k
    case Fun => "fun"
    case Exit => "exit"
    case Int => "int"
    case Return => "return"
  }

  /** Distinct keywords come only from distinct strings. */
  lemma KeywordFromStrInjective(s: string, t: string)
    requires KeywordFromStr(s).Some? && KeywordFromStr(s) == KeywordFromStr(t)
    ensures s == t
  {
  }

  /** Matching is case-sensitive and exact: near misses are not keywords. */
  lemma KeywordFromStrNearMisses()
    ensures KeywordFromStr("Exit") == None
    ensures KeywordFromStr("exit69") == None
    ensures KeywordFromStr("Return") == None
    ensures KeywordFromStr("in") == None
  {
  }
}
