/**
 * The lexer of src/compiler/lexer/mod.rs. A `Lexer` holds the part of the
 * source text that is still to be read and hands out one token per call of
 * `NextToken`. It produces the token set of src/compiler/token/mod.rs
 * (module `Tokens`), which has no number literals: reading numbers is not
 * implemented, so a digit that does not continue an identifier is an
 * invalid character.
 *
 * The specification is given by pure functions on the remaining text:
 * `AfterWhitespace`, `IdentifierAt`, `Scan` (one step) and `Lex` (the whole
 * text); each method of the class is proved to behave as they say.
 */
module Lexer {
  import opened Common
  import opened Tokens

  datatype LexError =
    | ExpectedChar(expected: char, got: Option<char>)  // `\r` not followed by `\n`
    | InvalidCharacter(c: char)

  /** Rust's `char::is_whitespace`: the Unicode White_Space property, all 25 code points. */
  predicate IsWhitespace(c: char)
  {
    || ('\t' <= c <= '\r') || c == ' ' || c == '\U{0085}' || c == '\U{00A0}' || c == '\U{1680}'
    || ('\U{2000}' <= c <= '\U{200A}') || c == '\U{2028}' || c == '\U{2029}'
    || c == '\U{202F}' || c == '\U{205F}' || c == '\U{3000}'
  }

  /** Whitespace that separates tokens; `\n` and `\r` are tokens themselves. */
  predicate IsSkippable(c: char)
  {
    IsWhitespace(c) && c != '\n' && c != '\r'
  }

  /** `char::is_alphabetic`, restricted to ASCII letters. */
  predicate IsAlphabetic(c: char)
  {
    'a' <= c <= 'z' || 'A' <= c <= 'Z'
  }

  /** `char::is_alphanumeric`, restricted to ASCII letters and digits. */
  predicate IsAlphanumeric(c: char)
  {
    IsAlphabetic(c) || '0' <= c <= '9'
  }

  /** A character that may continue an identifier. */
  predicate IsIdentifierChar(c: char)
  {
    IsAlphanumeric(c) || c == '_'
  }

  /** `[alpha][alnum_]*` */
  predicate IsIdentifier(t: string)
  {
    |t| > 0 && IsAlphabetic(t[0]) && forall i :: 1 <= i < |t| ==> IsIdentifierChar(t[i])
  }

  predicate IsSuffix(r: string, s: string)
  {
    |r| <= |s| && r == s[|s| - |r|..]
  }

  /** What is left of `s` once the leading skippable whitespace is gone. */
  function AfterWhitespace(s: string): (r: string)
    ensures |r| <= |s|
    ensures forall i :: 0 <= i < |s| - |r| ==> IsSkippable(s[i])
    ensures r == [] || !IsSkippable(r[0])
  {
    if |s| > 0 && IsSkippable(s[0]) then AfterWhitespace(s[1..]) else s
  }

  /** The length of the longest prefix of `s` made of identifier characters. */
  function IdentifierRunLength(s: string): (n: nat)
    ensures n <= |s|
    ensures forall i :: 0 <= i < n ==> IsIdentifierChar(s[i])
    ensures n == |s| || !IsIdentifierChar(s[n])
  {
    if |s| > 0 && IsIdentifierChar(s[0]) then 1 + IdentifierRunLength(s[1..]) else 0
  }

  /** The identifier `try_read_identifier` reads at the start of `s`: the maximal `[alpha][alnum_]*` prefix. */
  function IdentifierAt(s: string): (r: Option<string>)
    ensures r.Some? <==> |s| > 0 && IsAlphabetic(s[0])
    ensures r.Some? ==> IsIdentifier(r.value) && r.value <= s
    ensures r.Some? ==> |r.value| == |s| || !IsIdentifierChar(s[|r.value|])
  {
    if |s| > 0 && IsAlphabetic(s[0]) then
      var n := 1 + IdentifierRunLength(s[1..]);
      assert forall i :: 1 <= i < n ==> s[i] == s[1..][i - 1];
      Some(s[..n])
    else
      None
  }

  /** An identifier becomes a keyword token when it spells a keyword. */
  function Classify(name: string): (t: Token)
    ensures t.Keyword? ==> Spelling(t.keyword) == name
    ensures t.Identifier? ==> t.name == name && KeywordFromStr(name).None?
    ensures t.Keyword? || t.Identifier?
  {
    match KeywordFromStr(name)
    case Some(k) => Keyword(k)
    case None => Identifier(name)
  }

  /** One call of `next_token`: its result and the text it leaves unread. */
  datatype Step = Step(result: Result<Option<Token>, LexError>, rest: string)

  /** The step `next_token` takes on the remaining text `s`: skip whitespace, then read one token. */
  function Scan(s: string): (st: Step)
    ensures |st.rest| <= |s|
    ensures st.result.Ok? && st.result.value.Some? ==> |st.rest| < |s|
    ensures st.result == Ok(None) <==> AfterWhitespace(s) == []
    ensures st.result == Ok(None) ==> st.rest == []
  {
    ScanToken(AfterWhitespace(s))
  }

  /** Reads one token at the start of `t`: an identifier or keyword if `t` starts with a letter, else one symbol. */
  function ScanToken(t: string): (st: Step)
    ensures |st.rest| <= |t|
    ensures st.result.Ok? && st.result.value.Some? ==> |st.rest| < |t|
    ensures st.result == Ok(None) <==> t == []
    ensures st.result == Ok(None) ==> st.rest == []
  {
    match IdentifierAt(t)
    case Some(name) => Step(Ok(Some(Classify(name))), t[|name|..])
    case None =>
      if |t| == 0 then Step(Ok(None), t) else ScanSymbol(t[0], t[1..])
  }

  /** The token for the character `c`, which starts no identifier, followed by `rest`. */
  function ScanSymbol(c: char, rest: string): (st: Step)
    ensures |st.rest| <= |rest|
    ensures st.result != Ok(None)
  {
    match c
    case '[' => Step(Ok(Some(LeftSquareBracket)), rest)
    case ']' => Step(Ok(Some(RightSquareBracket)), rest)
    case '(' => Step(Ok(Some(LeftParentheses)), rest)
    case ')' => Step(Ok(Some(RightParentheses)), rest)
    case '{' => Step(Ok(Some(LeftBrace)), rest)
    case '}' => Step(Ok(Some(RightBrace)), rest)
    case ';' => Step(Ok(Some(NewLine)), rest)
    case '\n' => Step(Ok(Some(NewLine)), rest)
    case '\r' => AfterCarriageReturn(rest)
    case _ => Step(Err(InvalidCharacter(c)), rest)
  }

  /** `expect_char('\n')` after a `\r`: the `\n` is consumed, as is any other character found instead. */
  function AfterCarriageReturn(rest: string): (st: Step)
    ensures |st.rest| <= |rest|
    ensures st.result != Ok(None)
  {
    if |rest| == 0 then Step(Err(ExpectedChar('\n', None)), rest)
    else if rest[0] != '\n' then Step(Err(ExpectedChar('\n', Some(rest[0]))), rest[1..])
    else Step(Ok(Some(NewLine)), rest[1..])
  }

  /** `tokenize`: the successive results of `next_token` up to the first `None`, or the first error. */
  function Lex(s: string): (r: Result<seq<Token>, LexError>)
    decreases |s|
  {
    var st := Scan(s);
    match st.result
    case Err(e) => Err(e)
    case Ok(None) => Ok([])
    case Ok(Some(t)) => Prepend([t], Lex(st.rest))
  }

  function Prepend(ts: seq<Token>, r: Result<seq<Token>, LexError>): Result<seq<Token>, LexError>
  {
    match r
    case Ok(us) => Ok(ts + us)
    case Err(e) => Err(e)
  }

  class Lexer {
    /** `remaining_src_code`: the text not read yet. */
    var remaining: string

    constructor (src: string)
      ensures remaining == src
    {
      remaining := src;
    }

    function PeekChar(): (c: Option<char>)
      reads this
      ensures c.None? <==> remaining == []
      ensures c.Some? ==> c.value == remaining[0]
    {
      if remaining == [] then None else Some(remaining[0])
    }

    method EatChar() returns (c: Option<char>)
      modifies this
      ensures c == old(PeekChar())
      ensures remaining == if old(remaining) == [] then [] else old(remaining)[1..]
    {
      if remaining == [] {
        c := None;
      } else {
        c := Some(remaining[0]);
        remaining := remaining[1..];
      }
    }

    /** Eats one character and fails unless it is `expected`; the character is consumed either way. */
    method ExpectChar(expected: char) returns (r: Result<(), LexError>)
      modifies this
      ensures r.Ok? <==> old(PeekChar()) == Some(expected)
      ensures r.Err? ==> r.error == ExpectedChar(expected, old(PeekChar()))
      ensures remaining == if old(remaining) == [] then [] else old(remaining)[1..]
    {
      var c := EatChar();
      if c != Some(expected) {
        r := Err(ExpectedChar(expected, c));
      } else {
        r := Ok(());
      }
    }

    method SkipWhitespaces()
      modifies this
      ensures remaining == AfterWhitespace(old(remaining))
    {
      while PeekChar().Some? && IsSkippable(PeekChar().value)
        invariant AfterWhitespace(remaining) == AfterWhitespace(old(remaining))
        decreases |remaining|
      {
        var _ := EatChar();
      }
    }

    method TryReadIdentifier() returns (r: Option<string>)
      modifies this
      ensures r == IdentifierAt(old(remaining))
      ensures remaining == if r.Some? then old(remaining)[|r.value|..] else old(remaining)
    {
      var first := PeekChar();
      if first.Some? && IsAlphabetic(first.value) {
        var _ := EatChar();
        var identifier := [first.value];
        while PeekChar().Some? && IsIdentifierChar(PeekChar().value)
          invariant old(remaining) == identifier + remaining
          invariant |identifier| >= 1 && identifier[0] == first.value
          invariant forall i :: 1 <= i < |identifier| ==> IsIdentifierChar(identifier[i])
          decreases |remaining|
        {
          var c := EatChar();
          identifier := identifier + [c.value];
        }
        ghost var s := old(remaining);
        assert s[1..] == identifier[1..] + remaining;
        RunLengthUnique(s[1..], |identifier| - 1);
        assert identifier == s[..|identifier|];
        r := Some(identifier);
      } else {
        r := None;
      }
    }

    method NextToken() returns (r: Result<Option<Token>, LexError>)
      modifies this
      ensures r == Scan(old(remaining)).result
      ensures remaining == Scan(old(remaining)).rest
    {
      SkipWhitespaces();
      var identifier := TryReadIdentifier();
      if identifier.Some? {
        var keyword := KeywordFromStr(identifier.value);
        var token := if keyword.Some? then Keyword(keyword.value) else Identifier(identifier.value);
        return Ok(Some(token));
      }
      var c := EatChar();
      if c.None? {
        return Ok(None);
      }
      match c.value
      case '[' => r := Ok(Some(LeftSquareBracket));
      case ']' => r := Ok(Some(RightSquareBracket));
      case '(' => r := Ok(Some(LeftParentheses));
      case ')' => r := Ok(Some(RightParentheses));
      case '{' => r := Ok(Some(LeftBrace));
      case '}' => r := Ok(Some(RightBrace));
      case ';' => r := Ok(Some(NewLine));
      case '\n' => r := Ok(Some(NewLine));
      case '\r' =>
        var e := ExpectChar('\n');
        if e.Err? {
          return Err(e.error);
        }
        r := Ok(Some(NewLine));
      case invalid => r := Err(InvalidCharacter(invalid));
    }

    /** Runs `next_token` until it yields `None` or fails. */
    method Tokenize() returns (r: Result<seq<Token>, LexError>)
      modifies this
      ensures r == Lex(old(remaining))
    {
      var tokens: seq<Token> := [];
      PrependNothing(Lex(remaining));
      while true
        invariant Lex(old(remaining)) == Prepend(tokens, Lex(remaining))
        decreases |remaining|
      {
        ghost var before := remaining;
        var next := NextToken();
        if next.Err? {
          LexFails(before);
          return Err(next.error);
        } else if next.value.None? {
          LexEnd(before);
          assert tokens + [] == tokens;
          return Ok(tokens);
        }
        ghost var tail := Lex(remaining);
        LexNext(before);
        PrependTwice(tokens, [next.value.value], tail);
        tokens := tokens + [next.value.value];
      }
    }
  }

  /** The identifier run length is the unique length whose prefix is a run that cannot be extended. */
  lemma RunLengthUnique(s: string, m: nat)
    requires m <= |s|
    requires forall i :: 0 <= i < m ==> IsIdentifierChar(s[i])
    requires m == |s| || !IsIdentifierChar(s[m])
    ensures IdentifierRunLength(s) == m
  {
  }

  /** Scanning only ever consumes: what is left is a suffix of what there was. */
  lemma ScanConsumes(s: string)
    ensures IsSuffix(AfterWhitespace(s), s)
    ensures IsSuffix(Scan(s).rest, s)
  {
    var t := AfterWhitespace(s);
    AfterWhitespaceSuffix(s);
    ScanTokenSuffix(t);
    SuffixTransitive(Scan(s).rest, t, s);
  }

  lemma {:induction false} AfterWhitespaceSuffix(s: string)
    ensures IsSuffix(AfterWhitespace(s), s)
    decreases |s|
  {
    if |s| > 0 && IsSkippable(s[0]) {
      AfterWhitespaceSuffix(s[1..]);
      SuffixTransitive(AfterWhitespace(s), s[1..], s);
    }
  }

  lemma ScanTokenSuffix(t: string)
    ensures IsSuffix(ScanToken(t).rest, t)
  {
    if IdentifierAt(t).None? && |t| > 0 {
      var rest := ScanSymbol(t[0], t[1..]).rest;
      assert rest == t[1..] || (|t| > 1 && rest == t[2..]);
    }
  }

  lemma SuffixTransitive(a: string, b: string, c: string)
    requires IsSuffix(a, b) && IsSuffix(b, c)
    ensures IsSuffix(a, c)
  {
    assert c[|c| - |b|..][|b| - |a|..] == c[|c| - |a|..];
  }

  lemma LexNext(s: string)
    requires Scan(s).result.Ok? && Scan(s).result.value.Some?
    ensures Lex(s) == Prepend([Scan(s).result.value.value], Lex(Scan(s).rest))
  {
  }

  lemma LexEnd(s: string)
    requires Scan(s).result == Ok(None)
    ensures Lex(s) == Ok([])
  {
  }

  lemma LexFails(s: string)
    requires Scan(s).result.Err?
    ensures Lex(s) == Err(Scan(s).result.error)
  {
  }

  lemma PrependNothing(r: Result<seq<Token>, LexError>)
    ensures Prepend([], r) == r
  {
    if r.Ok? {
      assert [] + r.value == r.value;
    }
  }

  lemma PrependTwice(ts: seq<Token>, us: seq<Token>, r: Result<seq<Token>, LexError>)
    ensures Prepend(ts, Prepend(us, r)) == Prepend(ts + us, r)
  {
    if r.Ok? {
      assert ts + (us + r.value) == (ts + us) + r.value;
    }
  }

  // ---------------------------------------------------------------------------
  // Properties of the specification
  // ---------------------------------------------------------------------------

  /** On empty or exhausted input `next_token` yields `None`, and keeps yielding `None`. */
  lemma ScanExhausted(s: string)
    requires AfterWhitespace(s) == []
    ensures Scan(s) == Step(Ok(None), [])
    ensures Scan(Scan(s).rest) == Step(Ok(None), [])
    ensures Lex(s) == Ok([])
  {
  }

  lemma {:induction false} AfterWhitespaceSkips(w: string, s: string)
    requires forall i :: 0 <= i < |w| ==> IsSkippable(w[i])
    ensures AfterWhitespace(w + s) == AfterWhitespace(s)
  {
    if w != [] {
      assert (w + s)[1..] == w[1..] + s;
      AfterWhitespaceSkips(w[1..], s);
    } else {
      assert w + s == s;
    }
  }

  /** Whitespace other than `\n` and `\r` in front of a token produces nothing and changes nothing. */
  lemma ScanSkipsWhitespace(w: string, s: string)
    requires forall i :: 0 <= i < |w| ==> IsSkippable(w[i])
    ensures Scan(w + s) == Scan(s)
    ensures Lex(w + s) == Lex(s)
  {
    AfterWhitespaceSkips(w, s);
  }

  /**
   * A token starting with a letter is the maximal identifier run there: a keyword token when the
   * run spells a keyword, otherwise an identifier token carrying exactly the text consumed.
   */
  lemma ScanIdentifier(s: string)
    requires var t := AfterWhitespace(s); |t| > 0 && IsAlphabetic(t[0])
    ensures var t := AfterWhitespace(s);
            var st := Scan(s);
            var name := t[..|t| - |st.rest|];
            && |st.rest| < |t|
            && t == name + st.rest
            && st.result == Ok(Some(Classify(name)))
            && IsIdentifier(name)
            && (st.rest == [] || !IsIdentifierChar(st.rest[0]))
  {
    var t := AfterWhitespace(s);
    var name := IdentifierAt(t).value;
    assert t == name + t[|name|..];
  }

  /** At a character that is not a letter, `next_token` reads one symbol. */
  lemma ScanSymbolAt(s: string)
    requires var t := AfterWhitespace(s); |t| > 0 && !IsAlphabetic(t[0])
    ensures var t := AfterWhitespace(s); Scan(s) == ScanSymbol(t[0], t[1..])
  {
  }

  /** `\n` and `;` are line breaks. */
  lemma ScanNewLine(s: string)
    requires var t := AfterWhitespace(s); |t| > 0 && (t[0] == '\n' || t[0] == ';')
    ensures var t := AfterWhitespace(s); Scan(s) == Step(Ok(Some(NewLine)), t[1..])
  {
    ScanSymbolAt(s);
  }

  /** `\r\n` is one line break; a `\r` followed by anything else, or by nothing, is an error. */
  lemma ScanCarriageReturn(s: string)
    requires var t := AfterWhitespace(s); |t| > 0 && t[0] == '\r'
    ensures var t := AfterWhitespace(s);
            if |t| > 1 && t[1] == '\n' then Scan(s) == Step(Ok(Some(NewLine)), t[2..])
            else Scan(s).result == Err(ExpectedChar('\n', if |t| > 1 then Some(t[1]) else None))
  {
    ScanSymbolAt(s);
    var t := AfterWhitespace(s);
    CarriageReturnSymbol(t[1..]);
    if |t| > 1 {
      assert t[1..][0] == t[1];
      assert t[1..][1..] == t[2..];
    }
  }

  lemma CarriageReturnSymbol(rest: string)
    ensures if |rest| > 0 && rest[0] == '\n' then ScanSymbol('\r', rest) == Step(Ok(Some(NewLine)), rest[1..])
            else ScanSymbol('\r', rest).result == Err(ExpectedChar('\n', if |rest| > 0 then Some(rest[0]) else None))
  {
  }

  /** Every character that starts no token is rejected, one character consumed. */
  lemma ScanInvalid(s: string)
    requires var t := AfterWhitespace(s);
             && |t| > 0 && !IsAlphabetic(t[0])
             && t[0] != '[' && t[0] != ']' && t[0] != '(' && t[0] != ')' && t[0] != '{' && t[0] != '}'
             && t[0] != ';' && t[0] != '\n' && t[0] != '\r'
    ensures var t := AfterWhitespace(s); Scan(s) == Step(Err(InvalidCharacter(t[0])), t[1..])
  {
    ScanSymbolAt(s);
  }

  /** Numbers are not read yet: a digit at the start of a token is an invalid character. */
  lemma ScanDigit(s: string)
    requires var t := AfterWhitespace(s); |t| > 0 && '0' <= t[0] <= '9'
    ensures var t := AfterWhitespace(s); Scan(s).result == Err(InvalidCharacter(t[0]))
  {
    ScanInvalid(s);
  }

  /** Each token consumes at least one character, so there are never more tokens than characters. */
  lemma {:induction false} LexLength(s: string)
    requires Lex(s).Ok?
    ensures |Lex(s).value| <= |s|
    decreases |s|
  {
    var st := Scan(s);
    if st.result.Ok? && st.result.value.Some? {
      LexNext(s);
      LexLength(st.rest);
    } else {
      LexEnd(s);
    }
  }

  // ---------------------------------------------------------------------------
  // Round trip: rendering well-formed tokens as text and lexing that text back
  // ---------------------------------------------------------------------------

  /** The source text of a token. */
  function Text(t: Token): string
  {
    match t
    case Keyword(k) => Spelling(k)
    case Identifier(name) => name
    case LeftBrace => "{"
    case RightBrace => "}"
    case LeftParentheses => "("
    case RightParentheses => ")"
    case LeftSquareBracket => "["
    case RightSquareBracket => "]"
    case NewLine => "\n"
  }

  /** A token some text lexes to: an identifier is `[alpha][alnum_]*` and spells no keyword. */
  predicate WellFormedToken(t: Token)
  {
    t.Identifier? ==> IsIdentifier(t.name) && KeywordFromStr(t.name).None?
  }

  predicate WellFormed(ts: seq<Token>)
  {
    forall i :: 0 <= i < |ts| ==> WellFormedToken(ts[i])
  }

  /** Each token's text followed by a space. */
  function Render(ts: seq<Token>): string
  {
    if ts == [] then "" else Text(ts[0]) + " " + Render(ts[1..])
  }

  /** An identifier followed by a character that cannot continue it is read exactly. */
  lemma IdentifierAtRun(name: string, rest: string)
    requires IsIdentifier(name)
    requires rest == [] || !IsIdentifierChar(rest[0])
    ensures IdentifierAt(name + rest) == Some(name)
  {
    var s := name + rest;
    var r := IdentifierAt(s).value;
    assert r == s[..|r|];
    assert s[..|name|] == name;
  }

  lemma KeywordSpelling(k: Keyword)
    ensures IsIdentifier(Spelling(k)) && KeywordFromStr(Spelling(k)) == Some(k)
  {
    match k
    case Fun =>
    case Exit69 =>
  }

  /** The text of a token, followed by a character that cannot continue it, scans as that token. */
  lemma ScanText(t: Token, rest: string)
    requires WellFormedToken(t)
    requires rest == [] || !IsIdentifierChar(rest[0])
    ensures Scan(Text(t) + rest) == Step(Ok(Some(t)), rest)
  {
    var s := Text(t) + rest;
    if t.Keyword? {
      KeywordSpelling(t.keyword);
    }
    assert s[0] == Text(t)[0];
    assert AfterWhitespace(s) == s;
    if t.Keyword? || t.Identifier? {
      IdentifierAtRun(Text(t), rest);
      assert s[|Text(t)|..] == rest;
    } else {
      assert s[1..] == rest;
    }
  }

  /** Lexing a token's text followed by a character that cannot continue it. */
  lemma LexText(t: Token, rest: string)
    requires WellFormedToken(t)
    requires rest == [] || !IsIdentifierChar(rest[0])
    ensures Lex(Text(t) + rest) == Prepend([t], Lex(rest))
  {
    ScanText(t, rest);
    LexNext(Text(t) + rest);
  }

  lemma WellFormedTail(ts: seq<Token>)
    requires WellFormed(ts) && ts != []
    ensures WellFormedToken(ts[0]) && WellFormed(ts[1..])
  {
    forall i | 0 <= i < |ts[1..]| ensures ts[1..][i] == ts[i + 1] { }
  }

  lemma LexTextSpace(t: Token, rest: string)
    requires WellFormedToken(t)
    ensures Lex(Text(t) + " " + rest) == Prepend([t], Lex(rest))
  {
    assert Text(t) + " " + rest == Text(t) + (" " + rest);
    LexText(t, " " + rest);
    ScanSkipsWhitespace(" ", rest);
  }

  /** Lexing the rendering of well-formed tokens gives those tokens back. */
  lemma {:induction false} LexRender(ts: seq<Token>)
    requires WellFormed(ts)
    ensures Lex(Render(ts)) == Ok(ts)
  {
    if ts == [] {
      ScanExhausted(Render(ts));
    } else {
      WellFormedTail(ts);
      LexRender(ts[1..]);
      LexRenderCons(ts[0], ts[1..]);
      assert [ts[0]] + ts[1..] == ts;
    }
  }

  /** One more token in front of a rendering that lexes back. */
  lemma LexRenderCons(t: Token, us: seq<Token>)
    requires WellFormedToken(t) && Lex(Render(us)) == Ok(us)
    ensures Lex(Render([t] + us)) == Ok([t] + us)
  {
    RenderCons(t, us);
    LexTokenThen(t, Render(us), us);
  }

  lemma RenderCons(t: Token, us: seq<Token>)
    ensures Render([t] + us) == Text(t) + " " + Render(us)
  {
    assert ([t] + us)[1..] == us;
  }

  /** A token's text and a space in front of text that lexes to `us`. */
  lemma LexTokenThen(t: Token, rest: string, us: seq<Token>)
    requires WellFormedToken(t) && Lex(rest) == Ok(us)
    ensures Lex(Text(t) + " " + rest) == Ok([t] + us)
  {
    LexTextSpace(t, rest);
  }

  // ---------------------------------------------------------------------------
  // The scenarios of the module's unit tests
  // ---------------------------------------------------------------------------

  lemma EmptySource(s: string)
    requires s == ""
    ensures Scan(s) == Step(Ok(None), s)
    ensures Scan(Scan(s).rest) == Step(Ok(None), s)
    ensures Lex(s) == Ok([])
  {
    ScanExhausted(s);
  }
}
