/** The brackets of a JavaScript text outside strings and comments, by a recursive lexer
    that jumps from lexeme to lexeme. */
module JsLexer {
  import opened Text
  import opened Brackets

  datatype Token = Token(ch: char, pos: nat)

  predicate IsQuote(c: char) {
    c == '"' || c == '\'' || c == '`'
  }

  /** Just after the closing quote of the literal whose body starts at `p`, if it is closed. */
  function LiteralEnd(code: string, p: nat, quote: char): (end: Option<nat>)
    requires p <= |code|
    ensures end.Some? ==> p < end.value <= |code|
    decreases |code| - p
  {
    if p == |code| then None
    else if code[p] == '\\' then (if p + 1 == |code| then None else LiteralEnd(code, p + 2, quote))
    else if code[p] == quote then Some(p + 1)
    else LiteralEnd(code, p + 1, quote)
  }

  /** The first line break at or after `p`. */
  function LineEnd(code: string, p: nat): (end: Option<nat>)
    requires p <= |code|
    ensures end.Some? ==> p <= end.value < |code|
    decreases |code| - p
  {
    if p == |code| then None else if code[p] == '\n' then Some(p) else LineEnd(code, p + 1)
  }

  /** Just after the first star-slash at or after `p`. */
  function BlockEnd(code: string, p: nat): (end: Option<nat>)
    requires p <= |code|
    ensures end.Some? ==> p < end.value <= |code|
    decreases |code| - p
  {
    if p == |code| then None else if At(code, p, "*/") then Some(p + 2) else BlockEnd(code, p + 1)
  }

  /** Where the lexeme that starts at `p` in code ends, unless it is an unclosed string or comment. */
  function LexemeEnd(code: string, p: nat): (end: Option<nat>)
    requires p < |code|
    ensures end.Some? ==> p < end.value <= |code|
  {
    if At(code, p, "//") then LineEnd(code, p + 2)
    else if At(code, p, "/*") then BlockEnd(code, p + 2)
    else if IsQuote(code[p]) then LiteralEnd(code, p + 1, code[p])
    else Some(p + 1)
  }

  predicate IsBracket(c: char) {
    IsOpener(c) || IsCloser(c)
  }

  /** An unclosed string or comment hides the rest of the text. */
  function Lex(code: string, p: nat): seq<Token>
    requires p <= |code|
    decreases |code| - p
  {
    if p == |code| then []
    else
      (if IsBracket(code[p]) then [Token(code[p], p)] else [])
      + match LexemeEnd(code, p) case Some(end) => Lex(code, end) case None => []
  }

  function Onward(code: string, end: Option<nat>): seq<Token>
    requires end.Some? ==> end.value <= |code|
  {
    if end.Some? then Lex(code, end.value) else []
  }

  function Chars(tokens: seq<Token>): string {
    seq(|tokens|, i requires 0 <= i < |tokens| => tokens[i].ch)
  }

  /** The bracket word of a text. */
  function Word(code: string): string {
    WordFrom(code, 0)
  }

  function WordFrom(code: string, p: nat): string
    requires p <= |code|
  {
    Chars(Lex(code, p))
  }

  lemma WordStep(code: string, p: nat)
    requires p < |code|
    ensures WordFrom(code, p) ==
              (if IsBracket(code[p]) then [code[p]] else "")
              + match LexemeEnd(code, p) case Some(end) => WordFrom(code, end) case None => ""
  {
    hide LexemeEnd;
  }

  /** Line numbers count from one. */
  function LineBreaks(s: string): nat {
    if s == "" then 0 else LineBreaks(s[..|s| - 1]) + (if s[|s| - 1] == '\n' then 1 else 0)
  }

  function LineOf(code: string, p: nat): nat
    requires p <= |code|
  {
    1 + LineBreaks(code[..p])
  }
}
