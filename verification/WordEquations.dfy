/** The bracket word of every text, spelled out in plain characters: which lexemes there are,
    what starts and ends them, and what each contributes. */
module WordEquations {
  import opened Text
  import opened Brackets
  import opened JsLexer
  import opened BracketChecker
  import opened Opacity

  // ----- Taking a text apart -----

  /** Reading on from `p` is reading the rest as a text of its own. */
  lemma WordOfRest(code: string, p: nat)
    requires p <= |code|
    ensures WordFrom(code, p) == Word(code[p..])
  {
    hide Lex;
    LexShifted(code[..p], code[p..], 0);
    assert code[..p] + code[p..] == code;
  }

  lemma WordEmpty()
    ensures Word("") == ""
  {
  }

  /** A character that starts no string and no comment contributes itself if it is one of the
      six brackets, and nothing otherwise. */
  lemma WordOfPlain(c: char, x: string)
    requires c != '"' && c != '\'' && c != '`' && !(c == '/' && x != "" && (x[0] == '/' || x[0] == '*'))
    ensures Word([c] + x) ==
              (if c == '(' || c == ')' || c == '{' || c == '}' || c == '[' || c == ']' then [c] else "") + Word(x)
  {
    hide WordFrom, LexemeEnd, LineEnd, BlockEnd, LiteralEnd, At;
    var code := [c] + x;
    ReadLexeme(code, 0);
    WordStep(code, 0);
    WordOfRest(code, 1);
    assert code[1..] == x;
  }

  /** A closed string contributes nothing, and an unclosed one hides the rest. */
  lemma WordOfLiteral(q: char, body: string, x: string)
    requires (q == '"' || q == '\'' || q == '`') && LiteralBody(body, q)
    ensures Word([q] + body + [q] + x) == Word(x)
    ensures Word([q] + body) == "" && Word([q] + body + "\\") == ""
  {
    hide Word, LiteralBody, LiteralEnd;
    var t := Quoted(q, body);
    InertWord(t);
    WordComposes(Render(t), x);
    var open, escaping := [q] + body, [q] + body + "\\";
    assert open[1..] == body && escaping[1..|escaping| - 1] == body;
    UnclosedLiteral(open, q);
    UnclosedLiteral(escaping, q);
  }

  lemma UnclosedLiteral(code: string, q: char)
    requires (q == '"' || q == '\'' || q == '`') && code != "" && code[0] == q
    requires LiteralBody(code[1..], q) || (|code| > 1 && code[|code| - 1] == '\\' && LiteralBody(code[1..|code| - 1], q))
    ensures Word(code) == ""
  {
    hide Word, LiteralBody, LiteralEnd, LexemeEnd;
    LiteralStaysOpen(code, 1, q);
    ReadLexeme(code, 0);
    UnclosedWord(code);
  }

  lemma {:induction false} LiteralStaysOpen(code: string, p: nat, q: char)
    requires p <= |code| && IsQuote(q)
    ensures LiteralBody(code[p..], q) ==> LiteralEnd(code, p, q) == None
    ensures p < |code| && code[|code| - 1] == '\\' && LiteralBody(code[p..|code| - 1], q) ==> LiteralEnd(code, p, q) == None
    decreases |code| - p
  {
    if p < |code| {
      var rest, init := code[p..], code[p..|code| - 1];
      assert rest[0] == code[p] && rest[1..] == code[p + 1..];
      assert init != "" ==> init[0] == code[p] && init[1..] == code[p + 1..|code| - 1];
      LiteralStaysOpen(code, p + 1, q);
      if p + 2 <= |code| {
        assert rest[2..] == code[p + 2..];
        assert |init| >= 2 ==> init[2..] == code[p + 2..|code| - 1];
        LiteralStaysOpen(code, p + 2, q);
      }
    }
  }

  /** A text that is one unclosed string or comment has no brackets. */
  lemma UnclosedWord(code: string)
    requires code != "" && LexemeEnd(code, 0) == None
    ensures Word(code) == ""
  {
    hide Lex, LexemeEnd;
    LexStep(code, 0);
    ReadLexeme(code, 0);
  }

  /** A line comment lasts to the end of the line, or of the text. */
  lemma WordOfLine(body: string, x: string)
    requires '\n' !in body
    ensures Word("//" + body + "\n" + x) == Word(x) && Word("//" + body) == ""
  {
    hide Word;
    var t := Line(body);
    InertWord(t);
    WordComposes(Render(t), x);
    var open := "//" + body;
    ReadLexeme(open, 0);
    assert open[2..] == body;
    NoLineEnd(open, 2);
    UnclosedWord(open);
  }

  lemma {:induction false} NoLineEnd(code: string, p: nat)
    requires p <= |code| && '\n' !in code[p..]
    ensures LineEnd(code, p) == None
    decreases |code| - p
  {
    if p < |code| {
      assert code[p] in code[p..] && code[p + 1..] == code[p..][1..];
      NoLineEnd(code, p + 1);
    }
  }

  /** No star is followed by a slash. */
  predicate NoStarSlash(body: string) {
    forall p :: 0 <= p < |body| - 1 ==> !(body[p] == '*' && body[p + 1] == '/')
  }

  /** A block comment lasts to the first star-slash, or to the end of the text. */
  lemma WordOfBlock(body: string, x: string)
    requires NoStarSlash(body)
    ensures Word("/*" + body + "*/" + x) == Word(x) && Word("/*" + body) == ""
  {
    hide Word;
    var t := Block(body);
    forall p | 0 <= p < |body|
      ensures !At(body, p, "*/")
    {
      ReadLexeme(body, p);
    }
    InertWord(t);
    WordComposes(Render(t), x);
    var open := "/*" + body;
    ReadLexeme(open, 0);
    NoBlockEnd(open, body, 2);
    UnclosedWord(open);
  }

  lemma {:induction false} NoBlockEnd(code: string, body: string, p: nat)
    requires code == "/*" + body && NoStarSlash(body) && 2 <= p <= |code|
    ensures BlockEnd(code, p) == None
    decreases |code| - p
  {
    if p < |code| {
      ReadLexeme(code, p);
      if p + 1 < |code| {
        assert code[p] == body[p - 2] && code[p + 1] == body[p - 1];
      }
      NoBlockEnd(code, body, p + 1);
    }
  }

  // ----- Which characters do what -----

  /** Exactly the two quotes and the backtick open a string, and close it again. */
  lemma QuotesExactly(c: char)
    ensures Word([c, '(', c]) == "" <==> c == '"' || c == '\'' || c == '`'
  {
    hide Word;
    WordEmpty();
    if c == '"' || c == '\'' || c == '`' {
      WordOfLiteral(c, "(", "");
      assert [c] + "(" + [c] + "" == [c, '(', c];
    } else {
      WordOfPlain(c, ['(', c]);
      WordOfPlain('(', [c]);
      assert [c] + ['(', c] == [c, '(', c] && ['('] + [c] == ['(', c];
    }
  }

  /** Inside a string, exactly the backslash escapes a quote. */
  lemma EscapesExactly(q: char, c: char)
    requires (q == '"' || q == '\'' || q == '`') && c != q
    ensures Word([q, c, q, '(']) == "" <==> c == '\\'
  {
    hide Word;
    WordEmpty();
    if c == '\\' {
      var body := [c, q, '('];
      assert body[2..] == "(" && "("[1..] == "";
      assert LiteralBody(body, q);
      WordOfLiteral(q, body, "");
      assert [q] + body == [q, c, q, '('];
    } else {
      assert [c][1..] == "";
      WordOfLiteral(q, [c], "(");
      WordOfPlain('(', "");
      assert [q] + [c] + [q] + "(" == [q, c, q, '('] && ['('] + "" == "(";
    }
  }

  /** Exactly slash-slash and slash-star open a comment. */
  lemma CommentsExactly(c: char, d: char)
    requires forall e :: e in [c, d] ==> e != '"' && e != '\'' && e != '`'
    ensures Word([c, d, '(']) == "" <==> c == '/' && (d == '/' || d == '*')
  {
    hide Word;
    WordEmpty();
    assert c in [c, d] && d in [c, d];
    if c == '/' && d == '/' {
      WordOfLine("(", "");
      assert "//" + "(" == [c, d, '('];
    } else if c == '/' && d == '*' {
      WordOfBlock("(", "");
      assert "/*" + "(" == [c, d, '('];
    } else {
      WordOfPlain(c, [d, '(']);
      WordOfPlain(d, "(");
      WordOfPlain('(', "");
      assert [c] + [d, '('] == [c, d, '('] && [d] + "(" == [d, '('] && ['('] + "" == "(";
    }
  }

  /** Exactly a line break ends a line comment, and star-slash a block comment. */
  lemma CommentEndsExactly(c: char, d: char)
    ensures Word(['/', '/', c, '(']) == "(" <==> c == '\n'
    ensures Word(['/', '*', c, d, '(']) == "(" <==> c == '*' && d == '/'
  {
    hide Word;
    WordEmpty();
    WordOfPlain('(', "");
    assert ['('] + "" == "(";
    if c == '\n' {
      WordOfLine("", "(");
      assert "//" + "" + "\n" + "(" == ['/', '/', c, '('];
    } else {
      WordOfLine([c, '('], "");
      assert "//" + [c, '('] == ['/', '/', c, '('];
    }
    if c == '*' && d == '/' {
      WordOfBlock("", "(");
      assert "/*" + "" + "*/" + "(" == ['/', '*', c, d, '('];
    } else {
      WordOfBlock([c, d, '('], "");
      assert "/*" + [c, d, '('] == ['/', '*', c, d, '('];
    }
  }

  /** Lines are counted from one, by the line breaks before a position. */
  lemma {:induction false} LinesCounted(code: string, p: nat)
    requires p <= |code|
    ensures LineOf(code, p) == 1 + multiset(code[..p])['\n']
  {
    if p > 0 {
      LinesCounted(code, p - 1);
      LineAfter(code, p - 1);
      assert code[..p] == code[..p - 1] + [code[p - 1]];
    }
  }

  /** A mismatch names an open bracket, its own partner, and another closing bracket. */
  lemma MismatchNamesPartner(code: string, r: Report)
    requires Justified(code, r) && r.Mismatched?
    ensures (r.top == '(' && r.expected == ')') || (r.top == '{' && r.expected == '}') || (r.top == '[' && r.expected == ']')
    ensures r.ch != r.expected
  {
    hide FirstOffender, InnermostOpen, Names;
  }
}
