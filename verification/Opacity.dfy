/** Strings and comments are opaque to the bracket checker: inserting one where the text is
    in code changes nothing but line numbers. */
module Opacity {
  import opened Text
  import opened Brackets
  import opened JsLexer
  import opened BracketChecker

  // ----- Texts that end in code -----

  /** Read from `p`, the text is a sequence of lexemes that no continuation can change: all
      strings and comments are closed and no lone slash ends it. */
  predicate EndsInCode(code: string, p: nat)
    requires p <= |code|
    decreases |code| - p
  {
    p == |code| ||
    (LexemeEnd(code, p).Some? && (code[p] == '/' ==> p + 1 < |code|) && EndsInCode(code, LexemeEnd(code, p).value))
  }

  lemma {:induction false} LiteralEndExtended(a: string, x: string, p: nat, quote: char)
    requires p <= |a|
    ensures LiteralEnd(a, p, quote).Some? ==> LiteralEnd(a + x, p, quote) == LiteralEnd(a, p, quote)
    decreases |a| - p
  {
    if p < |a| && a[p] == '\\' {
      if p + 1 < |a| {
        LiteralEndExtended(a, x, p + 2, quote);
      }
    } else if p < |a| && a[p] != quote {
      LiteralEndExtended(a, x, p + 1, quote);
    }
  }

  lemma {:induction false} LineEndExtended(a: string, x: string, p: nat)
    requires p <= |a|
    ensures LineEnd(a, p).Some? ==> LineEnd(a + x, p) == LineEnd(a, p)
    decreases |a| - p
  {
    if p < |a| && a[p] != '\n' {
      LineEndExtended(a, x, p + 1);
    }
  }

  lemma {:induction false} BlockEndExtended(a: string, x: string, p: nat)
    requires p <= |a|
    ensures BlockEnd(a, p).Some? ==> BlockEnd(a + x, p) == BlockEnd(a, p)
    decreases |a| - p
  {
    if p < |a| {
      if p + 2 <= |a| {
        assert (a + x)[p..p + 2] == a[p..p + 2];
      } else {
        assert BlockEnd(a, p + 1) == None;
      }
      BlockEndExtended(a, x, p + 1);
    }
  }

  lemma LexemeEndExtended(a: string, x: string, p: nat)
    requires p < |a| && LexemeEnd(a, p).Some? && (a[p] == '/' ==> p + 1 < |a|)
    ensures LexemeEnd(a + x, p) == LexemeEnd(a, p)
  {
    hide LexemeEnd, LineEnd, BlockEnd, LiteralEnd, At;
    ReadLexeme(a, p);
    ReadLexeme(a + x, p);
    assert (a + x)[p] == a[p] && (p + 1 < |a| ==> (a + x)[p + 1] == a[p + 1]);
    if p + 1 < |a| {
      LiteralEndExtended(a, x, p + 1, a[p]);
    }
    if p + 2 <= |a| {
      LineEndExtended(a, x, p + 2);
      BlockEndExtended(a, x, p + 2);
    }
  }

  // ----- Lexing a suffix -----

  /** The same end, seen from `n` characters earlier. */
  function Later(end: Option<nat>, n: nat): Option<nat> {
    if end.Some? then Some(end.value + n) else None
  }

  lemma {:induction false} LiteralEndShifted(a: string, x: string, p: nat, quote: char)
    requires p <= |x|
    ensures LiteralEnd(a + x, |a| + p, quote) == Later(LiteralEnd(x, p, quote), |a|)
    decreases |x| - p
  {
    if p < |x| {
      if p + 1 < |x| {
        LiteralEndShifted(a, x, p + 2, quote);
      }
      LiteralEndShifted(a, x, p + 1, quote);
    }
  }

  lemma {:induction false} LineEndShifted(a: string, x: string, p: nat)
    requires p <= |x|
    ensures LineEnd(a + x, |a| + p) == Later(LineEnd(x, p), |a|)
    decreases |x| - p
  {
    if p < |x| {
      LineEndShifted(a, x, p + 1);
    }
  }

  lemma {:induction false} BlockEndShifted(a: string, x: string, p: nat)
    requires p <= |x|
    ensures BlockEnd(a + x, |a| + p) == Later(BlockEnd(x, p), |a|)
    decreases |x| - p
  {
    if p < |x| {
      if p + 2 <= |x| {
        assert (a + x)[|a| + p..|a| + p + 2] == x[p..p + 2];
      }
      BlockEndShifted(a, x, p + 1);
    }
  }

  lemma LexemeEndShifted(a: string, x: string, p: nat)
    requires p < |x|
    ensures LexemeEnd(a + x, |a| + p) == Later(LexemeEnd(x, p), |a|)
  {
    hide LexemeEnd, LineEnd, BlockEnd, LiteralEnd, At;
    ReadLexeme(x, p);
    ReadLexeme(a + x, |a| + p);
    assert (a + x)[|a| + p] == x[p] && (p + 1 < |x| ==> (a + x)[|a| + p + 1] == x[p + 1]);
    LiteralEndShifted(a, x, p + 1, x[p]);
    if p + 2 <= |x| {
      LineEndShifted(a, x, p + 2);
      BlockEndShifted(a, x, p + 2);
    }
  }

  function Moved(tokens: seq<Token>, n: nat): seq<Token> {
    seq(|tokens|, i requires 0 <= i < |tokens| => Token(tokens[i].ch, tokens[i].pos + n))
  }

  lemma LexStep(code: string, p: nat)
    requires p < |code|
    ensures Lex(code, p) == (if IsBracket(code[p]) then [Token(code[p], p)] else []) + Onward(code, LexemeEnd(code, p))
  {
    hide LexemeEnd;
  }

  lemma {:induction false} LexShifted(a: string, x: string, p: nat)
    requires p <= |x|
    ensures Lex(a + x, |a| + p) == Moved(Lex(x, p), |a|)
    decreases |x| - p
  {
    hide Lex, LexemeEnd;
    if p == |x| {
      LexAtEnd(x);
      LexAtEnd(a + x);
    } else {
      LexemeEndShifted(a, x, p);
      LexStep(x, p);
      LexStep(a + x, |a| + p);
      if LexemeEnd(x, p).Some? {
        LexShifted(a, x, LexemeEnd(x, p).value);
      }
    }
  }

  lemma LexAtEnd(code: string)
    ensures Lex(code, |code|) == []
  {
  }

  lemma WordAtEnd(code: string)
    ensures WordFrom(code, |code|) == ""
  {
  }

  // ----- Composition -----

  lemma {:induction false} LexFromComposes(a: string, x: string, p: nat)
    requires p <= |a| && EndsInCode(a, p)
    ensures Lex(a + x, p) == Lex(a, p) + Moved(Lex(x, 0), |a|)
    decreases |a| - p
  {
    hide Lex, LexemeEnd, IsBracket, Moved;
    if p == |a| {
      LexAtEnd(a);
      LexShifted(a, x, 0);
    } else {
      LexemeEndExtended(a, x, p);
      var e := LexemeEnd(a, p).value;
      LexFromComposes(a, x, e);
      LexStep(a, p);
      LexStep(a + x, p);
      assert (a + x)[p] == a[p];
      var b := if IsBracket(a[p]) then [Token(a[p], p)] else [];
      assert b + (Lex(a, e) + Moved(Lex(x, 0), |a|)) == b + Lex(a, e) + Moved(Lex(x, 0), |a|);
    }
  }

  /** The bracket word of a text that ends in code does not depend on what follows. */
  lemma WordComposes(a: string, x: string)
    requires EndsInCode(a, 0)
    ensures Word(a + x) == Word(a) + Word(x)
  {
    hide Lex, EndsInCode;
    LexFromComposes(a, x, 0);
  }

  // ----- Strings and comments -----

  datatype Inert = Quoted(quote: char, body: string) | Line(body: string) | Block(body: string)

  /** A literal's body: escapes in pairs, no bare closing quote. */
  predicate LiteralBody(body: string, quote: char) {
    body == "" ||
    (if body[0] == '\\' then |body| >= 2 && LiteralBody(body[2..], quote)
     else body[0] != quote && LiteralBody(body[1..], quote))
  }

  predicate Closed(t: Inert) {
    match t
    case Quoted(quote, body) => IsQuote(quote) && LiteralBody(body, quote)
    case Line(body) => '\n' !in body
    case Block(body) => forall p :: 0 <= p < |body| ==> !At(body, p, "*/")
  }

  function Render(t: Inert): string {
    match t
    case Quoted(quote, body) => [quote] + body + [quote]
    case Line(body) => "//" + body + "\n"
    case Block(body) => "/*" + body + "*/"
  }

  lemma {:induction false} LiteralCloses(code: string, p: nat, quote: char)
    requires IsQuote(quote) && p < |code| && code[|code| - 1] == quote && LiteralBody(code[p..|code| - 1], quote)
    ensures LiteralEnd(code, p, quote) == Some(|code|)
    decreases |code| - p
  {
    var body := code[p..|code| - 1];
    if body != "" {
      assert body[0] == code[p];
      if code[p] == '\\' {
        assert body[2..] == code[p + 2..|code| - 1];
        LiteralCloses(code, p + 2, quote);
      } else {
        assert body[1..] == code[p + 1..|code| - 1];
        LiteralCloses(code, p + 1, quote);
      }
    }
  }

  lemma {:induction false} LineCloses(code: string, p: nat)
    requires p < |code| && code[|code| - 1] == '\n' && '\n' !in code[p..|code| - 1]
    ensures LineEnd(code, p) == Some(|code| - 1)
    decreases |code| - p
  {
    if p < |code| - 1 {
      assert code[p] == code[p..|code| - 1][0];
      LineCloses(code, p + 1);
    }
  }

  lemma {:induction false} BlockCloses(code: string, p: nat)
    requires p + 2 <= |code| && At(code, |code| - 2, "*/")
    requires forall q :: p <= q < |code| - 2 ==> !At(code, q, "*/")
    ensures BlockEnd(code, p) == Some(|code|)
    decreases |code| - p
  {
    if p < |code| - 2 {
      BlockCloses(code, p + 1);
    }
  }

  /** A closed string or comment is lexed without a bracket and ends in code. */
  lemma InertWord(t: Inert)
    requires Closed(t)
    ensures EndsInCode(Render(t), 0) && Word(Render(t)) == ""
  {
    var code := Render(t);
    InertLexeme(t);
    hide Closed, Render, LexemeEnd, WordFrom, Lex;
    WordStep(code, 0);
    WordAtEnd(code);
    assert EndsInCode(code, |code|);
    if t.Line? {
      WordStep(code, |code| - 1);
      assert EndsInCode(code, |code| - 1);
    }
  }

  lemma InertLexeme(t: Inert)
    requires Closed(t)
    ensures var code := Render(t);
            && |code| > 1 && !IsBracket(code[0])
            && LexemeEnd(code, 0) == Some(if t.Line? then |code| - 1 else |code|)
            && (t.Line? ==> !IsBracket(code[|code| - 1]) && code[|code| - 1] != '/' && LexemeEnd(code, |code| - 1) == Some(|code|))
  {
    hide LexemeEnd, LiteralEnd, LineEnd, BlockEnd, LiteralBody, At, IsQuote;
    match t
    case Quoted(quote, body) => QuotedLexeme(quote, body);
    case Line(body) => LineLexeme(body);
    case Block(body) => BlockLexeme(body);
  }

  lemma QuotedLexeme(quote: char, body: string)
    requires IsQuote(quote) && LiteralBody(body, quote)
    ensures var code := [quote] + body + [quote];
            code[0] == quote && !IsBracket(quote) && LexemeEnd(code, 0) == Some(|code|)
  {
    hide LexemeEnd, LiteralEnd, LineEnd, BlockEnd, LiteralBody, At;
    var code := [quote] + body + [quote];
    ReadLexeme(code, 0);
    assert code[1..|code| - 1] == body;
    LiteralCloses(code, 1, quote);
  }

  lemma LineLexeme(body: string)
    requires '\n' !in body
    ensures var code := "//" + body + "\n";
            && code[0] == '/' && code[|code| - 1] == '\n' && LexemeEnd(code, 0) == Some(|code| - 1)
            && LexemeEnd(code, |code| - 1) == Some(|code|)
  {
    hide LexemeEnd, LiteralEnd, LineEnd, BlockEnd, At;
    var code := "//" + body + "\n";
    ReadLexeme(code, 0);
    ReadLexeme(code, |code| - 1);
    assert code[2..|code| - 1] == body;
    LineCloses(code, 2);
  }

  lemma BlockLexeme(body: string)
    requires forall p :: 0 <= p < |body| ==> !At(body, p, "*/")
    ensures var code := "/*" + body + "*/"; code[0] == '/' && LexemeEnd(code, 0) == Some(|code|)
  {
    hide LexemeEnd, LiteralEnd, LineEnd, BlockEnd, At;
    var code := "/*" + body + "*/";
    ReadLexeme(code, 0);
    BlockBody(body);
    BlockCloses(code, 2);
  }

  lemma BlockBody(body: string)
    requires forall p :: 0 <= p < |body| ==> !At(body, p, "*/")
    ensures var code := "/*" + body + "*/";
            At(code, |code| - 2, "*/") && forall q :: 2 <= q < |code| - 2 ==> !At(code, q, "*/")
  {
    var code := "/*" + body + "*/";
    assert code[|code| - 2..] == "*/";
    forall q | 2 <= q < |code| - 2
      ensures !At(code, q, "*/")
    {
      ReadLexeme(code, q);
      if q + 2 < |code| - 1 {
        ReadLexeme(body, q - 2);
      }
    }
  }

  // ----- The theorem -----

  /** A report with the line numbers blotted out. */
  function Blot(r: Report): Report {
    match r
    case Passed => Passed
    case Unmatched(ch, _) => Unmatched(ch, 0)
    case Mismatched(ch, _, expected, top, _) => Mismatched(ch, 0, expected, top, 0)
    case Unclosed(top, _) => Unclosed(top, 0)
  }

  /** The bracket word determines the report up to line numbers. */
  lemma SameWordSameReport(a: string, b: string, r: Report, s: Report)
    requires Word(a) == Word(b) && Justified(a, r) && Justified(b, s)
    ensures Blot(r) == Blot(s)
  {
    JustifiedByWord(a, r);
    JustifiedByWord(b, s);
    WordReportUnique(Word(a), Blot(r), Blot(s));
  }

  /** The part of a report's meaning that speaks of the bracket word alone. */
  ghost predicate WordReport(word: string, report: Report) {
    match report
    case Passed => Balanced(word)
    case Unmatched(ch, _) =>
      exists k: nat :: FirstOffender(word, k) && ch == word[k] && Balanced(word[..k])
    case Mismatched(ch, _, expected, top, _) =>
      exists k: nat, p: nat ::
        && FirstOffender(word, k) && ch == word[k]
        && InnermostOpen(word[..k], p) && top == word[p]
        && IsOpener(top) && expected == CloserOf(top) != ch
    case Unclosed(top, _) =>
      && Extendable(word) && !Balanced(word)
      && exists p: nat :: InnermostOpen(word, p) && top == word[p]
  }

  lemma JustifiedByWord(code: string, r: Report)
    requires Justified(code, r)
    ensures WordReport(Word(code), Blot(r))
  {
    hide Lex, LineOf, Extendable, Balanced;
  }

  lemma WordReportUnique(word: string, r: Report, s: Report)
    requires WordReport(word, r) && WordReport(word, s)
    ensures Blot(r) == Blot(s)
  {
    OneFault(word);
    hide InnermostOpen, Extendable, Balanced, FirstOffender;
  }

  /** Inserting a string or comment after a text that ends in code keeps the bracket word
      and so the checker's report, up to line numbers. */
  lemma InsertInert(a: string, t: Inert, b: string, r: Report, s: Report)
    requires EndsInCode(a, 0) && Closed(t)
    ensures Word(a + Render(t) + b) == Word(a + b)
    ensures Justified(a + b, r) && Justified(a + Render(t) + b, s) ==> Blot(r) == Blot(s)
  {
    hide Word, EndsInCode, Justified, Closed, Render;
    InertWord(t);
    WordComposes(a, b);
    WordComposes(a, Render(t) + b);
    WordComposes(Render(t), b);
    assert a + (Render(t) + b) == a + Render(t) + b;
    assert "" + Word(b) == Word(b);
    if Justified(a + b, r) && Justified(a + Render(t) + b, s) {
      SameWordSameReport(a + b, a + Render(t) + b, r, s);
    }
  }

  // ----- Line numbers -----

  lemma {:induction false} LineBreaksConcat(a: string, b: string)
    ensures LineBreaks(a + b) == LineBreaks(a) + LineBreaks(b)
  {
    if b == "" {
      assert a + b == a;
    } else {
      assert (a + b)[..|a + b| - 1] == a + b[..|b| - 1];
      LineBreaksConcat(a, b[..|b| - 1]);
    }
  }

  /** How far the insertion of a text with `n` line breaks after `a` moves the line of the `k`-th bracket. */
  function MovedBy(a: string, n: nat, k: nat): nat {
    if k < |Word(a)| then 0 else n
  }

  /** Brackets before the insertion keep their lines, later ones move down by its line breaks. */
  lemma NamesInserted(a: string, m: string, b: string, k: nat, ch: char, line: nat)
    requires EndsInCode(a, 0) && EndsInCode(m, 0) && Word(m) == "" && Names(a + b, k, ch, line)
    ensures Names(a + m + b, k, ch, line + MovedBy(a, LineBreaks(m), k))
  {
    hide Lex, EndsInCode, LineBreaks;
    LexFromComposes(a, b, 0);
    LexFromComposes(a, m + b, 0);
    LexFromComposes(m, b, 0);
    assert a + (m + b) == a + m + b;
    var before, after := Lex(a, 0), Lex(b, 0);
    assert |Lex(m, 0)| == |Word(m)| == 0;
    assert Lex(m + b, 0) == Moved(after, |m|);
    LexPositions(a, 0);
    LexPositions(b, 0);
    if k < |before| {
      var q := before[k].pos;
      assert (a + b)[..q] == a[..q] == (a + m + b)[..q];
    } else {
      var q := after[k - |before|].pos;
      assert (a + b)[..|a| + q] == a + b[..q];
      assert (a + m + b)[..|a| + |m| + q] == a + m + b[..q];
      LineBreaksConcat(a, b[..q]);
      LineBreaksConcat(a, m);
      LineBreaksConcat(a + m, b[..q]);
    }
  }

  /** `s` is `r` with the line of every bracket it names moved as the insertion moves it. */
  ghost predicate LinesMoved(word: string, a: string, n: nat, r: Report, s: Report) {
    match r
    case Passed => s.Passed?
    case Unmatched(ch, line) =>
      exists k: nat :: FirstOffender(word, k) && s == Unmatched(ch, line + MovedBy(a, n, k))
    case Mismatched(ch, line, expected, top, topLine) =>
      exists k: nat, p: nat ::
        && FirstOffender(word, k) && InnermostOpen(word[..k], p)
        && s == Mismatched(ch, line + MovedBy(a, n, k), expected, top, topLine + MovedBy(a, n, p))
    case Unclosed(top, topLine) =>
      exists p: nat :: InnermostOpen(word, p) && s == Unclosed(top, topLine + MovedBy(a, n, p))
  }

  /** The report after inserting a string or comment into code: the same brackets, those
      before the insertion on the same lines, those after it further down by its line breaks. */
  lemma InsertInertLines(a: string, t: Inert, b: string, r: Report, s: Report)
    requires EndsInCode(a, 0) && Closed(t)
    requires Justified(a + b, r) && Justified(a + Render(t) + b, s)
    ensures LinesMoved(Word(a + b), a, LineBreaks(Render(t)), r, s)
  {
    hide EndsInCode, Closed, Render, Word, Names, LineBreaks, MovedBy, InnermostOpen, Balanced, Extendable;
    InertWord(t);
    InsertInert(a, t, b, r, s);
    var m, c := Render(t), a + Render(t) + b;
    var n, word := LineBreaks(m), Word(a + b);
    match r
    case Passed =>
    case Unmatched(ch, line) =>
      var k: nat :| FirstOffender(word, k) && Names(a + b, k, ch, line) && Balanced(word[..k]);
      NamesInserted(a, m, b, k, ch, line);
      JustifiedUnique(c, s, Unmatched(ch, line + MovedBy(a, n, k)));
    case Mismatched(ch, line, expected, top, topLine) =>
      var k: nat, p: nat :|
        && FirstOffender(word, k) && Names(a + b, k, ch, line)
        && InnermostOpen(word[..k], p) && Names(a + b, p, top, topLine)
        && IsOpener(top) && expected == CloserOf(top) != ch;
      NamesInserted(a, m, b, k, ch, line);
      NamesInserted(a, m, b, p, top, topLine);
      JustifiedUnique(c, s, Mismatched(ch, line + MovedBy(a, n, k), expected, top, topLine + MovedBy(a, n, p)));
    case Unclosed(top, topLine) =>
      var p: nat :| InnermostOpen(word, p) && Names(a + b, p, top, topLine);
      NamesInserted(a, m, b, p, top, topLine);
      JustifiedUnique(c, s, Unclosed(top, topLine + MovedBy(a, n, p)));
  }

  /** Right after a lone slash the insertion can matter: it may complete a comment opener. */
  lemma SlashIsNotCode()
    ensures !EndsInCode("/", 0)
    ensures Word("/" + ")") == ")" && Word("/" + Render(Block("")) + ")") == ""
  {
    var plain, code := "/)", "//**/)";
    assert "/" + ")" == plain && "/" + Render(Block("")) + ")" == code;
    ReadLexeme("/", 0);
    SlashBracket(plain);
    SlashComment(code);
  }

  lemma SlashBracket(code: string)
    requires code == "/)"
    ensures Word(code) == ")"
  {
    hide LexemeEnd, WordFrom;
    ReadLexeme(code, 0);
    ReadLexeme(code, 1);
    WordStep(code, 0);
    WordStep(code, 1);
    WordAtEnd(code);
  }

  lemma SlashComment(code: string)
    requires |code| > 1 && code[0] == code[1] == '/' && '\n' !in code
    ensures Word(code) == ""
  {
    hide LexemeEnd, WordFrom;
    ReadLexeme(code, 0);
    NoLineEnd(code, 2);
    WordStep(code, 0);
  }

  lemma {:induction false} NoLineEnd(code: string, p: nat)
    requires p <= |code| && '\n' !in code
    ensures LineEnd(code, p) == None
    decreases |code| - p
  {
    if p < |code| {
      NoLineEnd(code, p + 1);
    }
  }
}
