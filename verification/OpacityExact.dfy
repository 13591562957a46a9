/** Exactly where strings and comments are opaque: for bracket words, after the texts that
    end in code; for reports, after these and after texts already beyond repair. */
module OpacityExact {
  import opened Text
  import opened Brackets
  import opened JsLexer
  import opened BracketChecker
  import opened Opacity

  ghost predicate OnlyClosers(x: string) {
    forall c :: c in x ==> IsCloser(c)
  }

  // ----- Closing brackets after the text -----

  lemma {:induction false} ClosersInCode(code: string, p: nat)
    requires p <= |code| && OnlyClosers(code[p..])
    ensures WordFrom(code, p) == code[p..]
    decreases |code| - p
  {
    hide WordFrom, LexemeEnd;
    if p == |code| {
      WordAtEnd(code);
    } else {
      assert code[p] in code[p..];
      assert code[p + 1..] == code[p..][1..];
      ReadLexeme(code, p);
      WordStep(code, p);
      ClosersInCode(code, p + 1);
      assert code[p..] == [code[p]] + code[p + 1..];
    }
  }

  /** A character that is neither bracket, quote nor slash is skipped. */
  lemma PlainStep(code: string, p: nat)
    requires p < |code| && !IsBracket(code[p]) && !IsQuote(code[p])
    requires code[p] == '/' ==> p + 1 == |code| || IsCloser(code[p + 1])
    ensures WordFrom(code, p) == WordFrom(code, p + 1)
  {
    hide WordFrom, LexemeEnd;
    ReadLexeme(code, p);
    WordStep(code, p);
  }

  lemma {:induction false} LineStaysOpen(a: string, x: string, p: nat)
    requires p <= |a| && LineEnd(a, p).None? && '\n' !in x
    ensures LineEnd(a + x, p).None?
    decreases |a| - p
  {
    if p < |a| {
      LineStaysOpen(a, x, p + 1);
    } else {
      NoLineEndFrom(a + x, p);
    }
  }

  lemma {:induction false} NoLineEndFrom(code: string, p: nat)
    requires p <= |code| && '\n' !in code[p..]
    ensures LineEnd(code, p).None?
    decreases |code| - p
  {
    if p < |code| {
      assert code[p] in code[p..];
      assert code[p + 1..] == code[p..][1..];
      NoLineEndFrom(code, p + 1);
    }
  }

  lemma {:induction false} LineGetsClosed(a: string, v: string, p: nat)
    requires p <= |a| && LineEnd(a, p).None? && |a| + 3 <= |v| && v[..|a|] == a
    requires v[|a|] == v[|a| + 1] == '/' && v[|a| + 2] == '\n'
    ensures LineEnd(v, p) == Some(|a| + 2)
    decreases |a| - p
  {
    if p < |a| {
      assert v[p] == v[..|a|][p];
      LineGetsClosed(a, v, p + 1);
    } else {
      assert LineEnd(v, p + 1) == LineEnd(v, p + 2) == Some(p + 2);
    }
  }

  lemma {:induction false} BlockStaysOpen(a: string, x: string, p: nat)
    requires p <= |a| && BlockEnd(a, p).None? && OnlyClosers(x)
    ensures BlockEnd(a + x, p).None?
    decreases |a| + |x| - p
  {
    hide BlockEnd;
    BlockUnfolds(a, p);
    if p < |a| {
      var code := a + x;
      assert code[p] == a[p] && (p + 1 < |a| ==> code[p + 1] == a[p + 1]);
      assert p + 1 == |a| && x != "" ==> code[p + 1] == x[0] && x[0] in x;
      BlockUnfolds(code, p);
      BlockStaysOpen(a, x, p + 1);
    } else {
      assert (a + x)[p..] == x;
      NoBlockEndFrom(a + x, p);
    }
  }

  lemma BlockUnfolds(code: string, p: nat)
    requires p <= |code|
    ensures BlockEnd(code, p) ==
              if p == |code| then None
              else if p + 1 < |code| && code[p] == '*' && code[p + 1] == '/' then Some(p + 2)
              else BlockEnd(code, p + 1)
  {
    if p < |code| {
      ReadLexeme(code, p);
    }
  }

  lemma {:induction false} NoBlockEndFrom(code: string, p: nat)
    requires p <= |code| && OnlyClosers(code[p..])
    ensures BlockEnd(code, p).None?
    decreases |code| - p
  {
    hide BlockEnd;
    BlockUnfolds(code, p);
    if p < |code| {
      assert code[p] in code[p..];
      assert code[p + 1..] == code[p..][1..];
      NoBlockEndFrom(code, p + 1);
    }
  }

  /** An empty block comment closes an open one, with its own end or, after a star, with its first slash. */
  lemma {:induction false} BlockGetsClosed(a: string, v: string, p: nat)
    requires p <= |a| && BlockEnd(a, p).None? && |a| + 4 <= |v| && v[..|a|] == a
    requires v[|a|] == v[|a| + 3] == '/' && v[|a| + 1] == v[|a| + 2] == '*'
    ensures BlockEnd(v, p) == Some(|a| + 1) || BlockEnd(v, p) == Some(|a| + 4)
    decreases |a| - p
  {
    hide BlockEnd;
    BlockUnfolds(a, p);
    BlockUnfolds(v, p);
    if p < |a| {
      assert v[p] == v[..|a|][p] && (p + 1 < |a| ==> v[p + 1] == v[..|a|][p + 1]);
      if BlockEnd(v, p) == BlockEnd(v, p + 1) {
        BlockGetsClosed(a, v, p + 1);
      }
    } else {
      BlockUnfolds(v, p + 1);
      BlockUnfolds(v, p + 2);
    }
  }

  lemma {:induction false} LiteralStaysOpen(a: string, x: string, p: nat, quote: char)
    requires p <= |a| && LiteralEnd(a, p, quote).None? && IsQuote(quote) && OnlyClosers(x)
    ensures LiteralEnd(a + x, p, quote).None?
    decreases |a| - p
  {
    var code := a + x;
    if p == |a| || (p + 1 == |a| && a[p] == '\\') {
      var q := if p == |a| then p else p + 1;
      assert code[q..] == x;
      NoLiteralEndFrom(code, q, quote);
      if p < |a| && x != "" {
        assert code[q + 1..] == x[1..];
        NoLiteralEndFrom(code, q + 1, quote);
      }
    } else if a[p] == '\\' {
      LiteralStaysOpen(a, x, p + 2, quote);
    } else {
      LiteralStaysOpen(a, x, p + 1, quote);
    }
  }

  lemma {:induction false} NoLiteralEndFrom(code: string, p: nat, quote: char)
    requires p <= |code| && OnlyClosers(code[p..]) && IsQuote(quote)
    ensures LiteralEnd(code, p, quote).None?
    decreases |code| - p
  {
    if p < |code| {
      assert code[p] in code[p..];
      assert code[p + 1..] == code[p..][1..];
      NoLiteralEndFrom(code, p + 1, quote);
    }
  }

  /** A line comment that holds the quote closes an open literal, pending escape or not. */
  lemma {:induction false} LiteralGetsClosed(a: string, v: string, p: nat, quote: char)
    requires p <= |a| && LiteralEnd(a, p, quote).None? && IsQuote(quote) && |a| + 4 <= |v| && v[..|a|] == a
    requires v[|a|] == v[|a| + 1] == '/' && v[|a| + 2] == quote
    ensures LiteralEnd(v, p, quote) == Some(|a| + 3)
    decreases |a| - p
  {
    assert p < |a| ==> v[p] == v[..|a|][p];
    if p == |a| {
      assert LiteralEnd(v, p + 2, quote) == Some(|a| + 3);
    } else if p + 1 == |a| && a[p] == '\\' {
      assert LiteralEnd(v, p + 2, quote) == LiteralEnd(v, p + 3, quote) == Some(|a| + 3);
    } else if a[p] == '\\' {
      LiteralGetsClosed(a, v, p + 2, quote);
    } else {
      LiteralGetsClosed(a, v, p + 1, quote);
    }
  }

  // ----- Breaking opacity -----

  /** Of the texts `u` and `v`, read from `p`, one shows the brackets `x` after the word of `a` and the other hides them. */
  ghost predicate OneHides(a: string, u: string, v: string, p: nat, x: string)
    requires p <= |a| && p <= |u| && p <= |v|
  {
    || (WordFrom(u, p) == WordFrom(a, p) + x && WordFrom(v, p) == WordFrom(a, p))
    || (WordFrom(u, p) == WordFrom(a, p) && WordFrom(v, p) == WordFrom(a, p) + x)
  }

  lemma Spliced(a: string, m: string, x: string)
    ensures Inserted(a, m, x, a + x, a + m + x)
  {
  }

  lemma Insertions(quote: char)
    requires IsQuote(quote)
    ensures Closed(Line("")) && Closed(Block("")) && Closed(Line([quote]))
    ensures Render(Line("")) == ['/', '/', '\n'] && Render(Block("")) == ['/', '*', '*', '/']
    ensures Render(Line([quote])) == ['/', '/', quote, '\n']
  {
  }

  /** An open string or comment hides the rest; a closed one hands over to what follows. */
  lemma InertStep(code: string, p: nat)
    requires p < |code| && !IsBracket(code[p])
    ensures WordFrom(code, p) == match LexemeEnd(code, p) case Some(end) => WordFrom(code, end) case None => ""
  {
    hide WordFrom, LexemeEnd;
    WordStep(code, p);
  }

  lemma TailAfterBreak(code: string, p: nat, x: string)
    requires p < |code| && code[p] == '\n' && code[p + 1..] == x && OnlyClosers(x)
    ensures WordFrom(code, p) == x
  {
    hide WordFrom;
    PlainStep(code, p);
    ClosersInCode(code, p + 1);
  }

  lemma TailAfterStars(code: string, p: nat, x: string)
    requires p + 3 <= |code| && code[p] == code[p + 1] == '*' && code[p + 2] == '/'
    requires code[p + 3..] == x && OnlyClosers(x)
    ensures WordFrom(code, p) == WordFrom(code, p + 3) == x
  {
    hide WordFrom;
    assert x != "" ==> code[p + 3] == x[0] && x[0] in x;
    PlainStep(code, p);
    PlainStep(code, p + 1);
    PlainStep(code, p + 2);
    ClosersInCode(code, p + 3);
  }

  /** The insertion `m` between `a` and `x`, seen character by character. */
  ghost predicate Inserted(a: string, m: string, x: string, u: string, v: string) {
    && u == a + x && u[..|a|] == a && u[|a|..] == x
    && |v| == |a| + |m| + |x| && v[..|a|] == a && v[|a| + |m|..] == x
    && forall i :: 0 <= i < |m| ==> v[|a| + i] == m[i]
  }

  lemma BreakSlash(a: string, p: nat, x: string, m: string, u: string, v: string)
    requires p + 1 == |a| && a[p] == '/' && OnlyClosers(x) && m == ['/', '*', '*', '/'] && Inserted(a, m, x, u, v)
    ensures OneHides(a, u, v, p, x)
  {
    hide WordFrom, LexemeEnd, LineEnd, BlockEnd, LiteralEnd, At, OnlyClosers;
    assert v[p] == v[..|a|][p] == u[..|a|][p] == u[p] && v[p + 1] == v[|a| + 0] == m[0];
    ReadLexeme(v, p);
    assert '\n' !in v[p + 2..] by {
      CloserFacts(x);
      assert forall i :: |a| + 1 <= i < |a| + 4 ==> v[i] == m[i - |a|];
      assert forall i :: |a| + 4 <= i < |v| ==> v[i] == x[i - |a| - 4];
    }
    NoLineEndFrom(v, p + 2);
    InertStep(v, p);
    assert x != "" ==> u[p + 1] == u[|a|..][0];
    CloserFacts(x);
    PlainStep(u, p);
    ClosersInCode(u, p + 1);
    PlainStep(a, p);
    WordAtEnd(a);
  }

  lemma CloserFacts(x: string)
    requires OnlyClosers(x)
    ensures '\n' !in x && (x != "" ==> IsCloser(x[0]))
  {
  }

  lemma BreakLine(a: string, p: nat, x: string, m: string, u: string, v: string)
    requires p + 1 < |a| && a[p] == '/' && a[p + 1] == '/' && LineEnd(a, p + 2).None? && OnlyClosers(x)
    requires m == ['/', '/', '\n'] && Inserted(a, m, x, u, v)
    ensures OneHides(a, u, v, p, x)
  {
    hide WordFrom, LexemeEnd, LineEnd, BlockEnd, LiteralEnd, At, OnlyClosers;
    CloserFacts(x);
    assert v[p] == v[..|a|][p] && u[p] == u[..|a|][p] && v[|a| + 0] == m[0] && v[|a| + 1] == m[1] && v[|a| + 2] == m[2];
    ReadLexeme(a, p);
    ReadLexeme(u, p);
    ReadLexeme(v, p);
    LineStaysOpen(a, x, p + 2);
    LineGetsClosed(a, v, p + 2);
    InertStep(a, p);
    InertStep(u, p);
    InertStep(v, p);
    TailAfterBreak(v, |a| + 2, x);
  }

  lemma BreakBlock(a: string, p: nat, x: string, m: string, u: string, v: string)
    requires p + 1 < |a| && a[p] == '/' && a[p + 1] == '*' && BlockEnd(a, p + 2).None? && OnlyClosers(x)
    requires m == ['/', '*', '*', '/'] && Inserted(a, m, x, u, v)
    ensures OneHides(a, u, v, p, x)
  {
    hide WordFrom, LexemeEnd, LineEnd, BlockEnd, LiteralEnd, At, OnlyClosers;
    assert v[p] == v[..|a|][p] && u[p] == u[..|a|][p] && v[|a| + 0] == m[0] && v[|a| + 1] == m[1] && v[|a| + 2] == m[2] && v[|a| + 3] == m[3];
    ReadLexeme(a, p);
    ReadLexeme(u, p);
    ReadLexeme(v, p);
    BlockStaysOpen(a, x, p + 2);
    BlockGetsClosed(a, v, p + 2);
    InertStep(a, p);
    InertStep(u, p);
    InertStep(v, p);
    TailAfterStars(v, |a| + 1, x);
  }

  lemma BreakLiteral(a: string, p: nat, x: string, m: string, u: string, v: string)
    requires p < |a| && IsQuote(a[p]) && LiteralEnd(a, p + 1, a[p]).None? && OnlyClosers(x)
    requires m == ['/', '/', a[p], '\n'] && Inserted(a, m, x, u, v)
    ensures OneHides(a, u, v, p, x)
  {
    hide WordFrom, LexemeEnd, LineEnd, BlockEnd, LiteralEnd, At, OnlyClosers;
    assert v[p] == v[..|a|][p] && u[p] == u[..|a|][p] && v[|a| + 0] == m[0] && v[|a| + 1] == m[1] && v[|a| + 2] == m[2] && v[|a| + 3] == m[3];
    ReadLexeme(a, p);
    ReadLexeme(u, p);
    ReadLexeme(v, p);
    LiteralStaysOpen(a, x, p + 1, a[p]);
    LiteralGetsClosed(a, v, p + 1, a[p]);
    InertStep(a, p);
    InertStep(u, p);
    InertStep(v, p);
    TailAfterBreak(v, |a| + 3, x);
  }

  /** After a text that does not end in code, some closed string or comment decides whether
      closing brackets that follow are seen. */
  lemma {:induction false} Break(a: string, p: nat, x: string) returns (t: Inert)
    requires p <= |a| && !EndsInCode(a, p) && OnlyClosers(x)
    ensures Closed(t) && OneHides(a, a + x, a + Render(t) + x, p, x)
    decreases |a| - p
  {
    hide WordFrom, LineEnd, BlockEnd, LiteralEnd, LexemeEnd, At, Render, Closed, OneHides, OnlyClosers;
    ReadLexeme(a, p);
    Insertions(if IsQuote(a[p]) then a[p] else '"');
    if a[p] == '/' && p + 1 == |a| {
      t := Block("");
      Spliced(a, Render(t), x);
      BreakSlash(a, p, x, Render(t), a + x, a + Render(t) + x);
    } else if LexemeEnd(a, p).Some? {
      var e := LexemeEnd(a, p).value;
      t := Break(a, e, x);
      LexemeEndExtended(a, x, p);
      LexemeEndExtended(a, Render(t) + x, p);
      assert a + (Render(t) + x) == a + Render(t) + x;
      BreakBehind(a, a + x, a + Render(t) + x, p, e, x);
    } else if IsQuote(a[p]) {
      t := Line([a[p]]);
      Spliced(a, Render(t), x);
      BreakLiteral(a, p, x, Render(t), a + x, a + Render(t) + x);
    } else if a[p + 1] == '/' {
      t := Line("");
      Spliced(a, Render(t), x);
      BreakLine(a, p, x, Render(t), a + x, a + Render(t) + x);
    } else {
      t := Block("");
      Spliced(a, Render(t), x);
      BreakBlock(a, p, x, Render(t), a + x, a + Render(t) + x);
    }
  }

  lemma BreakBehind(a: string, u: string, v: string, p: nat, e: nat, x: string)
    requires p < e <= |a| <= |u| && |a| <= |v| && a[p] == u[p] == v[p]
    requires LexemeEnd(a, p) == LexemeEnd(u, p) == LexemeEnd(v, p) == Some(e)
    requires OneHides(a, u, v, e, x)
    ensures OneHides(a, u, v, p, x)
  {
    hide WordFrom, LexemeEnd;
    WordStep(a, p);
    WordStep(u, p);
    WordStep(v, p);
    var b := if IsBracket(a[p]) then [a[p]] else "";
    assert b + (WordFrom(a, e) + x) == b + WordFrom(a, e) + x;
  }

  // ----- The exact condition for bracket words -----

  /** Inserting any closed string or comment after `a`, before any text, keeps the bracket word. */
  ghost predicate KeepsWords(a: string) {
    forall t, b :: Closed(t) ==> Word(a + Render(t) + b) == Word(a + b)
  }

  lemma {:induction false} WordsKeptExactly(a: string)
    ensures KeepsWords(a) <==> EndsInCode(a, 0)
  {
    hide EndsInCode, Closed, Render, WordFrom;
    if EndsInCode(a, 0) {
      forall t, b | Closed(t)
        ensures Word(a + Render(t) + b) == Word(a + b)
      {
        InsertInert(a, t, b, Passed, Passed);
      }
    } else {
      var t := Break(a, 0, ")");
      assert Word(a + Render(t) + ")") != Word(a + ")");
    }
  }

  // ----- The exact condition for reports -----

  /** Whatever follows a text, its bracket word stays a prefix. */
  lemma {:induction false} WordFromGrows(a: string, x: string, p: nat)
    requires p <= |a|
    ensures WordFrom(a, p) <= WordFrom(a + x, p)
    decreases |a| - p
  {
    hide WordFrom, LexemeEnd;
    if p == |a| {
      WordAtEnd(a);
    } else {
      WordStep(a, p);
      ReadLexeme(a, p);
      assert (a + x)[p] == a[p];
      WordStep(a + x, p);
      if LexemeEnd(a, p).Some? && (a[p] == '/' ==> p + 1 < |a|) {
        LexemeEndExtended(a, x, p);
        WordFromGrows(a, x, LexemeEnd(a, p).value);
      } else if LexemeEnd(a, p).Some? {
        WordAtEnd(a);
      }
    }
  }

  /** A word that no continuation balances fixes the report of all its continuations. */
  lemma FaultStays(w: string, u: string, r: Report)
    requires w <= u && !Extendable(w) && WordReport(u, r)
    ensures WordReport(w, r)
  {
    hide Extendable, Balanced;
    assert u[..|w|] == w && u[..|u|] == u;
    ExtendablePrefix(u, |w|, |u|);
    OneFault(u);
    forall k: nat | FirstOffender(u, k)
      ensures k < |w| && u[..k] == w[..k] && u[..k + 1] == w[..k + 1]
    {
      if k >= |w| {
        ExtendablePrefix(u, |w|, k);
      }
    }
  }

  /** Inserting any closed string or comment after `a`, before any text, keeps the checker's
      report up to line numbers. */
  ghost predicate KeepsReports(a: string) {
    forall t, b, r, s ::
      Closed(t) && Justified(a + b, r) && Justified(a + Render(t) + b, s) ==> Blot(r) == Blot(s)
  }

  lemma {:induction false} ReportsKeptExactly(a: string)
    ensures KeepsReports(a) <==> EndsInCode(a, 0) || !Extendable(Word(a))
  {
    hide EndsInCode, Closed, Render, Word, Justified, Blot, Extendable;
    if EndsInCode(a, 0) || !Extendable(Word(a)) {
      forall t, b, r, s | Closed(t) && Justified(a + b, r) && Justified(a + Render(t) + b, s)
        ensures Blot(r) == Blot(s)
      {
        if EndsInCode(a, 0) {
          InsertInert(a, t, b, r, s);
        } else {
          assert a + Render(t) + b == a + (Render(t) + b);
          BrokenKeepsReport(a, b, Render(t) + b, r, s);
        }
      }
    } else {
      var t, b, r, s := BreakReport(a);
    }
  }

  lemma BrokenKeepsReport(a: string, b: string, c: string, r: Report, s: Report)
    requires !Extendable(Word(a)) && Justified(a + b, r) && Justified(a + c, s)
    ensures Blot(r) == Blot(s)
  {
    hide Justified, Extendable, WordReport, WordFrom;
    WordFromGrows(a, b, 0);
    WordFromGrows(a, c, 0);
    JustifiedByWord(a + b, r);
    JustifiedByWord(a + c, s);
    FaultStays(Word(a), Word(a + b), Blot(r));
    FaultStays(Word(a), Word(a + c), Blot(s));
    WordReportUnique(Word(a), Blot(r), Blot(s));
  }

  /** Closing brackets that make the difference between balanced and not. */
  lemma Decider(w: string) returns (x: string)
    requires Extendable(w)
    ensures OnlyClosers(x) && (Balanced(w) <==> !Balanced(w + x))
  {
    hide Balanced, Extendable, Scan;
    ScanDecidesExtendable(w);
    ScanDecidesBalanced(w);
    if Balanced(w) {
      x := ")";
      ScanCloser(w, ')');
    } else {
      x := CompleteScan(w);
    }
    ScanDecidesBalanced(w + x);
  }

  lemma BreakReport(a: string) returns (t: Inert, b: string, r: Report, s: Report)
    requires !EndsInCode(a, 0) && Extendable(Word(a))
    ensures Closed(t) && Justified(a + b, r) && Justified(a + Render(t) + b, s) && Blot(r) != Blot(s)
  {
    hide EndsInCode, Closed, Render, WordFrom, Justified, Balanced, Extendable;
    b := Decider(Word(a));
    t := Break(a, 0, b);
    r := JustifiedExists(a + b);
    s := JustifiedExists(a + Render(t) + b);
    JustifiedVerdict(a + b, r);
    JustifiedVerdict(a + Render(t) + b, s);
  }
}
