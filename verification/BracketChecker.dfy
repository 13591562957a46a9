/** The one-pass bracket checker and the proof that it decides the grammar of Brackets on
    the word that JsLexer reads. */
module BracketChecker {
  import opened Text
  import opened Brackets
  import opened JsLexer

  datatype Report =
    | Passed
    | Unmatched(ch: char, line: nat)
    | Mismatched(ch: char, line: nat, expected: char, top: char, topLine: nat)
    | Unclosed(top: char, topLine: nat)

  // ----- What a report means -----

  /** Token `k` is the first one that makes the bracket word impossible to balance. */
  ghost predicate FirstOffender(word: string, k: nat) {
    k < |word| && Extendable(word[..k]) && !Extendable(word[..k + 1])
  }

  ghost predicate Names(code: string, k: nat, ch: char, line: nat) {
    var tokens := Lex(code, 0);
    k < |tokens| && tokens[k].pos < |code| && ch == tokens[k].ch && line == LineOf(code, tokens[k].pos)
  }

  ghost predicate Justified(code: string, report: Report) {
    var word := Word(code);
    match report
    case Passed => Balanced(word)
    case Unmatched(ch, line) =>
      exists k: nat :: FirstOffender(word, k) && Names(code, k, ch, line) && Balanced(word[..k])
    case Mismatched(ch, line, expected, top, topLine) =>
      exists k: nat, p: nat ::
        && FirstOffender(word, k) && Names(code, k, ch, line)
        && InnermostOpen(word[..k], p) && Names(code, p, top, topLine)
        && IsOpener(top) && expected == CloserOf(top) != ch
    case Unclosed(top, topLine) =>
      && Extendable(word) && !Balanced(word)
      && exists p: nat :: InnermostOpen(word, p) && Names(code, p, top, topLine)
  }

  /** The meaning leaves no choice: a text justifies only one report. */
  lemma JustifiedUnique(code: string, a: Report, b: Report)
    requires Justified(code, a) && Justified(code, b)
    ensures a == b
  {
    var word := Word(code);
    OneFault(word);
    hide Word, Lex, LineOf, InnermostOpen, Extendable, Balanced, FirstOffender;
    match a
    case Passed =>
    case Unmatched(_, _) =>
    case Mismatched(_, _, _, _, _) =>
    case Unclosed(_, _) =>
  }

  /** A bracket word is balanced, or has one first offender, or neither; offenders and
      innermost open brackets are unique. */
  lemma OneFault(word: string)
    ensures forall k: nat, j: nat :: FirstOffender(word, k) && FirstOffender(word, j) ==> k == j
    ensures forall k: nat :: FirstOffender(word, k) ==> !Extendable(word)
    ensures forall k: nat, p: nat, q: nat ::
              FirstOffender(word, k) && InnermostOpen(word[..k], p) && InnermostOpen(word[..k], q) ==> p == q
    ensures forall k: nat, p: nat :: FirstOffender(word, k) && InnermostOpen(word[..k], p) ==> !Balanced(word[..k])
    ensures Extendable(word) ==>
              forall p: nat, q: nat :: InnermostOpen(word, p) && InnermostOpen(word, q) ==> p == q
    ensures Balanced(word) ==> Extendable(word)
  {
    ScanDecidesBalanced(word);
    ScanDecidesExtendable(word);
    hide InnermostOpen, Extendable, Balanced, Scan;
    forall j: nat, k: nat | FirstOffender(word, j) && FirstOffender(word, k)
      ensures j == k
    {
      OffenderUnique(word, j, k);
    }
    forall k: nat | FirstOffender(word, k)
      ensures !Extendable(word)
      ensures forall p: nat, q: nat :: InnermostOpen(word[..k], p) && InnermostOpen(word[..k], q) ==> p == q
      ensures forall p: nat :: InnermostOpen(word[..k], p) ==> !Balanced(word[..k])
    {
      OffenderRuins(word, k);
      InnermostUnique(word[..k]);
    }
    if Extendable(word) {
      InnermostUnique(word);
    }
  }

  lemma ExtendablePrefix(word: string, j: nat, k: nat)
    requires j <= k <= |word|
    ensures Extendable(word[..k]) ==> Extendable(word[..j])
  {
    if Extendable(word[..k]) {
      var x :| Balanced(word[..k] + x);
      assert word[..j] + (word[j..k] + x) == word[..k] + x;
    }
  }

  lemma OffenderUnique(word: string, j: nat, k: nat)
    requires FirstOffender(word, j) && FirstOffender(word, k)
    ensures j == k
  {
    hide Extendable;
    if j < k {
      ExtendablePrefix(word, j + 1, k);
    } else if k < j {
      ExtendablePrefix(word, k + 1, j);
    }
  }

  lemma OffenderRuins(word: string, k: nat)
    requires FirstOffender(word, k)
    ensures !Extendable(word)
  {
    hide Extendable;
    ExtendablePrefix(word, k + 1, |word|);
    assert word[..|word|] == word;
  }

  lemma InnermostUnique(w: string)
    requires Extendable(w)
    ensures forall p: nat, q: nat :: InnermostOpen(w, p) && InnermostOpen(w, q) ==> p == q
    ensures forall p: nat :: InnermostOpen(w, p) ==> !Balanced(w)
  {
    ScanDecidesExtendable(w);
    ScanDecidesBalanced(w);
    hide Scan, Extendable, Balanced, InnermostOpen;
    forall p: nat | InnermostOpen(w, p)
      ensures Scan(w).value != [] && p == Scan(w).value[|Scan(w).value| - 1]
    {
      ScanTop(w, p);
    }
  }

  lemma JustifiedVerdict(code: string, r: Report)
    requires Justified(code, r)
    ensures r.Passed? <==> Balanced(Word(code))
  {
    OneFault(Word(code));
    hide Word, Names, Extendable, Balanced, InnermostOpen, FirstOffender;
  }

  // ----- Every text has a report -----

  lemma {:induction false} LexPositions(code: string, p: nat)
    requires p <= |code|
    ensures forall k :: 0 <= k < |Lex(code, p)| ==>
              Lex(code, p)[k].pos < |code| && IsBracket(Lex(code, p)[k].ch)
    decreases |code| - p
  {
    if p < |code| && LexemeEnd(code, p).Some? {
      LexPositions(code, LexemeEnd(code, p).value);
    }
  }

  lemma NamesExist(code: string, k: nat) returns (line: nat)
    requires k < |Word(code)|
    ensures Names(code, k, Word(code)[k], line) && IsBracket(Word(code)[k])
  {
    hide Lex, LineOf;
    LexPositions(code, 0);
    line := LineOf(code, Lex(code, 0)[k].pos);
  }

  lemma {:induction false} FirstStuck(w: string) returns (k: nat)
    requires Scan(w).None?
    ensures k < |w| && Scan(w[..k]).Some? && Scan(w[..k + 1]).None?
  {
    var init := w[..|w| - 1];
    if Scan(init).None? {
      k := FirstStuck(init);
      assert init[..k] == w[..k] && init[..k + 1] == w[..k + 1];
    } else {
      k := |w| - 1;
      assert w[..k + 1] == w;
    }
  }

  /** Every text justifies a report. */
  lemma {:induction false} JustifiedExists(code: string) returns (r: Report)
    ensures Justified(code, r)
  {
    hide Scan, Names, LineOf, Lex, Extendable, Balanced, InnermostOpen;
    var w := Word(code);
    ScanDecidesBalanced(w);
    ScanDecidesExtendable(w);
    if Scan(w).None? {
      var k := FirstStuck(w);
      r := OffenderReport(code, k);
    } else if Scan(w).value == [] {
      r := Passed;
    } else {
      var p := Scan(w).value[|Scan(w).value| - 1];
      ScanTop(w, p);
      var line := NamesExist(code, p);
      r := Unclosed(w[p], line);
    }
  }

  lemma OffenderReport(code: string, k: nat) returns (r: Report)
    requires k < |Word(code)| && Scan(Word(code)[..k]).Some? && Scan(Word(code)[..k + 1]).None?
    ensures Justified(code, r)
  {
    hide Scan, Names, LineOf, Lex, Extendable, Balanced, InnermostOpen, Word;
    var w, v := Word(code), Word(code)[..k];
    var s, c := Scan(v).value, w[k];
    assert w[..k + 1] == v + [c];
    ScanDecidesExtendable(v);
    ScanDecidesExtendable(w[..k + 1]);
    assert FirstOffender(w, k);
    var line := NamesExist(code, k);
    if IsOpener(c) {
      ScanOpener(v, c);
    } else {
      ScanCloser(v, c);
    }
    if s == [] {
      ScanDecidesBalanced(v);
      r := Unmatched(c, line);
    } else {
      var p := s[|s| - 1];
      ScanTop(v, p);
      var topLine := NamesExist(code, p);
      assert InnermostOpen(w[..k], p) && v[p] == w[p];
      r := Mismatched(c, line, CloserOf(w[p]), w[p], topLine);
    }
  }

  // ----- The scanner -----

  /** The scanner's mode flags as one value. */
  datatype Mode = Code | InString(quote: char) | Escaped(quote: char) | LineComment | BlockComment

  function ModeOf(inString: bool, quote: char, escaped: bool, single: bool, multi: bool): Mode {
    if escaped then Escaped(quote)
    else if inString then InString(quote)
    else if single then LineComment
    else if multi then BlockComment
    else Code
  }

  /** What the lexer still has to read from position `p` in a given mode. */
  function Remaining(code: string, p: nat, mode: Mode): seq<Token>
    requires p <= |code|
  {
    match mode
    case Code => Lex(code, p)
    case InString(q) => Onward(code, LiteralEnd(code, p, q))
    case Escaped(q) => if p == |code| then [] else Onward(code, LiteralEnd(code, p + 1, q))
    case LineComment => Onward(code, LineEnd(code, p))
    case BlockComment => Onward(code, BlockEnd(code, p))
  }

  /** What the scanner has established when it stands at position `i`. */
  ghost predicate Reading(code: string, i: nat, mode: Mode, done: seq<Token>, open: seq<nat>, stack: seq<(char, nat)>) {
    && i <= |code|
    && Lex(code, 0) == done + Remaining(code, i, mode)
    && Scan(Chars(done)) == Some(open)
    && |stack| == |open|
    && forall j :: 0 <= j < |stack| ==> open[j] < |done| && Names(code, open[j], stack[j].0, stack[j].1)
  }

  /** Reading a bracket in code. */
  lemma {:induction false} ReadBracket(code: string, i: nat, done: seq<Token>, open: seq<nat>, stack: seq<(char, nat)>)
    requires Reading(code, i, Code, done, open, stack) && i < |code| && IsBracket(code[i])
    ensures Names(code, |done|, code[i], LineOf(code, i)) && |done| < |Word(code)|
    ensures Word(code)[..|done|] == Chars(done) && Word(code)[..|done| + 1] == Chars(done) + [code[i]]
    ensures Lex(code, 0) == done + [Token(code[i], i)] + Lex(code, i + 1)
    ensures Chars(done + [Token(code[i], i)]) == Chars(done) + [code[i]]
  {
    hide Scan, Names;
    LexAt(code, i, done);
    var t, rest := Token(code[i], i), Lex(code, i + 1);
    CharsConcat(done, [t]);
    CharsConcat(done + [t], rest);
    NamesAt(code, done + [t], rest);
  }

  lemma {:induction false} LexAt(code: string, i: nat, done: seq<Token>)
    requires i < |code| && IsBracket(code[i]) && Lex(code, 0) == done + Lex(code, i)
    ensures Lex(code, 0) == done + [Token(code[i], i)] + Lex(code, i + 1)
  {
    LexBracket(code, i);
    hide Lex;
    var t, rest := [Token(code[i], i)], Lex(code, i + 1);
    assert done + (t + rest) == done + t + rest;
  }

  lemma {:induction false} LexBracket(code: string, i: nat)
    requires i < |code| && IsBracket(code[i])
    ensures Lex(code, i) == [Token(code[i], i)] + Lex(code, i + 1)
  {
    ReadLexeme(code, i);
    hide LexemeEnd;
  }

  lemma NamesAt(code: string, done: seq<Token>, rest: seq<Token>)
    requires done != [] && Lex(code, 0) == done + rest && done[|done| - 1].pos < |code|
    ensures Names(code, |done| - 1, done[|done| - 1].ch, LineOf(code, done[|done| - 1].pos))
  {
    assert Lex(code, 0)[|done| - 1] == done[|done| - 1];
  }

  lemma CharsConcat(a: seq<Token>, b: seq<Token>)
    ensures Chars(a + b) == Chars(a) + Chars(b)
  {
  }

  lemma {:induction false} ReadOpener(code: string, i: nat, done: seq<Token>, open: seq<nat>, stack: seq<(char, nat)>)
    requires Reading(code, i, Code, done, open, stack) && i < |code| && IsOpener(code[i])
    ensures Reading(code, i + 1, Code, done + [Token(code[i], i)], open + [|done|], stack + [(code[i], LineOf(code, i))])
  {
    hide Scan;
    ReadBracket(code, i, done, open, stack);
    ScanOpener(Chars(done), code[i]);
  }

  /** A closing bracket that fits pops the innermost open one. */
  lemma {:induction false} ReadCloser(code: string, i: nat, done: seq<Token>, open: seq<nat>, stack: seq<(char, nat)>)
    requires Reading(code, i, Code, done, open, stack) && i < |code| && IsCloser(code[i]) && stack != []
    requires code[i] == CloserOf(TopOf(code, i, done, open, stack))
    ensures Reading(code, i + 1, Code, done + [Token(code[i], i)], open[..|open| - 1], stack[..|stack| - 1])
  {
    hide Scan;
    ReadBracket(code, i, done, open, stack);
    ScanCloser(Chars(done), code[i]);
  }

  /** The character on top of the scanner's stack is the opener that the stack of positions names. */
  ghost function TopOf(code: string, i: nat, done: seq<Token>, open: seq<nat>, stack: seq<(char, nat)>): (top: char)
    requires Reading(code, i, Code, done, open, stack) && stack != []
    ensures top == stack[|stack| - 1].0 && IsOpener(top)
    ensures open[|open| - 1] < |done| && top == Chars(done)[open[|open| - 1]]
  {
    var p := open[|open| - 1];
    assert Lex(code, 0)[p] == done[p] && Chars(done)[p] == done[p].ch;
    stack[|stack| - 1].0
  }

  lemma Offends(code: string, i: nat, done: seq<Token>, open: seq<nat>, stack: seq<(char, nat)>)
    requires Reading(code, i, Code, done, open, stack) && i < |code| && IsCloser(code[i])
    requires stack == [] || code[i] != CloserOf(TopOf(code, i, done, open, stack))
    ensures FirstOffender(Word(code), |done|) && Names(code, |done|, code[i], LineOf(code, i))
  {
    hide Scan, Extendable, Names, Word, Lex, Remaining, Chars, TopOf;
    var w := Chars(done);
    ScanDecidesExtendable(w);
    ScanDecidesExtendable(w + [code[i]]);
    ReadBracket(code, i, done, open, stack);
    ScanCloser(w, code[i]);
  }

  lemma ReadUnmatched(code: string, i: nat, done: seq<Token>, open: seq<nat>, stack: seq<(char, nat)>)
    requires Reading(code, i, Code, done, open, stack) && i < |code| && IsCloser(code[i]) && stack == []
    ensures Justified(code, Unmatched(code[i], LineOf(code, i)))
  {
    hide Scan, Balanced, FirstOffender, Names, Remaining, Word, Lex, LineOf;
    ReadBracket(code, i, done, open, stack);
    Offends(code, i, done, open, stack);
    ScanDecidesBalanced(Chars(done));
    assert FirstOffender(Word(code), |done|);
  }

  lemma ReadMismatched(code: string, i: nat, done: seq<Token>, open: seq<nat>, stack: seq<(char, nat)>)
    requires Reading(code, i, Code, done, open, stack) && i < |code| && IsCloser(code[i]) && stack != []
    requires code[i] != CloserOf(TopOf(code, i, done, open, stack))
    ensures var top := stack[|stack| - 1];
            Justified(code, Mismatched(code[i], LineOf(code, i), CloserOf(top.0), top.0, top.1))
  {
    hide Scan, InnermostOpen, FirstOffender, Names, Remaining, Word, Lex, LineOf, TopOf;
    ReadBracket(code, i, done, open, stack);
    Offends(code, i, done, open, stack);
    var p := open[|open| - 1];
    ScanTop(Chars(done), p);
    assert FirstOffender(Word(code), |done|) && InnermostOpen(Word(code)[..|done|], p);
  }

  lemma ReadEnd(code: string, mode: Mode, done: seq<Token>, open: seq<nat>, stack: seq<(char, nat)>)
    requires Reading(code, |code|, mode, done, open, stack)
    ensures stack == [] ==> Justified(code, Passed)
    ensures stack != [] ==> var top := stack[|stack| - 1]; Justified(code, Unclosed(top.0, top.1))
  {
    hide Scan, Extendable, Balanced, InnermostOpen, Names, LineOf, Lex;
    AllRead(code, mode, done);
    var w := Word(code);
    ScanDecidesExtendable(w);
    ScanDecidesBalanced(w);
    if stack != [] {
      ScanTop(w, open[|open| - 1]);
    }
  }

  lemma AllRead(code: string, mode: Mode, done: seq<Token>)
    requires Lex(code, 0) == done + Remaining(code, |code|, mode)
    ensures Lex(code, 0) == done && Word(code) == Chars(done)
  {
    assert Remaining(code, |code|, mode) == [];
  }

  lemma StartReading(code: string)
    ensures Reading(code, 0, Code, [], [], []) && LineOf(code, 0) == 1
  {
    assert Chars([]) == "" && [] + Lex(code, 0) == Lex(code, 0);
  }

  /** A lexeme without a bracket is skipped. */
  lemma {:induction false} ReadLexeme(code: string, i: nat)
    requires i < |code|
    ensures !IsBracket(code[i]) ==> Lex(code, i) == Onward(code, LexemeEnd(code, i))
    ensures LexemeEnd(code, i) ==
              if i + 1 < |code| && code[i] == '/' && code[i + 1] == '/' then LineEnd(code, i + 2)
              else if i + 1 < |code| && code[i] == '/' && code[i + 1] == '*' then BlockEnd(code, i + 2)
              else if IsQuote(code[i]) then LiteralEnd(code, i + 1, code[i])
              else Some(i + 1)
    ensures At(code, i, "*/") <==> i + 1 < |code| && code[i] == '*' && code[i + 1] == '/'
  {
    if i + 1 < |code| {
      assert code[i..i + 2] == [code[i], code[i + 1]];
    }
  }

  lemma LineAfter(code: string, i: nat)
    requires i < |code|
    ensures LineOf(code, i + 1) == LineOf(code, i) + (if code[i] == '\n' then 1 else 0)
  {
    assert code[..i + 1][..i] == code[..i];
  }

  /** The checker's report is the one that the grammar justifies. */
  method CheckJsSyntax(code: string) returns (report: Report)
    ensures Justified(code, report)
    ensures report.Passed? <==> Balanced(Word(code))
  {
    hide Justified, Scan, Lex, Names, LineOf, LexemeEnd, At, Word, Chars;
    var stack: seq<(char, nat)> := [];
    var inString, stringChar := false, '\0';
    var inCommentSingle, inCommentMulti, escaped := false, false, false;
    var i, lineNum := 0, 1;
    ghost var done: seq<Token>, open: seq<nat> := [], [];
    StartReading(code);

    while i < |code|
      invariant i <= |code| && lineNum == LineOf(code, i)
      invariant escaped ==> inString
      invariant !(inString && inCommentSingle) && !(inString && inCommentMulti) && !(inCommentSingle && inCommentMulti)
      invariant Reading(code, i, ModeOf(inString, stringChar, escaped, inCommentSingle, inCommentMulti), done, open, stack)
    {
      var ch := code[i];
      LineAfter(code, i);
      ReadLexeme(code, i);
      assert code[i] == ch;
      if ch == '\n' {
        lineNum := lineNum + 1;
        inCommentSingle := false;
      }
      if escaped {
        escaped := false;
        i := i + 1;
        continue;
      }
      if inString {
        if ch == '\\' {
          escaped := true;
        } else if ch == stringChar && !escaped {
          inString := false;
        }
        i := i + 1;
        continue;
      }
      if inCommentSingle {
        i := i + 1;
        continue;
      }
      if inCommentMulti {
        if ch == '*' && i + 1 < |code| && code[i + 1] == '/' {
          LineAfter(code, i + 1);
          inCommentMulti := false;
          i := i + 2;
          continue;
        }
        i := i + 1;
        continue;
      }
      if ch == '/' && i + 1 < |code| {
        if code[i + 1] == '/' {
          LineAfter(code, i + 1);
          inCommentSingle := true;
          i := i + 2;
          continue;
        } else if code[i + 1] == '*' {
          LineAfter(code, i + 1);
          inCommentMulti := true;
          i := i + 2;
          continue;
        }
      }
      if ch == '"' || ch == '\'' || ch == '`' {
        inString := true;
        stringChar := ch;
        i := i + 1;
        continue;
      }
      if ch == '(' || ch == '{' || ch == '[' {
        ReadOpener(code, i, done, open, stack);
        done, open := done + [Token(ch, i)], open + [|done|];
        stack := stack + [(ch, lineNum)];
      } else if ch == ')' || ch == '}' || ch == ']' {
        if stack == [] {
          ReadUnmatched(code, i, done, open, stack);
          report := Unmatched(ch, lineNum);
          JustifiedVerdict(code, report);
          return;
        }
        ghost var before, opener := stack, TopOf(code, i, done, open, stack);
        var top := stack[|stack| - 1];
        stack := stack[..|stack| - 1];
        var expected := if top.0 == '(' then ')' else if top.0 == '{' then '}' else ']';
        if ch != expected {
          ReadMismatched(code, i, done, open, before);
          report := Mismatched(ch, lineNum, expected, top.0, top.1);
          JustifiedVerdict(code, report);
          return;
        }
        ReadCloser(code, i, done, open, before);
        done, open := done + [Token(ch, i)], open[..|open| - 1];
      }
      i := i + 1;
    }
    ReadEnd(code, ModeOf(inString, stringChar, escaped, inCommentSingle, inCommentMulti), done, open, stack);
    if stack != [] {
      var top := stack[|stack| - 1];
      report := Unclosed(top.0, top.1);
      JustifiedVerdict(code, report);
      return;
    }
    report := Passed;
    JustifiedVerdict(code, report);
  }
}
