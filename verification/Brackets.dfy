/** The three-kind Dyck language, given by derivations, and the stack that decides it. */
module Brackets {
  import opened Text

  predicate IsOpener(c: char) {
    c == '(' || c == '{' || c == '['
  }

  predicate IsCloser(c: char) {
    c == ')' || c == '}' || c == ']'
  }

  function CloserOf(c: char): char
    requires IsOpener(c)
  {
    if c == '(' then ')' else if c == '{' then '}' else ']'
  }

  // ----- The grammar -----

  /** S -> empty | opener S closer S */
  datatype Dyck = Empty | Pair(opener: char, inside: Dyck, after: Dyck)

  ghost predicate Derives(d: Dyck, w: string) {
    match d
    case Empty => w == ""
    case Pair(o, inside, after) =>
      IsOpener(o) && exists x, y :: Derives(inside, x) && Derives(after, y) && w == [o] + x + [CloserOf(o)] + y
  }

  ghost predicate Balanced(w: string) {
    exists d :: Derives(d, w)
  }

  /** Some continuation turns `w` into a balanced word. */
  ghost predicate Extendable(w: string) {
    exists x :: Balanced(w + x)
  }

  /** Position `p` holds an opener and everything after it is balanced, so it is the
      innermost bracket still open at the end of `w`. */
  ghost predicate InnermostOpen(w: string, p: nat) {
    p < |w| && IsOpener(w[p]) && Balanced(w[p + 1..])
  }

  // ----- The stack -----

  /** The positions of the open brackets after reading `w` (the innermost last), or None
      when some closing bracket of `w` did not fit. */
  function Scan(w: string): Option<seq<nat>>
    ensures Scan(w).Some? ==> forall i :: 0 <= i < |Scan(w).value| ==> Scan(w).value[i] < |w| && IsOpener(w[Scan(w).value[i]])
  {
    if w == "" then Some([])
    else
      var c := w[|w| - 1];
      match Scan(w[..|w| - 1])
      case None => None
      case Some(stack) =>
        if IsOpener(c) then Some(stack + [|w| - 1])
        else if stack != [] && c == CloserOf(w[stack[|stack| - 1]]) then Some(stack[..|stack| - 1])
        else None
  }

  lemma ScanOpener(w: string, o: char)
    requires Scan(w).Some? && IsOpener(o)
    ensures Scan(w + [o]) == Some(Scan(w).value + [|w|])
  {
    assert (w + [o])[..|w|] == w;
  }

  lemma ScanCloser(w: string, c: char)
    requires Scan(w).Some? && !IsOpener(c)
    ensures var s := Scan(w).value;
            Scan(w + [c]) == if s != [] && c == CloserOf(w[s[|s| - 1]]) then Some(s[..|s| - 1]) else None
  {
    assert (w + [c])[..|w|] == w;
  }

  lemma {:induction false} ScanPrefix(w: string, x: string)
    ensures Scan(w).None? ==> Scan(w + x).None?
    decreases |x|
  {
    if x == "" {
      assert w + x == w;
    } else {
      assert (w + x)[..|w + x| - 1] == w + x[..|x| - 1];
      ScanPrefix(w, x[..|x| - 1]);
    }
  }

  lemma Regroup(u: string, o: char, x: string, c: char, y: string)
    ensures u + ([o] + x + [c] + y) == u + [o] + x + [c] + y
  {
  }

  /** A derivable word leaves the stack as it found it. */
  lemma {:induction false} ScanDerived(u: string, d: Dyck, w: string)
    requires Scan(u).Some? && Derives(d, w)
    ensures Scan(u + w) == Scan(u)
    decreases d
  {
    hide Scan;
    match d
    case Empty =>
      assert u + w == u;
    case Pair(o, inside, after) =>
      var x, y :| Derives(inside, x) && Derives(after, y) && w == [o] + x + [CloserOf(o)] + y;
      hide Derives;
      var s, u1 := Scan(u).value, u + [o];
      ScanOpener(u, o);
      ScanDerived(u1, inside, x);
      ScanCloser(u1 + x, CloserOf(o));
      assert (s + [|u|])[..|s|] == s;
      ScanDerived(u1 + x + [CloserOf(o)], after, y);
      Regroup(u, o, x, CloserOf(o), y);
  }

  lemma {:induction false} DerivesConcat(d: Dyck, x: string, e: Dyck, y: string) returns (f: Dyck)
    requires Derives(d, x) && Derives(e, y)
    ensures Derives(f, x + y)
    decreases d
  {
    match d
    case Empty =>
      f := e;
      assert x + y == y;
    case Pair(o, inside, after) =>
      var a, b :| Derives(inside, a) && Derives(after, b) && x == [o] + a + [CloserOf(o)] + b;
      var g := DerivesConcat(after, b, e, y);
      f := Pair(o, inside, g);
      Reassociate([o] + a + [CloserOf(o)], b, y);
  }

  lemma Reassociate(x: string, y: string, z: string)
    ensures x + y + z == x + (y + z)
  {
  }

  /** Appending a matched pair to a balanced word. */
  lemma BalancedSnoc(x: string, o: char, y: string)
    requires Balanced(x) && IsOpener(o) && Balanced(y)
    ensures Balanced(x + [o] + y + [CloserOf(o)])
  {
    hide Derives;
    var d :| Derives(d, x);
    var e :| Derives(e, y);
    var p := [o] + y + [CloserOf(o)];
    DerivesPair(o, e, y);
    var f := DerivesConcat(d, x, Pair(o, e, Empty), p);
    assert x + p == x + [o] + y + [CloserOf(o)];
  }

  lemma DerivesPair(o: char, e: Dyck, y: string)
    requires IsOpener(o) && Derives(e, y)
    ensures Derives(Pair(o, e, Empty), [o] + y + [CloserOf(o)])
  {
    assert [o] + y + [CloserOf(o)] == [o] + y + [CloserOf(o)] + "";
    assert Derives(Empty, "");
  }

  lemma BalancedEmpty()
    ensures Balanced("")
  {
    assert Derives(Empty, "");
  }

  /** What the stack means: the text after the innermost open bracket is balanced, and
      the text before it leaves the rest of the stack. */
  ghost predicate Gaps(w: string, s: seq<nat>) {
    if s == [] then Balanced(w)
    else
      var p := s[|s| - 1];
      p < |w| && Balanced(w[p + 1..]) && Scan(w[..p]) == Some(s[..|s| - 1])
  }

  lemma GapsAfterOpener(w: string, o: char)
    requires Scan(w).Some? && IsOpener(o)
    ensures Gaps(w + [o], Scan(w).value + [|w|])
  {
    hide Scan, Balanced, IsOpener;
    BalancedEmpty();
    var s := Scan(w).value;
    assert (w + [o])[|w| + 1..] == "" && (w + [o])[..|w|] == w && (s + [|w|])[..|s|] == s;
  }

  lemma GapsAfterCloser(w: string, s: seq<nat>, p: nat)
    requires p < |w| && IsOpener(w[p]) && Balanced(w[p + 1..]) && Gaps(w[..p], s) && (s != [] ==> s[|s| - 1] < p)
    ensures Gaps(w + [CloserOf(w[p])], s)
  {
    hide Scan, Balanced;
    var o, c := w[p], CloserOf(w[p]);
    if s == [] {
      BalancedSnoc(w[..p], o, w[p + 1..]);
      assert w + [c] == w[..p] + [o] + w[p + 1..] + [c];
    } else {
      var q := s[|s| - 1];
      assert w[..p][q + 1..] == w[q + 1..p];
      BalancedSnoc(w[q + 1..p], o, w[p + 1..]);
      assert (w + [c])[q + 1..] == w[q + 1..p] + [o] + w[p + 1..] + [c];
      assert (w + [c])[..q] == w[..p][..q];
    }
  }

  lemma ScanInit(w: string)
    requires w != "" && Scan(w).Some?
    ensures Scan(w[..|w| - 1]).Some?
  {
  }

  lemma {:induction false} ScanGaps(w: string)
    requires Scan(w).Some?
    ensures Gaps(w, Scan(w).value)
    decreases |w|
  {
    hide Scan, Balanced, Gaps;
    if w == "" {
      GapsEmpty();
    } else {
      var v, c := w[..|w| - 1], w[|w| - 1];
      assert w == v + [c];
      ScanInit(w);
      ScanGaps(v);
      if IsOpener(c) {
        ScanOpener(v, c);
        GapsAfterOpener(v, c);
      } else {
        ScanCloser(v, c);
        var t := Scan(v).value;
        var p := t[|t| - 1];
        GapsTop(v, t);
        ScanGaps(v[..p]);
        GapsAfterCloser(v, t[..|t| - 1], p);
      }
    }
  }

  lemma GapsEmpty()
    ensures Scan("") == Some([]) && Gaps("", [])
  {
    BalancedEmpty();
  }

  lemma GapsTop(w: string, s: seq<nat>)
    requires Gaps(w, s) && s != []
    ensures var p := s[|s| - 1]; p < |w| && Balanced(w[p + 1..]) && Scan(w[..p]) == Some(s[..|s| - 1])
  {
    hide Scan, Balanced;
  }

  /** The stack decides the grammar. */
  lemma ScanDecidesBalanced(w: string)
    ensures Balanced(w) <==> Scan(w) == Some([])
  {
    if Balanced(w) {
      var d :| Derives(d, w);
      ScanDerived("", d, w);
      assert "" + w == w;
    }
    if Scan(w) == Some([]) {
      ScanGaps(w);
      assert Gaps(w, []);
    }
  }

  /** Closing the open brackets, innermost first, completes any word the stack accepted. */
  lemma {:induction false} CompleteScan(w: string) returns (x: string)
    requires Scan(w).Some?
    ensures Scan(w + x) == Some([]) && forall c :: c in x ==> IsCloser(c)
    decreases |Scan(w).value|
  {
    hide Scan;
    var s := Scan(w).value;
    if s == [] {
      x := "";
      assert w + x == w;
    } else {
      var c := CloserOf(w[s[|s| - 1]]);
      ScanCloser(w, c);
      var y := CompleteScan(w + [c]);
      x := [c] + y;
      assert w + x == w + [c] + y;
    }
  }

  /** The stack rejects exactly the words that no continuation can balance. */
  lemma ScanDecidesExtendable(w: string)
    ensures Extendable(w) <==> Scan(w).Some?
  {
    if Extendable(w) {
      var x :| Balanced(w + x);
      ScanDecidesBalanced(w + x);
      ScanPrefix(w, x);
    }
    if Scan(w).Some? {
      var x := CompleteScan(w);
      ScanDecidesBalanced(w + x);
    }
  }

  /** The top of the stack is the innermost open bracket, and the only one. */
  lemma ScanTop(w: string, p: nat)
    requires Scan(w).Some?
    ensures InnermostOpen(w, p) <==> Scan(w).value != [] && p == Scan(w).value[|Scan(w).value| - 1]
  {
    hide Scan, Derives;
    var s := Scan(w).value;
    ScanGaps(w);
    if InnermostOpen(w, p) {
      var u, v := w[..p], w[p + 1..];
      assert w == u + [w[p]] + v;
      ScanPrefix(u, [w[p]] + v);
      assert u + ([w[p]] + v) == w;
      ScanOpener(u, w[p]);
      var d :| Derives(d, v);
      ScanDerived(u + [w[p]], d, v);
    }
  }

  // ----- The language in plain characters -----

  /** A word is balanced exactly when it is empty or starts with a round, curly or square
      pair around a balanced word, followed by a balanced word. */
  lemma {:induction false} BalancedUnfolds(w: string)
    ensures Balanced(w) <==>
              (w == "" || exists x, y ::
                Balanced(x) && Balanced(y)
                && (w == "(" + x + ")" + y || w == "{" + x + "}" + y || w == "[" + x + "]" + y))
  {
    hide Derives;
    BalancedEmpty();
    if Balanced(w) {
      var d :| Derives(d, w);
      if w != "" {
        var x, y := FirstPair(d, w);
      }
    }
    if x, y :| Balanced(x) && Balanced(y)
               && (w == "(" + x + ")" + y || w == "{" + x + "}" + y || w == "[" + x + "]" + y) {
      PairFirst(w[0], x, y);
    }
  }

  lemma FirstPair(d: Dyck, w: string) returns (x: string, y: string)
    requires Derives(d, w) && w != ""
    ensures Balanced(x) && Balanced(y)
    ensures w == "(" + x + ")" + y || w == "{" + x + "}" + y || w == "[" + x + "]" + y
  {
    x, y :| Derives(d.inside, x) && Derives(d.after, y) && w == [d.opener] + x + [CloserOf(d.opener)] + y;
  }

  lemma PairFirst(o: char, x: string, y: string)
    requires IsOpener(o) && Balanced(x) && Balanced(y)
    ensures Balanced([o] + x + [CloserOf(o)] + y)
  {
    var d :| Derives(d, x);
    var e :| Derives(e, y);
    assert Derives(Pair(o, d, e), [o] + x + [CloserOf(o)] + y);
  }

  /** Around a balanced word, only a bracket and its own partner are balanced. */
  lemma PairExactly(o: char, x: string, c: char)
    requires Balanced(x)
    ensures Balanced([o] + x + [c]) <==> (o == '(' && c == ')') || (o == '{' && c == '}') || (o == '[' && c == ']')
  {
    hide Scan, Derives;
    ScanDecidesBalanced([o] + x + [c]);
    var none: seq<nat> := [];
    assert Scan("") == Some(none) by {
      BalancedEmpty();
      ScanDecidesBalanced("");
    }
    assert "" + [o] == [o];
    if IsOpener(o) {
      ScanOpener("", o);
      var d :| Derives(d, x);
      ScanDerived([o], d, x);
      if IsOpener(c) {
        ScanOpener([o] + x, c);
      } else {
        ScanCloser([o] + x, c);
      }
    } else {
      ScanCloser("", o);
      ScanPrefix([o], x + [c]);
      assert [o] + (x + [c]) == [o] + x + [c];
    }
  }
}
