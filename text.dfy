/**
 * The string operations the core relies on, with Python's meaning, over ASCII:
 * str.isspace, str.strip, str.split(), str.splitlines(), str(int), and the
 * code-point order SQLite's BINARY collation puts on text.
 */
module Text {
  import opened Wrappers

  /** str.isspace() on ASCII: \t \n \v \f \r, the separators \x1c-\x1f, and the space. */
  predicate IsSpace(c: char)
  {
    c == ' ' || ('\t' <= c <= '\r') || ('\U{1C}' <= c <= '\U{1F}')
  }

  /** The line boundaries str.splitlines() knows on ASCII: \n \v \f \r \x1c \x1d \x1e. */
  predicate IsLineBreak(c: char)
  {
    ('\n' <= c <= '\r') || ('\U{1C}' <= c <= '\U{1E}')
  }

  predicate IsBlank(s: string)
  {
    forall i :: 0 <= i < |s| ==> IsSpace(s[i])
  }

  predicate NoSpace(s: string)
  {
    forall i :: 0 <= i < |s| ==> !IsSpace(s[i])
  }

  predicate NoBreak(s: string)
  {
    forall i :: 0 <= i < |s| ==> !IsLineBreak(s[i])
  }

  // ---------------------------------------------------------------------------
  // strip

  /** str.strip(): the text without its leading and trailing whitespace. */
  function Strip(s: string): (r: string)
    ensures r == [] <==> IsBlank(s)
    ensures r != [] ==> !IsSpace(r[0]) && !IsSpace(r[|r| - 1])
    ensures |r| <= |s|
    decreases |s|
  {
    if s == [] then []
    else if IsSpace(s[0]) then Strip(s[1..])
    else if IsSpace(s[|s| - 1]) then Strip(s[..|s| - 1])
    else s
  }

  /** A text with nothing to strip: it neither starts nor ends with whitespace. */
  predicate Trimmed(s: string)
  {
    s == [] || (!IsSpace(s[0]) && !IsSpace(s[|s| - 1]))
  }

  /** Stripping changes nothing in a trimmed text; in particular strip() is idempotent. */
  lemma StripUnchanged(s: string)
    requires Trimmed(s)
    ensures Strip(s) == s
    ensures Strip(Strip(s)) == Strip(s)
  {
  }

  /** Where strip() cuts: the bounds of what it keeps, found the way strip() finds them. */
  ghost function StripBounds(s: string): (b: (nat, nat))
    ensures b.0 <= b.1 <= |s|
    decreases |s|
  {
    if s == [] then (0, 0)
    else if IsSpace(s[0]) then var b := StripBounds(s[1..]); (b.0 + 1, b.1 + 1)
    else if IsSpace(s[|s| - 1]) then StripBounds(s[..|s| - 1])
    else (0, |s|)
  }

  /** The property of the bounds, for one text. */
  ghost predicate CutAt(s: string, b: (nat, nat))
  {
    b.0 <= b.1 <= |s| && Strip(s) == s[b.0..b.1] && IsBlank(s[..b.0]) && IsBlank(s[b.1..])
  }

  /** What lies outside the bounds is whitespace, and what strip() keeps is the text between them. */
  lemma {:induction false} StripBoundsCut(s: string)
    ensures CutAt(s, StripBounds(s))
    decreases |s|
  {
    if s == [] {
    } else if IsSpace(s[0]) {
      StripBoundsCut(s[1..]);
      CutAfterSpace(s, StripBounds(s[1..]));
    } else if IsSpace(s[|s| - 1]) {
      StripBoundsCut(s[..|s| - 1]);
      CutBeforeSpace(s, StripBounds(s[..|s| - 1]));
    } else {
      assert s[0..|s|] == s;
    }
  }

  /** A leading space moves both bounds one place on. */
  lemma CutAfterSpace(s: string, b: (nat, nat))
    requires s != [] && IsSpace(s[0]) && CutAt(s[1..], b)
    ensures CutAt(s, (b.0 + 1, b.1 + 1))
  {
    var t := s[1..];
    assert Strip(s) == Strip(t);
    assert s[b.0 + 1..b.1 + 1] == t[b.0..b.1];
    assert s[b.1 + 1..] == t[b.1..];
    var front := s[..b.0 + 1];
    assert IsBlank(front) by {
      forall k | 0 <= k < |front| ensures IsSpace(front[k]) {
        if k > 0 {
          assert front[k] == t[..b.0][k - 1];
        }
      }
    }
  }

  /** A trailing space, once the text starts with no space, leaves the bounds where they are. */
  lemma CutBeforeSpace(s: string, b: (nat, nat))
    requires s != [] && !IsSpace(s[0]) && IsSpace(s[|s| - 1]) && CutAt(s[..|s| - 1], b)
    ensures CutAt(s, b)
  {
    var t := s[..|s| - 1];
    assert Strip(s) == Strip(t);
    assert s[b.0..b.1] == t[b.0..b.1] && s[..b.0] == t[..b.0];
    var back := s[b.1..];
    assert IsBlank(back) by {
      forall k | 0 <= k < |back| ensures IsSpace(back[k]) {
        if k < |t| - b.1 {
          assert back[k] == t[b.1..][k];
        }
      }
    }
  }

  /** strip() cuts whitespace off the two ends and nothing else: the result is the middle of the text. */
  lemma StripIsMiddle(s: string)
    ensures exists i, j :: 0 <= i <= j <= |s| && Strip(s) == s[i..j] && IsBlank(s[..i]) && IsBlank(s[j..])
  {
    StripBoundsCut(s);
    var b := StripBounds(s);
    assert CutAt(s, b);
  }

  // ---------------------------------------------------------------------------
  // split and splitlines

  /** Length of the leading run of non-whitespace characters. */
  function WordLen(s: string): (n: nat)
    ensures n <= |s| && NoSpace(s[..n]) && (n == |s| || IsSpace(s[n]))
  {
    if s == [] || IsSpace(s[0]) then 0
    else
      var n := WordLen(s[1..]);
      assert s[..n + 1] == [s[0]] + s[1..][..n];
      n + 1
  }

  /** str.split() with no argument: the maximal runs of non-whitespace, in order. */
  function Split(s: string): (r: seq<string>)
    ensures forall k :: 0 <= k < |r| ==> r[k] != [] && NoSpace(r[k])
    decreases |s|
  {
    if s == [] then []
    else if IsSpace(s[0]) then Split(s[1..])
    else
      var n := WordLen(s);
      [s[..n]] + Split(s[n..])
  }

  /** A whitespace-only text has no tokens. */
  lemma {:induction false} SplitOfBlank(s: string)
    requires IsBlank(s)
    ensures Split(s) == []
    decreases |s|
  {
    if s != [] {
      SplitOfBlank(s[1..]);
    }
  }

  /**
   * The whitespace around and between the tokens of str.split(): one run more than
   * there are tokens, the runs between two tokens never empty.
   */
  function Gaps(s: string): (g: seq<string>)
    ensures |g| == |Split(s)| + 1
    ensures forall k :: 0 <= k < |g| ==> IsBlank(g[k])
    ensures forall k :: 0 < k < |g| - 1 ==> g[k] != []
    ensures s != [] && IsSpace(s[0]) ==> g[0] != []
    decreases |s|
  {
    if s == [] then [[]]
    else if IsSpace(s[0]) then
      var g := Gaps(s[1..]);
      [[s[0]] + g[0]] + g[1..]
    else
      var n := WordLen(s);
      SplitOfWord(s);
      [[]] + Gaps(s[n..])
  }

  /** The tokens and the whitespace runs taken in turn, starting and ending with a run. */
  function Interleave(gaps: seq<string>, tokens: seq<string>): string
    requires |gaps| == |tokens| + 1
  {
    if tokens == [] then gaps[0] else gaps[0] + tokens[0] + Interleave(gaps[1..], tokens[1..])
  }

  /** str.split() cuts the text only at whitespace: the tokens and the runs between them rebuild it. */
  lemma {:induction false} SplitRejoins(s: string)
    ensures s == Interleave(Gaps(s), Split(s))
    decreases |s|
  {
    if s == [] {
    } else if IsSpace(s[0]) {
      SplitRejoins(s[1..]);
      RejoinAfterSpace(s);
    } else {
      SplitRejoins(s[WordLen(s)..]);
      RejoinAfterWord(s);
    }
  }

  /** One step of the above: a leading space joins the first run. */
  lemma RejoinAfterSpace(s: string)
    requires s != [] && IsSpace(s[0])
    requires s[1..] == Interleave(Gaps(s[1..]), Split(s[1..]))
    ensures s == Interleave(Gaps(s), Split(s))
  {
    var g, ts := Gaps(s[1..]), Split(s[1..]);
    assert Gaps(s) == [[s[0]] + g[0]] + g[1..];
    assert Split(s) == ts;
    InterleaveLongerGap(s[0], g, ts);
    Cut2(s, 1);
    assert s[..1] == [s[0]];
  }

  /** One step of the above: a leading word is the first token, after an empty run. */
  lemma RejoinAfterWord(s: string)
    requires s != [] && !IsSpace(s[0])
    requires s[WordLen(s)..] == Interleave(Gaps(s[WordLen(s)..]), Split(s[WordLen(s)..]))
    ensures s == Interleave(Gaps(s), Split(s))
  {
    var n := WordLen(s);
    var g, ts := Gaps(s[n..]), Split(s[n..]);
    assert Split(s) == [s[..n]] + ts by { SplitOfWord(s); }
    assert Gaps(s) == [[]] + g;
    assert Interleave([[]] + g, [s[..n]] + ts) == s[..n] + s[n..] by {
      InterleaveToken(s[..n], g, ts);
    }
    Cut2(s, n);
  }

  /** A character added to the first run comes first. */
  lemma InterleaveLongerGap(c: char, gaps: seq<string>, tokens: seq<string>)
    requires |gaps| == |tokens| + 1
    ensures Interleave([[c] + gaps[0]] + gaps[1..], tokens) == [c] + Interleave(gaps, tokens)
  {
    var g' := [[c] + gaps[0]] + gaps[1..];
    assert g'[0] == [c] + gaps[0] && g'[1..] == gaps[1..];
  }

  /** A token after an empty first run comes first. */
  lemma InterleaveToken(w: string, gaps: seq<string>, tokens: seq<string>)
    requires |gaps| == |tokens| + 1
    ensures Interleave([[]] + gaps, [w] + tokens) == w + Interleave(gaps, tokens)
  {
    var g', t' := [[]] + gaps, [w] + tokens;
    assert g'[0] == [] && g'[1..] == gaps && t'[0] == w && t'[1..] == tokens;
  }

  /** Length of the leading run of characters that end no line. */
  function LineLen(s: string): (n: nat)
    ensures n <= |s| && NoBreak(s[..n]) && (n == |s| || IsLineBreak(s[n]))
  {
    if s == [] || IsLineBreak(s[0]) then 0
    else
      var n := LineLen(s[1..]);
      assert s[..n + 1] == [s[0]] + s[1..][..n];
      n + 1
  }

  /** Width of the line boundary at s[n]: two for "\r\n", one otherwise. */
  function BreakLen(s: string, n: nat): (w: nat)
    requires n < |s| && IsLineBreak(s[n])
    ensures 1 <= w && n + w <= |s|
  {
    if s[n] == '\r' && n + 1 < |s| && s[n + 1] == '\n' then 2 else 1
  }

  /** str.splitlines(): the lines of a text without their terminators. */
  function SplitLines(s: string): (r: seq<string>)
    ensures forall k :: 0 <= k < |r| ==> NoBreak(r[k])
    decreases |s|
  {
    if s == [] then []
    else
      var n := LineLen(s);
      if n == |s| then [s]
      else [s[..n]] + SplitLines(s[n + BreakLen(s, n)..])
  }

  /** A line boundary str.splitlines() recognises: "\r\n", or one line-break character. */
  predicate IsTerminator(t: string)
  {
    (|t| == 2 && t[0] == '\r' && t[1] == '\n') || (|t| == 1 && IsLineBreak(t[0]))
  }

  /** The boundary at the end of the first line is one str.splitlines() recognises. */
  lemma BreakIsTerminator(s: string, n: nat)
    requires n < |s| && IsLineBreak(s[n])
    ensures IsTerminator(s[n..n + BreakLen(s, n)])
  {
    var t := s[n..n + BreakLen(s, n)];
    assert t[0] == s[n];
    if BreakLen(s, n) == 2 {
      assert t[1] == s[n + 1];
    }
  }

  /** Each line followed by its terminator, in order. */
  function JoinLines(lines: seq<string>, ts: seq<string>): string
    requires |ts| <= |lines|
  {
    if lines == [] then []
    else if ts == [] then lines[0] + JoinLines(lines[1..], [])
    else lines[0] + ts[0] + JoinLines(lines[1..], ts[1..])
  }

  /**
   * str.splitlines() cuts the text only at line boundaries: there are terminators it
   * recognises, one after every line but perhaps the last, that rebuild the text with the lines.
   */
  lemma {:induction false} SplitLinesRejoins(s: string) returns (ts: seq<string>)
    ensures var ls := SplitLines(s);
      (|ts| == |ls| || |ts| + 1 == |ls|) && s == JoinLines(ls, ts)
      && forall k :: 0 <= k < |ts| ==> IsTerminator(ts[k])
    decreases |s|
  {
    ts := [];
    if s != [] {
      var n := LineLen(s);
      if n == |s| {
        assert SplitLines(s) == [s];
        assert JoinLines([s], []) == s + JoinLines([], []);
      } else {
        var w := BreakLen(s, n);
        var rest := s[n + w..];
        var more := SplitLinesRejoins(rest);
        SplitLinesStep(s, n);
        Cut3(s, n, n + w);
        BreakIsTerminator(s, n);
        RejoinAfterLine(s, s[..n], s[n..n + w], rest, SplitLines(rest), more);
        ts := [s[n..n + w]] + more;
      }
    }
  }

  /** One step of the above: a line and its terminator before lines and terminators that rebuild the rest. */
  lemma RejoinAfterLine(s: string, line: string, t: string, rest: string, ls: seq<string>, ts: seq<string>)
    requires s == line + t + rest
    requires (|ts| == |ls| || |ts| + 1 == |ls|) && rest == JoinLines(ls, ts)
    requires IsTerminator(t) && forall k :: 0 <= k < |ts| ==> IsTerminator(ts[k])
    ensures |[t] + ts| == |[line] + ls| || |[t] + ts| + 1 == |[line] + ls|
    ensures s == JoinLines([line] + ls, [t] + ts)
    ensures forall k :: 0 <= k < |[t] + ts| ==> IsTerminator(([t] + ts)[k])
  {
    JoinLinesCons(line, t, ls, ts);
  }

  /** A text is its two pieces put back together. */
  lemma Cut2<T>(s: seq<T>, i: nat)
    requires i <= |s|
    ensures s == s[..i] + s[i..]
  {
  }

  /** A text is its three pieces put back together. */
  lemma Cut3<T>(s: seq<T>, i: nat, j: nat)
    requires i <= j <= |s|
    ensures s == s[..i] + s[i..j] + s[j..]
  {
  }

  lemma JoinLinesCons(line: string, t: string, lines: seq<string>, ts: seq<string>)
    requires |ts| <= |lines|
    ensures JoinLines([line] + lines, [t] + ts) == line + t + JoinLines(lines, ts)
  {
    var l', t' := [line] + lines, [t] + ts;
    assert l'[0] == line && l'[1..] == lines && t'[0] == t && t'[1..] == ts;
  }

  function Flatten(ls: seq<string>): string
  {
    if ls == [] then [] else ls[0] + Flatten(ls[1..])
  }

  /** The lines that are not whitespace-only, in order. */
  function NonBlank(ls: seq<string>): seq<string>
  {
    if ls == [] then []
    else NonBlank(ls[..|ls| - 1]) + (if IsBlank(ls[|ls| - 1]) then [] else [ls[|ls| - 1]])
  }

  /** The character as a one-element text, or nothing when it is whitespace. */
  function KeepVisible(c: char): string
  {
    if IsSpace(c) then [] else [c]
  }

  function KeepNonBreak(c: char): string
  {
    if IsLineBreak(c) then [] else [c]
  }

  function RemoveSpaces(s: string): string
  {
    if s == [] then [] else KeepVisible(s[0]) + RemoveSpaces(s[1..])
  }

  function RemoveBreaks(s: string): string
  {
    if s == [] then [] else KeepNonBreak(s[0]) + RemoveBreaks(s[1..])
  }

  lemma {:induction false} RemoveSpacesAppend(a: string, b: string)
    ensures RemoveSpaces(a + b) == RemoveSpaces(a) + RemoveSpaces(b)
  {
    if a == [] {
      assert a + b == b;
    } else {
      assert (a + b)[0] == a[0] && (a + b)[1..] == a[1..] + b;
      RemoveSpacesAppend(a[1..], b);
      calc {
        RemoveSpaces(a + b);
        KeepVisible(a[0]) + RemoveSpaces(a[1..] + b);
        KeepVisible(a[0]) + (RemoveSpaces(a[1..]) + RemoveSpaces(b));
        (KeepVisible(a[0]) + RemoveSpaces(a[1..])) + RemoveSpaces(b);
      }
    }
  }

  lemma {:induction false} RemoveBreaksAppend(a: string, b: string)
    ensures RemoveBreaks(a + b) == RemoveBreaks(a) + RemoveBreaks(b)
  {
    if a == [] {
      assert a + b == b;
    } else {
      assert (a + b)[0] == a[0] && (a + b)[1..] == a[1..] + b;
      RemoveBreaksAppend(a[1..], b);
      calc {
        RemoveBreaks(a + b);
        KeepNonBreak(a[0]) + RemoveBreaks(a[1..] + b);
        KeepNonBreak(a[0]) + (RemoveBreaks(a[1..]) + RemoveBreaks(b));
        (KeepNonBreak(a[0]) + RemoveBreaks(a[1..])) + RemoveBreaks(b);
      }
    }
  }

  lemma {:induction false} RemoveSpacesOfBlank(s: string)
    requires IsBlank(s)
    ensures RemoveSpaces(s) == []
  {
    if s != [] {
      RemoveSpacesOfBlank(s[1..]);
    }
  }

  lemma {:induction false} RemoveSpacesOfWord(s: string)
    requires NoSpace(s)
    ensures RemoveSpaces(s) == s
  {
    if s != [] {
      RemoveSpacesOfWord(s[1..]);
    }
  }

  lemma {:induction false} RemoveBreaksOfLine(s: string)
    requires NoBreak(s)
    ensures RemoveBreaks(s) == s
  {
    if s != [] {
      RemoveBreaksOfLine(s[1..]);
    }
  }

  lemma {:induction false} FlattenAppend(a: seq<string>, b: seq<string>)
    ensures Flatten(a + b) == Flatten(a) + Flatten(b)
  {
    if a == [] {
      assert a + b == b;
    } else {
      assert (a + b)[0] == a[0] && (a + b)[1..] == a[1..] + b;
      FlattenAppend(a[1..], b);
      calc {
        Flatten(a + b);
        a[0] + Flatten(a[1..] + b);
        a[0] + (Flatten(a[1..]) + Flatten(b));
        (a[0] + Flatten(a[1..])) + Flatten(b);
      }
    }
  }

  /** str.split() loses exactly the whitespace: its tokens put together are the text without it. */
  lemma {:induction false} SplitKeepsEveryVisibleChar(s: string)
    ensures Flatten(Split(s)) == RemoveSpaces(s)
    decreases |s|
  {
    if s != [] {
      if IsSpace(s[0]) {
        SplitKeepsEveryVisibleChar(s[1..]);
        SplitSpaceStep(s);
      } else {
        SplitKeepsEveryVisibleChar(s[WordLen(s)..]);
        SplitWordStep(s);
      }
    }
  }

  /** A text starting with a visible character: its first token is the leading word. */
  lemma SplitOfWord(s: string)
    requires s != [] && !IsSpace(s[0])
    ensures Split(s) == [s[..WordLen(s)]] + Split(s[WordLen(s)..])
  {
  }

  /** Removing whitespace leaves a leading word as it is. */
  lemma RemoveSpacesAfterWord(s: string, n: nat)
    requires n <= |s| && NoSpace(s[..n])
    ensures RemoveSpaces(s) == s[..n] + RemoveSpaces(s[n..])
  {
    RemoveSpacesOfWord(s[..n]);
    RemoveSpacesAppend(s[..n], s[n..]);
    assert s[..n] + s[n..] == s;
  }

  /** One step of the above: leading whitespace yields no token and no character. */
  lemma SplitSpaceStep(s: string)
    requires s != [] && IsSpace(s[0])
    requires Flatten(Split(s[1..])) == RemoveSpaces(s[1..])
    ensures Flatten(Split(s)) == RemoveSpaces(s)
  {
    assert Split(s) == Split(s[1..]);
    assert RemoveSpaces(s) == KeepVisible(s[0]) + RemoveSpaces(s[1..]);
    assert KeepVisible(s[0]) == [];
  }

  /** One step of the above: the leading word, then the tokens of the rest. */
  lemma SplitWordStep(s: string)
    requires s != [] && !IsSpace(s[0])
    requires Flatten(Split(s[WordLen(s)..])) == RemoveSpaces(s[WordLen(s)..])
    ensures Flatten(Split(s)) == RemoveSpaces(s)
  {
    var n := WordLen(s);
    SplitOfWord(s);
    FlattenCons(s[..n], Split(s[n..]));
    RemoveSpacesAfterWord(s, n);
  }

  /** A line terminator contributes nothing once line breaks are removed. */
  lemma RemoveBreaksOfTerminator(s: string, n: nat)
    requires n < |s| && IsLineBreak(s[n])
    ensures RemoveBreaks(s[n..n + BreakLen(s, n)]) == []
  {
    var t := s[n..n + BreakLen(s, n)];
    assert t[0] == s[n];
    var u := t[1..];
    if BreakLen(s, n) == 2 {
      assert u[0] == '\n' && u[1..] == [];
      assert RemoveBreaks(u) == KeepNonBreak(u[0]) + RemoveBreaks(u[1..]);
    } else {
      assert u == [];
    }
    assert RemoveBreaks(t) == KeepNonBreak(t[0]) + RemoveBreaks(u);
  }

  /** One step of str.splitlines(): the first line, then the lines after its terminator. */
  lemma SplitLinesStep(s: string, n: nat)
    requires s != [] && n == LineLen(s) && n < |s|
    ensures SplitLines(s) == [s[..n]] + SplitLines(s[n + BreakLen(s, n)..])
  {
  }

  /** Removing breaks from a line, its terminator and the rest keeps the line and the rest. */
  lemma RemoveBreaksSplit(line: string, term: string, rest: string)
    requires NoBreak(line) && RemoveBreaks(term) == []
    ensures RemoveBreaks(line + term + rest) == line + RemoveBreaks(rest)
  {
    calc {
      RemoveBreaks(line + term + rest);
      { assert line + term + rest == line + (term + rest); }
      RemoveBreaks(line + (term + rest));
      { RemoveBreaksAppend(line, term + rest); }
      RemoveBreaks(line) + RemoveBreaks(term + rest);
      { RemoveBreaksOfLine(line); RemoveBreaksAppend(term, rest); }
      line + ([] + RemoveBreaks(rest));
      { assert [] + RemoveBreaks(rest) == RemoveBreaks(rest); }
      line + RemoveBreaks(rest);
    }
  }

  lemma FlattenCons(x: string, ls: seq<string>)
    ensures Flatten([x] + ls) == x + Flatten(ls)
  {
    var xs := [x] + ls;
    assert xs[0] == x && xs[1..] == ls;
  }

  /** str.splitlines() loses exactly the line terminators. */
  lemma {:induction false} SplitLinesDropsOnlyBreaks(s: string)
    ensures Flatten(SplitLines(s)) == RemoveBreaks(s)
    decreases |s|
  {
    if s != [] {
      var n := LineLen(s);
      if n == |s| {
        RemoveBreaksOfLine(s);
        assert s[..n] == s;
        FlattenCons(s, []);
      } else {
        var w := BreakLen(s, n);
        var rest := s[n + w..];
        RemoveBreaksOfTerminator(s, n);
        assert s == s[..n] + s[n..n + w] + rest;
        RemoveBreaksSplit(s[..n], s[n..n + w], rest);
        SplitLinesStep(s, n);
        FlattenCons(s[..n], SplitLines(rest));
        SplitLinesDropsOnlyBreaks(rest);
      }
    }
  }

  /** Line terminators are whitespace, so dropping them keeps every visible character. */
  lemma {:induction false} RemoveBreaksKeepsVisible(s: string)
    ensures RemoveSpaces(RemoveBreaks(s)) == RemoveSpaces(s)
  {
    if s != [] {
      RemoveBreaksKeepsVisible(s[1..]);
      RemoveSpacesAppend(KeepNonBreak(s[0]), RemoveBreaks(s[1..]));
      assert RemoveSpaces(KeepNonBreak(s[0])) == KeepVisible(s[0]) by {
        if !IsLineBreak(s[0]) {
          assert RemoveSpaces([s[0]]) == KeepVisible(s[0]) + RemoveSpaces([]);
        }
      }
    }
  }

  /** Dropping blank lines keeps every visible character of the lines. */
  lemma {:induction false} NonBlankKeepsVisible(ls: seq<string>)
    ensures RemoveSpaces(Flatten(NonBlank(ls))) == RemoveSpaces(Flatten(ls))
  {
    if ls != [] {
      var init, last := ls[..|ls| - 1], ls[|ls| - 1];
      assert ls == init + [last];
      NonBlankKeepsVisible(init);
      FlattenAppend(init, [last]);
      var kept := if IsBlank(last) then [] else [last];
      FlattenAppend(NonBlank(init), kept);
      RemoveSpacesAppend(Flatten(NonBlank(init)), Flatten(kept));
      RemoveSpacesAppend(Flatten(init), Flatten([last]));
      assert Flatten([last]) == last + Flatten([]);
      assert Flatten([last]) == last;
      if IsBlank(last) {
        RemoveSpacesOfBlank(last);
        assert Flatten(kept) == [];
        assert NonBlank(ls) == NonBlank(init);
      } else {
        assert Flatten(kept) == last;
        assert NonBlank(ls) == NonBlank(init) + [last];
      }
    }
  }

  // ---------------------------------------------------------------------------
  // decimal text of integers

  predicate IsDigit(c: char)
  {
    '0' <= c <= '9'
  }

  predicate AllDigits(s: string)
  {
    forall i :: 0 <= i < |s| ==> IsDigit(s[i])
  }

  function DigitChar(d: nat): (c: char)
    requires d < 10
    ensures IsDigit(c)
  {
    (48 + d) as char
  }

  function DigitValue(c: char): (d: nat)
    requires IsDigit(c)
    ensures d < 10
  {
    c as int - 48
  }

  /** str() of a non-negative int: its decimal digits. */
  function NatToString(n: nat): (r: string)
    ensures r != [] && AllDigits(r)
  {
    if n < 10 then [DigitChar(n)] else NatToString(n / 10) + [DigitChar(n % 10)]
  }

  /** The value of a string of decimal digits (0 for the empty string). */
  function ParseNat(s: string): nat
    requires AllDigits(s)
  {
    if s == [] then 0 else 10 * ParseNat(s[..|s| - 1]) + DigitValue(s[|s| - 1])
  }

  /** Reading the digits back gives the number: str() of a nat is a lossless encoding. */
  lemma {:induction false} ParseNatOfNatToString(n: nat)
    ensures ParseNat(NatToString(n)) == n
  {
    if n >= 10 {
      var s := NatToString(n);
      assert s[..|s| - 1] == NatToString(n / 10);
      ParseNatOfNatToString(n / 10);
    }
  }

  /** str() of an int: an optional minus sign and the digits of its magnitude. */
  function IntToString(i: int): (r: string)
    ensures r != []
  {
    if i < 0 then "-" + NatToString(-i) else NatToString(i)
  }

  /** int() of text: an optional minus sign followed by at least one digit. */
  function ParseInt(s: string): Option<int>
  {
    if |s| >= 2 && s[0] == '-' && AllDigits(s[1..]) then Some(0 - ParseNat(s[1..]) as int)
    else if s != [] && AllDigits(s) then Some(ParseNat(s))
    else None
  }

  /** int(str(i)) == i for every integer. */
  lemma IntToStringRoundTrip(i: int)
    ensures ParseInt(IntToString(i)) == Some(i)
  {
    if i < 0 {
      var s := IntToString(i);
      assert s[1..] == NatToString(-i);
      ParseNatOfNatToString(-i);
    } else {
      ParseNatOfNatToString(i);
    }
  }

  /** Distinct integers have distinct decimal texts. */
  lemma IntToStringInjective(i: int, j: int)
    requires IntToString(i) == IntToString(j)
    ensures i == j
  {
    IntToStringRoundTrip(i);
    IntToStringRoundTrip(j);
  }

  function Pow10(w: nat): (p: nat)
    ensures p >= 1
  {
    if w == 0 then 1 else 10 * Pow10(w - 1)
  }

  /** The last `width` decimal digits of n, zero-padded on the left (strftime's %m, %d, ...). */
  function Digits(n: nat, width: nat): (r: string)
    ensures |r| == width && AllDigits(r)
  {
    if width == 0 then [] else Digits(n / 10, width - 1) + [DigitChar(n % 10)]
  }

  lemma {:induction false} ParseNatOfDigits(n: nat, width: nat)
    requires n < Pow10(width)
    ensures ParseNat(Digits(n, width)) == n
  {
    if width > 0 {
      var s := Digits(n, width);
      assert s[..|s| - 1] == Digits(n / 10, width - 1);
      ParseNatOfDigits(n / 10, width - 1);
    }
  }

  // ---------------------------------------------------------------------------
  // ordering of text

  /** a <= b in code-point order, which is the order SQLite's BINARY collation gives UTF-8 text. */
  predicate LexLe(a: string, b: string)
    decreases |a|
  {
    a == [] || (b != [] && (a[0] < b[0] || (a[0] == b[0] && LexLe(a[1..], b[1..]))))
  }

  lemma {:induction false} LexLeTotal(a: string, b: string)
    ensures LexLe(a, b) || LexLe(b, a)
    decreases |a|
  {
    if a != [] && b != [] && a[0] == b[0] {
      LexLeTotal(a[1..], b[1..]);
    }
  }

  lemma {:induction false} LexLeTransitive(a: string, b: string, c: string)
    requires LexLe(a, b) && LexLe(b, c)
    ensures LexLe(a, c)
    decreases |a|
  {
    if a != [] && a[0] == b[0] && b[0] == c[0] {
      LexLeTransitive(a[1..], b[1..], c[1..]);
    }
  }
}
