/** Character classes, `istream >> string` tokenisation, `getline` line
    splitting and `std::replace`, as the C++ standard library performs them
    in the C locale. Characters stand for the bytes of the file. */
module Text {

  /** `isspace` in the C locale: space, tab, newline, vertical tab, form feed
      and carriage return. */
  predicate IsSpace(c: char)
  {
    c == ' ' || c == '\t' || c == '\n' || c == '\U{0B}' || c == '\U{0C}' || c == '\r'
  }

  predicate NoSpace(s: string)
  {
    forall k :: 0 <= k < |s| ==> !IsSpace(s[k])
  }

  predicate AllSpace(s: string)
  {
    forall k :: 0 <= k < |s| ==> IsSpace(s[k])
  }

  /** What one successful `>>` into a string can produce. */
  predicate IsWord(s: string)
  {
    |s| > 0 && NoSpace(s)
  }

  predicate AllWords(ws: seq<string>)
  {
    forall i :: 0 <= i < |ws| ==> IsWord(ws[i])
  }

  /** Length of the run of non-whitespace characters that starts `s`. */
  function WordLen(s: string): (n: nat)
    ensures n <= |s|
    ensures NoSpace(s[..n])
    ensures n < |s| ==> IsSpace(s[n])
  {
    if s == [] || IsSpace(s[0]) then 0
    else
      var m := WordLen(s[1..]);
      assert s[..m + 1] == [s[0]] + s[1..][..m];
      m + 1
  }

  /** The strings that repeated `in >> str` extracts from `s` until it fails:
      each extraction skips whitespace, then takes the longest run of
      non-whitespace characters. */
  function Tokens(s: string): (ts: seq<string>)
    ensures AllWords(ts)
    decreases |s|
  {
    if s == [] then []
    else if IsSpace(s[0]) then Tokens(s[1..])
    else
      var n := WordLen(s);
      [s[..n]] + Tokens(s[n..])
  }

  /** The value variable number `k` holds after the chain
      `in >> v0 >> v1 >> ...` over a stream whose tokens are `ts`, when it
      held `prior` before. A failed extraction leaves its target unchanged and
      puts the stream in a failed state, so every later extraction fails too. */
  function Extracted(ts: seq<string>, k: nat, prior: string): (v: string)
    ensures |ts| <= k ==> v == prior
    ensures v == prior || v in ts
  {
    if k < |ts| then ts[k] else prior
  }

  /** Length of the run of whitespace that starts `s`. */
  function SpaceLen(s: string): (n: nat)
    ensures n <= |s|
    ensures AllSpace(s[..n])
    ensures n < |s| ==> !IsSpace(s[n])
  {
    if s == [] || !IsSpace(s[0]) then 0
    else
      var m := SpaceLen(s[1..]);
      assert s[..m + 1] == [s[0]] + s[1..][..m];
      m + 1
  }

  /** `parts` with `sep` between consecutive elements. */
  function Join(parts: seq<string>, sep: string): string
  {
    if |parts| == 0 then ""
    else if |parts| == 1 then parts[0]
    else parts[0] + sep + Join(parts[1..], sep)
  }

  /** `gaps[0] + ws[0] + gaps[1] + ws[1] + ... + ws[n-1] + gaps[n]`. */
  function Interleave(gaps: seq<string>, ws: seq<string>): string
    requires |gaps| == |ws| + 1
  {
    if ws == [] then gaps[0] else gaps[0] + ws[0] + Interleave(gaps[1..], ws[1..])
  }

  /** Whitespace runs fit to separate words: every gap is whitespace, and the
      gaps strictly between two words are not empty. */
  predicate Separators(gaps: seq<string>)
  {
    |gaps| >= 1 &&
    (forall i :: 0 <= i < |gaps| ==> AllSpace(gaps[i])) &&
    (forall i :: 0 < i < |gaps| - 1 ==> gaps[i] != "")
  }

  /** The whitespace runs of `s` around and between its tokens. */
  function Gaps(s: string): (gaps: seq<string>)
    ensures |gaps| >= 1
    decreases |s|
  {
    if s == [] then [""]
    else if IsSpace(s[0]) then
      var g := Gaps(s[1..]);
      [[s[0]] + g[0]] + g[1..]
    else [""] + Gaps(s[WordLen(s)..])
  }

  /** The gaps of a single-space join: nothing at either end, one space
      between consecutive words. */
  function SingleSpaced(n: nat): (gaps: seq<string>)
    ensures |gaps| == n + 1
  {
    if n <= 1 then seq(n + 1, _ => "") else [""] + [" "] + SingleSpaced(n - 1)[1..]
  }

  lemma {:induction false} WordLenOfWord(w: string, rest: string)
    requires NoSpace(w)
    requires rest == [] || IsSpace(rest[0])
    ensures WordLen(w + rest) == |w|
  {
    if w != [] {
      assert (w + rest)[1..] == w[1..] + rest;
      WordLenOfWord(w[1..], rest);
    }
  }

  lemma {:induction false} TokensSkipSpace(g: string, rest: string)
    requires AllSpace(g)
    ensures Tokens(g + rest) == Tokens(rest)
  {
    if g == [] {
      assert g + rest == rest;
    } else {
      assert (g + rest)[0] == g[0] && IsSpace(g[0]);
      assert (g + rest)[1..] == g[1..] + rest;
      assert AllSpace(g[1..]) by {
        forall k | 0 <= k < |g[1..]| ensures IsSpace(g[1..][k]) {
          assert g[1..][k] == g[k + 1];
        }
      }
      TokensSkipSpace(g[1..], rest);
    }
  }

  /** A word followed by whitespace, or by nothing, is extracted whole. */
  lemma TokensOfWordThen(w: string, rest: string)
    requires IsWord(w)
    requires rest == [] || IsSpace(rest[0])
    ensures Tokens(w + rest) == [w] + Tokens(rest)
  {
    WordLenOfWord(w, rest);
    assert (w + rest)[..|w|] == w;
    assert (w + rest)[|w|..] == rest;
  }

  lemma InterleaveCons(gaps: seq<string>, ws: seq<string>)
    requires |gaps| == |ws| + 1 && ws != []
    ensures Interleave(gaps, ws) == gaps[0] + (ws[0] + Interleave(gaps[1..], ws[1..]))
  {
  }

  /** Two words between three gaps. */
  lemma InterleaveTwo(g0: string, w0: string, g1: string, w1: string, g2: string)
    ensures Interleave([g0, g1, g2], [w0, w1]) == g0 + w0 + g1 + w1 + g2
  {
    var g, ws := [g0, g1, g2], [w0, w1];
    assert g[1..] == [g1, g2] && ws[1..] == [w1];
    assert [g1, g2][1..] == [g2] && [w1][1..] == [];
    InterleaveCons(g, ws);
    InterleaveCons([g1, g2], [w1]);
    assert Interleave([g2], []) == g2;
  }

  /** What follows a word in an interleaving starts with whitespace or is empty. */
  lemma StartsApart(gaps: seq<string>, ws: seq<string>)
    requires |gaps| == |ws| + 1
    requires AllSpace(gaps[0]) && (ws != [] ==> gaps[0] != "")
    ensures Interleave(gaps, ws) == [] || IsSpace(Interleave(gaps, ws)[0])
  {
    if ws != [] {
      InterleaveCons(gaps, ws);
      assert Interleave(gaps, ws)[0] == gaps[0][0];
    }
  }

  lemma SeparatorsTail(gaps: seq<string>)
    requires Separators(gaps) && |gaps| >= 2
    ensures Separators(gaps[1..])
  {
    var t := gaps[1..];
    forall i | 0 <= i < |t| ensures AllSpace(t[i]) {
      assert t[i] == gaps[i + 1];
    }
    forall i | 0 < i < |t| - 1 ensures t[i] != "" {
      assert t[i] == gaps[i + 1];
    }
  }

  /** Tokenising undoes interleaving words with separators: the tokens of such
      a string are exactly its words, in order. */
  lemma {:induction false} TokensOfInterleave(gaps: seq<string>, ws: seq<string>)
    requires |gaps| == |ws| + 1
    requires Separators(gaps) && AllWords(ws)
    ensures Tokens(Interleave(gaps, ws)) == ws
  {
    if ws == [] {
      TokensSkipSpace(gaps[0], "");
      assert gaps[0] + "" == gaps[0];
    } else {
      var g1, w1 := gaps[1..], ws[1..];
      var rest := Interleave(g1, w1);
      SeparatorsTail(gaps);
      assert AllWords(w1) by {
        forall i | 0 <= i < |w1| ensures IsWord(w1[i]) {
          assert w1[i] == ws[i + 1];
        }
      }
      TokensOfInterleave(g1, w1);
      assert w1 != [] ==> g1[0] != "" by {
        if w1 != [] { assert g1[0] == gaps[1]; }
      }
      StartsApart(g1, w1);
      TokensOfWordThen(ws[0], rest);
      InterleaveCons(gaps, ws);
      TokensSkipSpace(gaps[0], ws[0] + rest);
    }
  }

  /** Moving a whitespace character into the leading gap. */
  lemma InterleaveHeadGap(c: char, g: seq<string>, ts: seq<string>)
    requires |g| == |ts| + 1
    ensures Interleave([[c] + g[0]] + g[1..], ts) == [c] + Interleave(g, ts)
  {
    var h := [[c] + g[0]] + g[1..];
    assert h[0] == [c] + g[0] && h[1..] == g[1..];
    if ts != [] {
      var r := ts[0] + Interleave(g[1..], ts[1..]);
      InterleaveCons(h, ts);
      InterleaveCons(g, ts);
      assert Interleave(h, ts) == ([c] + g[0]) + r;
      assert Interleave(g, ts) == g[0] + r;
      assert ([c] + g[0]) + r == [c] + (g[0] + r);
    }
  }

  lemma DecomposeSpace(s: string)
    requires s != [] && IsSpace(s[0])
    requires |Gaps(s[1..])| == |Tokens(s[1..])| + 1
    requires Separators(Gaps(s[1..]))
    requires Interleave(Gaps(s[1..]), Tokens(s[1..])) == s[1..]
    ensures |Gaps(s)| == |Tokens(s)| + 1
    ensures Separators(Gaps(s))
    ensures Interleave(Gaps(s), Tokens(s)) == s
  {
    var g := Gaps(s[1..]);
    assert Gaps(s) == [[s[0]] + g[0]] + g[1..];
    assert Tokens(s) == Tokens(s[1..]);
    InterleaveHeadGap(s[0], g, Tokens(s[1..]));
    SeparatorsWithSpace(s[0], g);
    assert [s[0]] + s[1..] == s;
  }

  lemma SeparatorsWithSpace(c: char, g: seq<string>)
    requires IsSpace(c) && Separators(g)
    ensures Separators([[c] + g[0]] + g[1..])
  {
    var gs := [[c] + g[0]] + g[1..];
    forall i | 0 <= i < |gs| ensures AllSpace(gs[i]) {
      if i == 0 {
        assert AllSpace(g[0]);
      } else {
        assert gs[i] == g[i];
      }
    }
    forall i | 0 < i < |gs| - 1 ensures gs[i] != "" {
      assert gs[i] == g[i];
    }
  }

  lemma DecomposeWord(s: string)
    requires s != [] && !IsSpace(s[0])
    requires |Gaps(s[WordLen(s)..])| == |Tokens(s[WordLen(s)..])| + 1
    requires Separators(Gaps(s[WordLen(s)..]))
    requires Interleave(Gaps(s[WordLen(s)..]), Tokens(s[WordLen(s)..])) == s[WordLen(s)..]
    ensures |Gaps(s)| == |Tokens(s)| + 1
    ensures Separators(Gaps(s))
    ensures Interleave(Gaps(s), Tokens(s)) == s
  {
    var n := WordLen(s);
    var w, t := s[..n], s[n..];
    var gt, tt := Gaps(t), Tokens(t);
    WordHead(s);
    GapBeforeWord(t);
    assert tt != [] ==> t != [];
    SeparatorsAfterWord(gt);
    InterleaveWord(gt, w, tt);
  }

  /** The gaps and tokens of a string that starts with a word. */
  lemma WordHead(s: string)
    requires s != [] && !IsSpace(s[0])
    ensures var n := WordLen(s);
            Gaps(s) == [""] + Gaps(s[n..]) && Tokens(s) == [s[..n]] + Tokens(s[n..]) &&
            s[..n] + s[n..] == s && (s[n..] == [] || IsSpace(s[n..][0]))
  {
    var n := WordLen(s);
    WordHeadGaps(s, n);
    WordHeadTokens(s, n);
    WordHeadRest(s, n);
  }

  lemma WordHeadGaps(s: string, n: nat)
    requires s != [] && !IsSpace(s[0]) && n == WordLen(s)
    ensures Gaps(s) == [""] + Gaps(s[n..])
  {
  }

  lemma WordHeadTokens(s: string, n: nat)
    requires s != [] && !IsSpace(s[0]) && n == WordLen(s)
    ensures Tokens(s) == [s[..n]] + Tokens(s[n..])
  {
  }

  lemma WordHeadRest(s: string, n: nat)
    requires n == WordLen(s)
    ensures s[..n] + s[n..] == s && (s[n..] == [] || IsSpace(s[n..][0]))
  {
    if n < |s| {
      assert s[n..][0] == s[n];
    }
  }

  /** What follows a word starts with its whitespace gap. */
  lemma GapBeforeWord(t: string)
    requires t == [] || IsSpace(t[0])
    ensures t != [] ==> Gaps(t)[0] != ""
  {
    if t != [] {
      assert Gaps(t)[0] == [t[0]] + Gaps(t[1..])[0];
    }
  }

  lemma SeparatorsAfterWord(gt: seq<string>)
    requires Separators(gt) && (|gt| > 1 ==> gt[0] != "")
    ensures Separators([""] + gt)
  {
    var gs := [""] + gt;
    forall i | 0 <= i < |gs| ensures AllSpace(gs[i]) {
      if i > 0 { assert gs[i] == gt[i - 1]; }
    }
    forall i | 0 < i < |gs| - 1 ensures gs[i] != "" {
      assert gs[i] == gt[i - 1];
    }
  }

  lemma InterleaveWord(gt: seq<string>, w: string, tt: seq<string>)
    requires |gt| == |tt| + 1
    ensures Interleave([""] + gt, [w] + tt) == w + Interleave(gt, tt)
  {
    var gs, ws := [""] + gt, [w] + tt;
    InterleaveCons(gs, ws);
    assert gs[0] == "" && gs[1..] == gt && ws[0] == w && ws[1..] == tt;
    assert "" + (w + Interleave(gt, tt)) == w + Interleave(gt, tt);
  }

  /** Every string is its tokens interleaved with its whitespace runs. */
  lemma {:induction false} Decompose(s: string)
    ensures |Gaps(s)| == |Tokens(s)| + 1
    ensures Separators(Gaps(s))
    ensures Interleave(Gaps(s), Tokens(s)) == s
    decreases |s|
  {
    if s == [] {
    } else if IsSpace(s[0]) {
      Decompose(s[1..]);
      DecomposeSpace(s);
    } else {
      Decompose(s[WordLen(s)..]);
      DecomposeWord(s);
    }
  }

  /** Joining with single spaces is interleaving with the single-space gaps. */
  lemma {:induction false} JoinIsSingleSpaced(ws: seq<string>)
    ensures Join(ws, " ") == Interleave(SingleSpaced(|ws|), ws)
  {
    if |ws| == 0 {
    } else if |ws| == 1 {
      assert Interleave(SingleSpaced(1), ws) == "" + ws[0] + "";
    } else {
      var s, g, t := SingleSpaced(|ws|), SingleSpaced(|ws| - 1), ws[1..];
      JoinIsSingleSpaced(t);
      var j := Join(t, " ");
      SingleSpacedStep(|ws|);
      InterleaveCons(s, ws);
      InterleaveHeadGap(' ', g, t);
      assert Interleave(s, ws) == ws[0] + ([' '] + j);
      assert Join(ws, " ") == (ws[0] + " ") + j;
      AppendAssoc(ws[0], " ", j);
    }
  }

  lemma SingleSpacedStep(n: nat)
    requires n >= 2
    ensures var g := SingleSpaced(n - 1);
            SingleSpaced(n)[0] == "" && SingleSpaced(n)[1..] == [[' '] + g[0]] + g[1..]
  {
    var g := SingleSpaced(n - 1);
    assert g[0] == "" by {
      if n - 1 <= 1 {
        assert g == seq(n, _ => "");
      }
    }
    assert [' '] + g[0] == " ";
    assert SingleSpaced(n) == [""] + [" "] + g[1..];
  }

  lemma SingleSpacedSeparates(n: nat)
    ensures Separators(SingleSpaced(n))
  {
    var g := SingleSpaced(n);
    forall i | 0 <= i < |g| ensures AllSpace(g[i]) && (0 < i < |g| - 1 ==> g[i] == " ") {
      SingleSpacedAt(n, i);
    }
  }

  lemma {:induction false} SingleSpacedAt(n: nat, i: nat)
    requires i <= n
    ensures i == 0 || i == n ==> SingleSpaced(n)[i] == ""
    ensures 0 < i < n ==> SingleSpaced(n)[i] == " "
  {
    if n > 1 && i > 1 {
      SingleSpacedAt(n - 1, i - 1);
    }
  }

  /** Tokenising a single-space join of words gives the words back. */
  lemma TokensOfJoin(ws: seq<string>)
    requires AllWords(ws)
    ensures Tokens(Join(ws, " ")) == ws
  {
    JoinIsSingleSpaced(ws);
    SingleSpacedSeparates(|ws|);
    TokensOfInterleave(SingleSpaced(|ws|), ws);
  }

  // ---------------------------------------------------------------------
  // Lines, as successive `std::getline(stream, line)` calls return them

  /** Length of the prefix of `s` before its first '\n'. */
  function LineLen(s: string): (n: nat)
    ensures n <= |s|
    ensures '\n' !in s[..n]
    ensures n < |s| ==> s[n] == '\n'
  {
    if s == [] || s[0] == '\n' then 0
    else
      var m := LineLen(s[1..]);
      assert s[..m + 1] == [s[0]] + s[1..][..m];
      m + 1
  }

  /** The lines `while (std::getline(stream, line))` visits: the pieces between
      '\n' characters, where a final '\n' does not start another line and an
      empty stream has none. */
  function Lines(s: string): (ls: seq<string>)
    ensures forall i :: 0 <= i < |ls| ==> '\n' !in ls[i]
    ensures s != [] <==> ls != []
    decreases |s|
  {
    if s == [] then []
    else
      var n := LineLen(s);
      if n == |s| then [s] else [s[..n]] + Lines(s[n + 1..])
  }

  /** What a single `std::getline(stream, line)` stores: everything before the
      first '\n' (the whole stream when there is none, "" for an empty one). */
  function FirstLine(s: string): (l: string)
    ensures '\n' !in l
    ensures s != [] ==> l == Lines(s)[0]
  {
    s[..LineLen(s)]
  }

  predicate EndsWithNewline(s: string)
  {
    |s| > 0 && s[|s| - 1] == '\n'
  }

  /** The lines, joined back with '\n' and followed by the final '\n' if there
      was one, are the whole stream: getline loses nothing but the newlines. */
  lemma {:induction false} LinesRestore(s: string)
    ensures Join(Lines(s), "\n") + (if EndsWithNewline(s) then "\n" else "") == s
    decreases |s|
  {
    if s != [] {
      var n := LineLen(s);
      if n == |s| {
        LinesWhole(s);
      } else {
        var a, t := s[..n], s[n + 1..];
        LinesHead(s);
        if t != [] {
          LinesRestore(t);
          RestoreAfterLine(s, a, t);
        }
      }
    }
  }

  lemma RestoreAfterLine(s: string, a: string, t: string)
    requires s == a + "\n" + t && t != [] && Lines(s) == [a] + Lines(t)
    requires EndsWithNewline(s) == EndsWithNewline(t)
    requires Join(Lines(t), "\n") + (if EndsWithNewline(t) then "\n" else "") == t
    ensures Join(Lines(s), "\n") + (if EndsWithNewline(s) then "\n" else "") == s
  {
    var j := Join(Lines(t), "\n");
    var e := if EndsWithNewline(t) then "\n" else "";
    assert Lines(t) != [];
    JoinCons(a, Lines(t), "\n");
    assert Join(Lines(s), "\n") == a + "\n" + j;
    AppendAssoc(a + "\n", j, e);
  }

  lemma AppendAssoc(x: string, y: string, z: string)
    ensures (x + y) + z == x + (y + z)
  {
  }

  /** A stream without a '\n' is one line. */
  lemma LinesWhole(s: string)
    requires s != [] && LineLen(s) == |s|
    ensures Lines(s) == [s] && !EndsWithNewline(s)
  {
    assert s[..|s|] == s;
    assert s[|s| - 1] in s[..|s|];
  }

  /** The first line of a stream that holds a '\n', and what follows it. */
  lemma LinesHead(s: string)
    requires s != [] && LineLen(s) < |s|
    ensures var n := LineLen(s);
            s == s[..n] + "\n" + s[n + 1..] &&
            Lines(s) == [s[..n]] + Lines(s[n + 1..]) &&
            (s[n + 1..] == [] ==> Lines(s) == [s[..n]] && EndsWithNewline(s)) &&
            (s[n + 1..] != [] ==> EndsWithNewline(s) == EndsWithNewline(s[n + 1..]))
  {
    var n := LineLen(s);
    LineBreakAt(s, n);
    LinesStep(s);
    NewlineAfterBreak(s, n);
  }

  lemma LineBreakAt(s: string, n: nat)
    requires n == LineLen(s) < |s|
    ensures s == s[..n] + "\n" + s[n + 1..]
  {
    SplitAt(s, n);
    assert [s[n]] == "\n";
  }

  lemma LinesStep(s: string)
    requires s != [] && LineLen(s) < |s|
    ensures Lines(s) == [s[..LineLen(s)]] + Lines(s[LineLen(s) + 1..])
  {
  }

  lemma NewlineAfterBreak(s: string, n: nat)
    requires n == LineLen(s) < |s|
    ensures s[n + 1..] == [] ==> EndsWithNewline(s)
    ensures s[n + 1..] != [] ==> EndsWithNewline(s) == EndsWithNewline(s[n + 1..])
  {
    var t := s[n + 1..];
    if t != [] {
      assert s[|s| - 1] == t[|t| - 1];
    }
  }

  lemma SplitAt(s: string, n: nat)
    requires n < |s|
    ensures s == s[..n] + [s[n]] + s[n + 1..]
  {
  }

  lemma JoinCons(a: string, parts: seq<string>, sep: string)
    requires parts != []
    ensures Join([a] + parts, sep) == a + sep + Join(parts, sep)
  {
    assert ([a] + parts)[0] == a && ([a] + parts)[1..] == parts;
  }

  lemma {:induction false} LineLenOfLine(a: string, rest: string)
    requires '\n' !in a
    requires rest == [] || rest[0] == '\n'
    ensures LineLen(a + rest) == |a|
  {
    if a != [] {
      assert (a + rest)[1..] == a[1..] + rest;
      LineLenOfLine(a[1..], rest);
    }
  }

  /** Reading a line that ends in '\n', then the rest. */
  lemma LinesCons(a: string, rest: string)
    requires '\n' !in a
    ensures Lines(a + "\n" + rest) == [a] + Lines(rest)
    ensures FirstLine(a + "\n" + rest) == a
  {
    LineLenOfLine(a, "\n" + rest);
    assert a + "\n" + rest == a + ("\n" + rest);
    assert (a + "\n" + rest)[..|a|] == a;
    assert (a + "\n" + rest)[|a| + 1..] == rest;
  }

  /** A last line without a final '\n'. */
  lemma LinesLast(a: string)
    requires a != [] && '\n' !in a
    ensures Lines(a) == [a] && FirstLine(a) == a
  {
    LineLenOfLine(a, "");
    assert a + "" == a;
  }

  /** Separators that stay on one line. */
  predicate OnOneLine(gaps: seq<string>)
  {
    forall i :: 0 <= i < |gaps| ==> '\n' !in gaps[i]
  }

  lemma {:induction false} InterleaveOnOneLine(gaps: seq<string>, ws: seq<string>)
    requires |gaps| == |ws| + 1 && OnOneLine(gaps) && AllWords(ws)
    ensures '\n' !in Interleave(gaps, ws)
    decreases |ws|
  {
    if ws != [] {
      assert OnOneLine(gaps[1..]) by {
        forall i | 0 <= i < |gaps[1..]| ensures '\n' !in gaps[1..][i] {
          assert gaps[1..][i] == gaps[i + 1];
        }
      }
      assert AllWords(ws[1..]) by {
        forall i | 0 <= i < |ws[1..]| ensures IsWord(ws[1..][i]) {
          assert ws[1..][i] == ws[i + 1];
        }
      }
      InterleaveOnOneLine(gaps[1..], ws[1..]);
      InterleaveCons(gaps, ws);
      assert IsWord(ws[0]) && IsSpace('\n');
    }
  }

  /** The tokens of a first line made of words and separators are the words,
      whether or not more lines follow. */
  lemma TokensOfFirstLine(gaps: seq<string>, ws: seq<string>, rest: string)
    requires |gaps| == |ws| + 1
    requires Separators(gaps) && OnOneLine(gaps) && AllWords(ws)
    ensures Tokens(FirstLine(Interleave(gaps, ws) + "\n" + rest)) == ws
    ensures Tokens(FirstLine(Interleave(gaps, ws))) == ws
  {
    var line := Interleave(gaps, ws);
    InterleaveOnOneLine(gaps, ws);
    LinesCons(line, rest);
    LineLenOfLine(line, "");
    assert line + "" == line;
    TokensOfInterleave(gaps, ws);
  }

  // ---------------------------------------------------------------------
  // std::replace

  /** `s` with every `from` replaced by `to`. */
  function Replace(s: string, from: char, to: char): (r: string)
    ensures |r| == |s|
    ensures from != to ==> from !in r
  {
    seq(|s|, k requires 0 <= k < |s| => if s[k] == from then to else s[k])
  }

  /** Replacing in a concatenation is replacing in each part. */
  lemma ReplaceAppend(a: string, b: string, from: char, to: char)
    ensures Replace(a + b, from, to) == Replace(a, from, to) + Replace(b, from, to)
  {
    var l, r := Replace(a + b, from, to), Replace(a, from, to) + Replace(b, from, to);
    forall k | 0 <= k < |l| ensures l[k] == r[k] {
      if k < |a| {
        assert (a + b)[k] == a[k];
      } else {
        assert (a + b)[k] == b[k - |a|];
      }
    }
  }

  lemma ReplaceFour(a: string, b: string, c: string, d: string, from: char, to: char)
    ensures Replace(a + b + c + d, from, to) ==
              Replace(a, from, to) + Replace(b, from, to) + Replace(c, from, to) + Replace(d, from, to)
  {
    ReplaceAppend(a + b + c, d, from, to);
    ReplaceAppend(a + b, c, from, to);
    ReplaceAppend(a, b, from, to);
  }

  /** A string without `from` is left as it is. */
  lemma ReplaceAbsent(s: string, from: char, to: char)
    requires from !in s
    ensures Replace(s, from, to) == s
  {
  }

  /** A character other than `to` is in the result only where it was in `s`. */
  lemma ReplaceKeepsAbsent(s: string, from: char, to: char, c: char)
    requires c !in s && c != to
    ensures c !in Replace(s, from, to)
  {
  }

  /** Replacing `from` by a character `to` that `s` lacks, then back, restores `s`. */
  lemma ReplaceUndo(s: string, from: char, to: char)
    requires to !in s
    ensures Replace(Replace(s, from, to), to, from) == s
  {
  }

  /** `std::replace(a.begin(), a.end(), from, to)` on a string's buffer. */
  method ReplaceInPlace(a: array<char>, from: char, to: char)
    modifies a
    ensures a[..] == Replace(old(a[..]), from, to)
  {
    var i := 0;
    while i < a.Length
      invariant 0 <= i <= a.Length
      invariant forall k :: 0 <= k < i ==> a[k] == if old(a[k]) == from then to else old(a[k])
      invariant forall k :: i <= k < a.Length ==> a[k] == old(a[k])
    {
      if a[i] == from {
        a[i] := to;
      }
      i := i + 1;
    }
  }
}
