/** The parts of Python's str that the modelled code relies on. */
module PyText {
  import opened Wrappers

  // str.isspace
  predicate IsSpace(c: char) {
    || '\t' <= c <= '\r'
    || '\U{1c}' <= c <= ' '
    || c in {'\U{85}', '\U{a0}', '\U{1680}', '\U{2028}', '\U{2029}', '\U{202f}', '\U{205f}', '\U{3000}'}
    || '\U{2000}' <= c <= '\U{200a}'
  }

  // The separators of str.splitlines.
  predicate IsBreak(c: char) {
    '\n' <= c <= '\r' || '\U{1c}' <= c <= '\U{1e}' || c in {'\U{85}', '\U{2028}', '\U{2029}'}
  }

  predicate OneLine(s: string) {
    forall i | 0 <= i < |s| :: !IsBreak(s[i])
  }

  // ---------- str.splitlines ----------

  // Where the first line of s ends.
  function LineEnd(s: string): (n: nat)
    ensures n <= |s| && OneLine(s[..n])
    ensures n < |s| ==> IsBreak(s[n])
  {
    if s == "" || IsBreak(s[0]) then 0
    else
      assert s == [s[0]] + s[1..];
      1 + LineEnd(s[1..])
  }

  // How long the separator at n is; "\r\n" counts as one.
  function BreakLength(s: string, n: nat): (k: nat)
    requires n < |s|
    ensures 1 <= k <= |s| - n
  {
    if s[n] == '\r' && n + 1 < |s| && s[n + 1] == '\n' then 2 else 1
  }

  function SplitLines(s: string): (lines: seq<string>)
    ensures forall i | 0 <= i < |lines| :: OneLine(lines[i])
    decreases |s|
  {
    if s == "" then []
    else
      var n := LineEnd(s);
      if n == |s| then [s] else [s[..n]] + SplitLines(s[n + BreakLength(s, n)..])
  }

  // Every line followed by "\n".
  function Unlines(lines: seq<string>): string {
    if lines == [] then "" else lines[0] + "\n" + Unlines(lines[1..])
  }

  lemma {:induction false} LineEndOf(line: string, rest: string)
    requires OneLine(line) && (rest == "" || IsBreak(rest[0]))
    ensures LineEnd(line + rest) == |line|
  {
    if line == "" {
      assert line + rest == rest;
    } else {
      assert (line + rest)[1..] == line[1..] + rest;
      LineEndOf(line[1..], rest);
    }
  }

  lemma {:induction false} SplitLinesOfUnlines(lines: seq<string>)
    requires forall i | 0 <= i < |lines| :: OneLine(lines[i])
    ensures SplitLines(Unlines(lines)) == lines
  {
    if lines != [] {
      var s := Unlines(lines);
      var rest := "\n" + Unlines(lines[1..]);
      assert s == lines[0] + rest;
      LineEndOf(lines[0], rest);
      assert s[..|lines[0]|] == lines[0];
      assert s[|lines[0]| + 1..] == Unlines(lines[1..]);
      SplitLinesOfUnlines(lines[1..]);
    }
  }

  // A separator: one character, or the two that count as one.
  predicate IsBreakText(b: string) {
    b == "\r\n" || (|b| == 1 && IsBreak(b[0]))
  }

  // Every line followed by its separator, and then the last.
  function Broken(lines: seq<string>, breaks: seq<string>, last: string): string
    requires |lines| == |breaks|
  {
    if lines == [] then last else lines[0] + breaks[0] + Broken(lines[1..], breaks[1..], last)
  }

  // This separator is not a "\r" before a "\n", with which it would make one.
  predicate StandsAlone(b: string, rest: string) {
    b == "\r" && rest != "" ==> rest[0] != '\n'
  }

  predicate Apart(lines: seq<string>, breaks: seq<string>, last: string)
    requires |lines| == |breaks|
  {
    lines != [] ==> StandsAlone(breaks[0], Broken(lines[1..], breaks[1..], last)) && Apart(lines[1..], breaks[1..], last)
  }

  lemma BrokenStep(line: string, b: string, rest: string)
    requires OneLine(line) && IsBreakText(b) && StandsAlone(b, rest)
    ensures SplitLines(line + b + rest) == [line] + SplitLines(rest)
  {
    var s := line + (b + rest);
    assert s == line + b + rest;
    LineEndOf(line, b + rest);
    var n := |line|;
    assert s[n] == b[0] && s[..n] == line;
    assert n + 1 < |s| ==> s[n + 1] == (b + rest)[1];
    assert BreakLength(s, n) == |b|;
    assert s[n + |b|..] == rest;
  }

  function OneUnlessEmpty(last: string): seq<string> {
    if last == "" then [] else [last]
  }

  lemma SplitLinesOfOne(last: string)
    requires OneLine(last)
    ensures SplitLines(last) == OneUnlessEmpty(last)
  {
    if last != "" {
      LineEndOf(last, "");
      assert last + "" == last;
    }
  }

  lemma OneInFront(first: string, rest: seq<string>, more: seq<string>, all: seq<string>)
    requires all != [] && all[0] == first && all[1..] == rest
    ensures [first] + (rest + more) == all + more
  {
  }

  // Lines with any separators behind them, and a last one with none, are split into
  // those lines.
  lemma {:induction false} SplitLinesOfBroken(lines: seq<string>, breaks: seq<string>, last: string)
    requires |lines| == |breaks| && OneLine(last) && Apart(lines, breaks, last)
    requires forall i | 0 <= i < |lines| :: OneLine(lines[i]) && IsBreakText(breaks[i])
    ensures SplitLines(Broken(lines, breaks, last)) == lines + OneUnlessEmpty(last)
  {
    if lines == [] {
      SplitLinesOfOne(last);
      assert lines + OneUnlessEmpty(last) == OneUnlessEmpty(last);
    } else {
      SplitLinesOfBroken(lines[1..], breaks[1..], last);
      BrokenStep(lines[0], breaks[0], Broken(lines[1..], breaks[1..], last));
      OneInFront(lines[0], lines[1..], OneUnlessEmpty(last), lines);
    }
  }

  // The guard value.splitlines()[:1] == ([value] if value else []) says: no separator.
  lemma SplitLinesKeepsWhole(s: string)
    ensures (if s == "" then SplitLines(s) == [] else SplitLines(s) != [] && SplitLines(s)[0] == s) <==> OneLine(s)
  {
    if s != "" {
      assert s[..|s|] == s;
      if OneLine(s) {
        LineEndOf(s, "");
        assert s + "" == s;
      }
    }
  }

  // ---------- Text files are read with universal newlines ----------

  function ReadText(s: string): string {
    if s == "" then ""
    else if s[0] != '\r' then [s[0]] + ReadText(s[1..])
    else if |s| > 1 && s[1] == '\n' then ReadText(s[1..])
    else "\n" + ReadText(s[1..])
  }

  lemma {:induction false} ReadTextIsIdentity(s: string)
    requires forall i | 0 <= i < |s| :: s[i] != '\r'
    ensures ReadText(s) == s
  {
    if s != "" {
      ReadTextIsIdentity(s[1..]);
    }
  }

  lemma {:induction false} ReadTextBehind(line: string, rest: string)
    requires '\r' !in line
    ensures ReadText(line + rest) == line + ReadText(rest)
  {
    if line == "" {
      assert "" + rest == rest && "" + ReadText(rest) == ReadText(rest);
    } else {
      assert (line + rest)[1..] == line[1..] + rest;
      ReadTextBehind(line[1..], rest);
      assert [line[0]] + (line[1..] + ReadText(rest)) == line + ReadText(rest);
    }
  }

  lemma ReadTextEnd(line: string, end: string, rest: string)
    requires '\r' !in line && end in {"\n", "\r\n", "\r"} && StandsAlone(end, rest)
    ensures ReadText(line + end + rest) == line + "\n" + ReadText(rest)
  {
    assert line + end + rest == line + (end + rest);
    ReadTextBehind(line, end + rest);
    if end == "\r\n" {
      assert (end + rest)[1..] == "\n" + rest && ("\n" + rest)[1..] == rest;
    } else {
      assert (end + rest)[1..] == rest;
    }
    assert line + ("\n" + ReadText(rest)) == line + "\n" + ReadText(rest);
  }

  // Every line followed by "\n", and then the last.
  function UnlinesThen(lines: seq<string>, last: string): string {
    if lines == [] then last else lines[0] + "\n" + UnlinesThen(lines[1..], last)
  }

  // Whichever of the three line ends a file uses, each is read as "\n".
  lemma {:induction false} ReadTextOfBroken(lines: seq<string>, ends: seq<string>, last: string)
    requires |lines| == |ends| && Apart(lines, ends, last) && '\r' !in last
    requires forall i | 0 <= i < |lines| :: '\r' !in lines[i] && ends[i] in {"\n", "\r\n", "\r"}
    ensures ReadText(Broken(lines, ends, last)) == UnlinesThen(lines, last)
  {
    if lines == [] {
      ReadTextIsIdentity(last);
    } else {
      ReadTextOfBroken(lines[1..], ends[1..], last);
      ReadTextEnd(lines[0], ends[0], Broken(lines[1..], ends[1..], last));
    }
  }

  lemma {:induction false} UnlinesHasNoCarriageReturn(lines: seq<string>)
    requires forall i | 0 <= i < |lines| :: OneLine(lines[i])
    ensures forall i | 0 <= i < |Unlines(lines)| :: Unlines(lines)[i] != '\r'
  {
    if lines != [] {
      UnlinesHasNoCarriageReturn(lines[1..]);
    }
  }

  // ---------- str.strip ----------

  function LStrip(s: string): (r: string)
    ensures r == "" || !IsSpace(r[0])
  {
    if s != "" && IsSpace(s[0]) then LStrip(s[1..]) else s
  }

  function RStrip(s: string): (r: string)
    ensures |r| <= |s| && r == s[..|r|]
    ensures r == "" || !IsSpace(r[|r| - 1])
  {
    if s != "" && IsSpace(s[|s| - 1]) then RStrip(s[..|s| - 1]) else s
  }

  function Strip(s: string): string {
    RStrip(LStrip(s))
  }

  lemma StripKeeps(s: string)
    requires s == "" || (!IsSpace(s[0]) && !IsSpace(s[|s| - 1]))
    ensures Strip(s) == s
  {
  }

  predicate Blank(s: string) {
    forall i | 0 <= i < |s| :: IsSpace(s[i])
  }

  predicate Tight(s: string) {
    s == "" || (!IsSpace(s[0]) && !IsSpace(s[|s| - 1]))
  }

  lemma {:induction false} LStripDrops(s: string) returns (a: string)
    ensures s == a + LStrip(s) && Blank(a)
  {
    if s != "" && IsSpace(s[0]) {
      var rest := LStripDrops(s[1..]);
      a := [s[0]] + rest;
      assert s == [s[0]] + s[1..];
    } else {
      a := "";
      assert s == a + s;
    }
  }

  lemma {:induction false} RStripDrops(s: string) returns (b: string)
    ensures s == RStrip(s) + b && Blank(b)
  {
    if s != "" && IsSpace(s[|s| - 1]) {
      var n := |s| - 1;
      var rest := RStripDrops(s[..n]);
      b := rest + [s[n]];
      assert s == s[..n] + [s[n]];
      assert s == RStrip(s[..n]) + rest + [s[n]];
    } else {
      b := "";
      assert s == s + b;
    }
  }

  lemma StripIsTight(s: string)
    ensures Tight(Strip(s))
  {
    var left := LStrip(s);
    var t := RStrip(left);
    assert t == left[..|t|];
    assert t != "" ==> t[0] == left[0];
  }

  lemma Nested(s: string, a: string, left: string, t: string, b: string)
    requires s == a + left && left == t + b
    ensures s == a + t + b
  {
  }

  lemma StripDrops(s: string) returns (a: string, b: string)
    ensures s == a + Strip(s) + b && Blank(a) && Blank(b) && Tight(Strip(s))
  {
    a := LStripDrops(s);
    b := RStripDrops(LStrip(s));
    Nested(s, a, LStrip(s), Strip(s), b);
    StripIsTight(s);
  }

  lemma {:induction false} LStripOf(a: string, r: string)
    requires Blank(a) && (r == "" || !IsSpace(r[0]))
    ensures LStrip(a + r) == r
  {
    if a == "" {
      assert a + r == r;
    } else {
      assert (a + r)[0] == a[0] && (a + r)[1..] == a[1..] + r;
      LStripOf(a[1..], r);
    }
  }

  lemma {:induction false} RStripOf(r: string, b: string)
    requires Blank(b) && (r == "" || !IsSpace(r[|r| - 1]))
    ensures RStrip(r + b) == r
  {
    if b == "" {
      assert r + b == r;
    } else {
      var n := |b| - 1;
      assert (r + b)[|r + b| - 1] == b[n] && (r + b)[..|r + b| - 1] == r + b[..n];
      RStripOf(r, b[..n]);
    }
  }

  lemma StripOf(a: string, t: string, b: string)
    requires Blank(a) && Blank(b) && Tight(t)
    ensures Strip(a + t + b) == t
  {
    if t == "" {
      assert a + t + b == (a + b) + "";
      LStripOf(a + b, "");
      RStripOf("", "");
    } else {
      assert a + t + b == a + (t + b);
      LStripOf(a, t + b);
      RStripOf(t, b);
    }
  }

  // ---------- str.partition ----------

  function Find(s: string, c: char): (n: nat)
    ensures n <= |s| && c !in s[..n]
    ensures n < |s| ==> s[n] == c
  {
    if s == "" || s[0] == c then 0
    else
      assert s == [s[0]] + s[1..];
      1 + Find(s[1..], c)
  }

  lemma {:induction false} FindAfter(a: string, c: char, b: string)
    requires c !in a
    ensures Find(a + [c] + b, c) == |a|
  {
    if a != "" {
      assert (a + [c] + b)[1..] == a[1..] + [c] + b;
      FindAfter(a[1..], c, b);
    }
  }

  // ---------- str.split and str.join on one character ----------

  // The pieces between separators; the last is empty when the text ends in one.
  function Split(s: string, c: char): (pieces: seq<string>)
    ensures |pieces| > 0
  {
    if s == "" then [""]
    else
      var rest := Split(s[1..], c);
      if s[0] == c then [""] + rest else [[s[0]] + rest[0]] + rest[1..]
  }

  function Join(pieces: seq<string>, c: char): string {
    if pieces == [] then ""
    else if |pieces| == 1 then pieces[0]
    else pieces[0] + [c] + Join(pieces[1..], c)
  }

  lemma {:induction false} JoinOfSplit(s: string, c: char)
    ensures Join(Split(s, c), c) == s
  {
    if s != "" {
      var rest := Split(s[1..], c);
      JoinOfSplit(s[1..], c);
      assert s == [s[0]] + s[1..];
      if s[0] != c && |rest| > 1 {
        assert ([[s[0]] + rest[0]] + rest[1..])[1..] == rest[1..];
      }
    }
  }

  lemma {:induction false} SplitWhole(s: string, c: char)
    requires c !in s
    ensures Split(s, c) == [s]
  {
    if s != "" {
      SplitWhole(s[1..], c);
      assert s == [s[0]] + s[1..];
    }
  }

  // The first piece, one character longer.
  function Longer(x: char, pieces: seq<string>): seq<string>
    requires pieces != []
  {
    [[x] + pieces[0]] + pieces[1..]
  }

  lemma SplitCons(x: char, t: string, f: seq<string>, last: seq<string>, c: char)
    requires Split(t, c) == f + last && last != [] && (x == c || f != [])
    ensures Split([x] + t, c) == (if x == c then [""] + f else Longer(x, f)) + last
  {
    assert ([x] + t)[1..] == t;
    if x == c {
      assert [""] + (f + last) == [""] + f + last;
    } else {
      assert (f + last)[0] == f[0] && (f + last)[1..] == f[1..] + last;
    }
  }

  lemma {:induction false} SplitAtSeparator(a: string, c: char, b: string)
    ensures Split(a + [c] + b, c) == Split(a, c) + Split(b, c)
  {
    var q := Split(b, c);
    if a == "" {
      assert a + [c] + b == [c] + b;
      SplitCons(c, b, [], q, c);
    } else {
      var t := a[1..];
      SplitAtSeparator(t, c, b);
      SplitCons(a[0], t + [c] + b, Split(t, c), q, c);
      assert a + [c] + b == [a[0]] + (t + [c] + b);
    }
  }

  lemma {:induction false} SplitOfJoin(pieces: seq<string>, c: char)
    requires pieces != [] && forall i | 0 <= i < |pieces| :: c !in pieces[i]
    ensures Split(Join(pieces, c), c) == pieces
  {
    SplitWhole(pieces[0], c);
    if |pieces| > 1 {
      SplitOfJoin(pieces[1..], c);
      SplitAtSeparator(pieces[0], c, Join(pieces[1..], c));
    }
  }
}
