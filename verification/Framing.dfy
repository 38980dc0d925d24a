/**
 Splitting an incoming byte stream into lines, the way TranscriptTail does with
 a remainder carried from one read to the next.
 */
module Framing {
  import opened Subsequence

  newtype Byte = b: int | 0 <= b < 256
  type Bytes = seq<Byte>

  const NEWLINE: Byte := 10
  const MAX_LINE_BYTES: nat := 1_000_000

  // ---------- Python's bytes.split(b"\n") ----------

  function Split(s: Bytes): (parts: seq<Bytes>)
    ensures |parts| > 0
  {
    if s == [] then [[]]
    else
      var rest := Split(s[1..]);
      if s[0] == NEWLINE then [[]] + rest
      else [[s[0]] + rest[0]] + rest[1..]
  }

  // The terminated lines of s, and the unterminated bytes after them.
  function Lines(s: Bytes): seq<Bytes> {
    var parts := Split(s);
    parts[..|parts| - 1]
  }

  function Remainder(s: Bytes): Bytes {
    var parts := Split(s);
    parts[|parts| - 1]
  }

  // ---------- What splitting means, without splitting ----------

  function Unlines(lines: seq<Bytes>): Bytes {
    if lines == [] then [] else lines[0] + [NEWLINE] + Unlines(lines[1..])
  }

  ghost predicate IsFraming(s: Bytes, lines: seq<Bytes>, rest: Bytes) {
    && s == Unlines(lines) + rest
    && (forall i | 0 <= i < |lines| :: NEWLINE !in lines[i])
    && NEWLINE !in rest
  }

  // Splitting yields a framing of its input ...
  lemma {:induction false} SplitFrames(s: Bytes)
    ensures IsFraming(s, Lines(s), Remainder(s))
  {
    if s != [] {
      SplitFrames(s[1..]);
      var tail := Lines(s[1..]);
      if s[0] == NEWLINE {
        assert Lines(s) == [[]] + tail;
        assert Lines(s)[1..] == tail;
        assert s == [NEWLINE] + s[1..];
      } else if tail == [] {
        assert Lines(s) == [];
      } else {
        assert Lines(s) == [[s[0]] + tail[0]] + tail[1..];
        assert Lines(s)[1..] == tail[1..];
        assert s == [s[0]] + s[1..];
      }
    }
  }

  lemma {:induction false} SplitAfterLine(line: Bytes, more: Bytes)
    requires NEWLINE !in line
    ensures Split(line + [NEWLINE] + more) == [line] + Split(more)
  {
    var s := line + [NEWLINE] + more;
    if line == [] {
      assert s[1..] == more;
    } else {
      assert s[0] == line[0] && s[1..] == line[1..] + [NEWLINE] + more;
      SplitAfterLine(line[1..], more);
      assert line == [line[0]] + line[1..];
    }
  }

  lemma {:induction false} SplitUnfinished(rest: Bytes)
    requires NEWLINE !in rest
    ensures Split(rest) == [rest]
  {
    if rest != [] {
      SplitUnfinished(rest[1..]);
      assert rest == [rest[0]] + rest[1..];
    }
  }

  // ... and there is no other.
  lemma {:induction false} FramingIsUnique(s: Bytes, lines: seq<Bytes>, rest: Bytes)
    requires IsFraming(s, lines, rest)
    ensures Split(s) == lines + [rest]
    ensures lines == Lines(s) && rest == Remainder(s)
    decreases lines
  {
    if lines == [] {
      assert s == rest;
      SplitUnfinished(rest);
    } else {
      var later := Unlines(lines[1..]) + rest;
      assert s == lines[0] + [NEWLINE] + later;
      SplitAfterLine(lines[0], later);
      FramingIsUnique(later, lines[1..], rest);
    }
  }

  // ---------- Framing a stream read in pieces ----------

  lemma {:induction false} UnlinesConcat(a: seq<Bytes>, b: seq<Bytes>)
    ensures Unlines(a + b) == Unlines(a) + Unlines(b)
  {
    if a == [] {
      assert a + b == b;
    } else {
      UnlinesConcat(a[1..], b);
      assert (a + b)[0] == a[0] && (a + b)[1..] == a[1..] + b;
      var head, ta, tb := a[0] + [NEWLINE], Unlines(a[1..]), Unlines(b);
      assert head + (ta + tb) == (head + ta) + tb;
    }
  }

  lemma FramingsCompose(a: Bytes, la: seq<Bytes>, ra: Bytes, b: Bytes, lb: seq<Bytes>, rb: Bytes)
    requires IsFraming(a, la, ra) && IsFraming(ra + b, lb, rb)
    ensures IsFraming(a + b, la + lb, rb)
  {
    UnlinesConcat(la, lb);
    assert a + b == Unlines(la) + (ra + b);
  }

  // Carrying the remainder into the next read gives the framing of the whole.
  lemma {:induction false} SplitExtends(a: Bytes, b: Bytes)
    ensures Lines(a + b) == Lines(a) + Lines(Remainder(a) + b)
    ensures Remainder(a + b) == Remainder(Remainder(a) + b)
  {
    var ra := Remainder(a);
    SplitFrames(a);
    SplitFrames(ra + b);
    var la, lb, rb := Lines(a), Lines(ra + b), Remainder(ra + b);
    FramingsCompose(a, la, ra, b, lb, rb);
    FramingIsUnique(a + b, la + lb, rb);
  }

  // ---------- Lines short enough to be parsed ----------

  function Kept(lines: seq<Bytes>): seq<Bytes> {
    if lines == [] then []
    else if |lines[0]| > MAX_LINE_BYTES then Kept(lines[1..])
    else [lines[0]] + Kept(lines[1..])
  }

  lemma {:induction false} KeptConcat(a: seq<Bytes>, b: seq<Bytes>)
    ensures Kept(a + b) == Kept(a) + Kept(b)
  {
    if a == [] {
      assert a + b == b;
    } else {
      KeptConcat(a[1..], b);
      assert (a + b)[0] == a[0] && (a + b)[1..] == a[1..] + b;
      var ka, kb := Kept(a[1..]), Kept(b);
      assert [a[0]] + (ka + kb) == ([a[0]] + ka) + kb;
    }
  }

  // Exactly the lines of more than 1,000,000 bytes are left out, the order kept.
  lemma {:induction false} KeptAreTheShortLines(lines: seq<Bytes>)
    ensures Among(Kept(lines), lines)
    ensures forall line :: multiset(Kept(lines))[line] == if |line| <= 1_000_000 then multiset(lines)[line] else 0
  {
    if lines != [] {
      var first, rest := [lines[0]], lines[1..];
      KeptAreTheShortLines(rest);
      assert lines == first + rest;
      if |lines[0]| > MAX_LINE_BYTES {
        AmongConcat([], first, Kept(rest), rest);
        assert [] + Kept(rest) == Kept(rest);
      } else {
        AmongItself(first);
        AmongConcat(first, first, Kept(rest), rest);
      }
    }
  }
}
