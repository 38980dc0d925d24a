/** What an env file says, told from its lines without stripping, partitioning or unquoting. */
module EnvReader {
  import opened Wrappers
  import opened PyText
  import opened EnvWriter

  // ---------- Assignments as they are spelled ----------

  predicate Enclosed(s: string) {
    |s| >= 2 && s[0] == s[|s| - 1] && (s[0] == '\'' || s[0] == '"')
  }

  // The value in quotes of either kind, or bare.
  predicate Carries(body: string, value: string) {
    body == "'" + value + "'" || body == "\"" + value + "\"" || (body == value && !Enclosed(value))
  }

  predicate SpelledWith(line: string, key: string, value: string, a: string, b: string, c: string, body: string, d: string) {
    && line == a + key + b + "=" + c + body + d
    && Blank(a) && Blank(b) && Blank(c) && Blank(d) && Tight(key) && Tight(body)
    && '=' !in key && (key != "" ==> key[0] != '#')
    && Carries(body, value)
  }

  ghost predicate Spells(line: string, key: string, value: string) {
    exists a, b, c, body, d :: SpelledWith(line, key, value, a, b, c, body, d)
  }

  ghost predicate SpellsKey(line: string, key: string) {
    exists value :: Spells(line, key, value)
  }

  // The last of the lines that assign the key.
  ghost predicate LastSpells(lines: seq<string>, i: nat, key: string, value: string) {
    i < |lines| && Spells(lines[i], key, value) && forall j | i < j < |lines| :: !SpellsKey(lines[j], key)
  }

  ghost predicate Says(lines: seq<string>, key: string, value: string) {
    exists i: nat :: LastSpells(lines, i, key, value)
  }

  // ---------- A line and its spelling ----------

  lemma CarriesUnquoted(body: string)
    ensures Carries(body, Unquote(body))
  {
    var v := Unquote(body);
    if Enclosed(body) {
      assert body == [body[0]] + body[1..|body| - 1] + [body[|body| - 1]];
    }
  }

  lemma UnquotedIsCarried(body: string, value: string)
    requires Carries(body, value)
    ensures Unquote(body) == value
  {
    if body != value {
      assert body[1..|body| - 1] == value;
    }
  }

  lemma Regroup(p: string, q: string, r: string, s: string, t: string)
    ensures p + (q + r + s) + t == (p + q) + r + (s + t)
  {
  }

  lemma Inner(a0: string, a1: string, key: string, b: string, c: string, body: string, d1: string, d0: string)
    ensures (a0 + (a1 + key + b)) + "=" + ((c + body + d1) + d0) == (a0 + a1) + key + b + "=" + c + body + (d1 + d0)
  {
    var left, right := (a0 + a1) + key + b, c + body + (d1 + d0);
    assert a0 + (a1 + key + b) == left && (c + body + d1) + d0 == right;
    assert left + "=" + right == left + "=" + c + body + (d1 + d0);
  }

  lemma NoBlankFirst(s: string, a: string, rest: string)
    requires s == a + rest && s != "" && Tight(s) && Blank(a)
    ensures a == ""
  {
    assert forall i | 0 <= i < |a| :: s[i] == a[i];
  }

  lemma KeyIsFirst(s: string, rest: string, a: string, key: string, b: string)
    requires s == a + key + b + rest && Tight(s) && Blank(a) && key != ""
    ensures s[0] == key[0]
  {
    assert s == a + (key + b + rest);
    NoBlankFirst(s, a, key + b + rest);
    assert s == key + b + rest;
  }

  lemma KeyHasNoSign(part: string, a: string, key: string, b: string)
    requires part == a + key + b && '=' !in part
    ensures '=' !in key
  {
    forall i | 0 <= i < |key| ensures key[i] != '=' { assert part[|a| + i] == key[i]; }
  }

  lemma Assembled(line: string, s: string, front: string, back: string, a0: string, d0: string,
                  a1: string, key: string, b: string, c: string, body: string, d1: string, value: string)
    requires line == a0 + s + d0 && s == front + "=" + back && front == a1 + key + b && back == c + body + d1
    requires Blank(a0) && Blank(d0) && Blank(a1) && Blank(b) && Blank(c) && Blank(d1)
    requires Tight(s) && Tight(key) && Tight(body) && '=' !in front && s[0] != '#' && Carries(body, value)
    ensures Spells(line, key, value)
  {
    Regroup(a0, front, "=", back, d0);
    Inner(a0, a1, key, b, c, body, d1, d0);
    KeyHasNoSign(front, a1, key, b);
    if key != "" {
      assert s == a1 + key + b + ("=" + back);
      KeyIsFirst(s, "=" + back, a1, key, b);
    }
    assert SpelledWith(line, key, value, a0 + a1, b, c, body, d1 + d0);
  }

  lemma PartsAreSpelled(line: string, s: string, front: string, back: string, value: string)
    requires s == Strip(line) && s == front + "=" + back && '=' !in front && s[0] != '#' && value == Unquote(Strip(back))
    ensures Spells(line, Strip(front), value)
  {
    var a0, d0 := StripDrops(line);
    var a1, b := StripDrops(front);
    var c, d1 := StripDrops(back);
    CarriesUnquoted(Strip(back));
    Assembled(line, s, front, back, a0, d0, a1, Strip(front), b, c, Strip(back), d1, value);
  }

  lemma AssignmentIsSpelled(line: string)
    requires Assigns(line)
    ensures Spells(line, LineKey(line), LineValue(line))
  {
    var s, n := Strip(line), Find(Strip(line), '=');
    SplitAtSign(s, n);
    PartsAreSpelled(line, s, s[..n], s[n + 1..], LineValue(line));
  }

  lemma SplitAtSign(s: string, n: nat)
    requires n < |s| && s[n] == '='
    ensures s == s[..n] + "=" + s[n + 1..]
  {
  }

  // The line without the blanks around it, in front of the sign and behind it.
  function Front(key: string, b: string): string {
    if key == "" then "" else key + b
  }

  function Back(c: string, body: string): string {
    if body == "" then "" else c + body
  }

  lemma FrontGroups(a: string, key: string, b: string)
    ensures a + key + b == (if key == "" then a + b else a) + Front(key, b)
  {
  }

  lemma BackGroups(c: string, body: string, d: string)
    ensures c + body + d == Back(c, body) + (if body == "" then c + d else d)
  {
  }

  lemma SpelledAround(line: string, key: string, value: string, a: string, b: string, c: string, body: string, d: string)
      returns (before: string, behind: string)
    requires SpelledWith(line, key, value, a, b, c, body, d)
    ensures line == before + (Front(key, b) + "=" + Back(c, body)) + behind && Blank(before) && Blank(behind)
  {
    before, behind := if key == "" then a + b else a, if body == "" then c + d else d;
    FrontGroups(a, key, b);
    BackGroups(c, body, d);
    RightGroup(a + key + b + "=", c, body, d);
    Regroup(before, Front(key, b), "=", Back(c, body), behind);
  }

  lemma RightGroup(x: string, c: string, body: string, d: string)
    ensures x + c + body + d == x + (c + body + d)
  {
  }

  lemma SpelledStrips(line: string, key: string, value: string, a: string, b: string, c: string, body: string, d: string)
    requires SpelledWith(line, key, value, a, b, c, body, d)
    ensures Strip(line) == Front(key, b) + "=" + Back(c, body)
  {
    var before, behind := SpelledAround(line, key, value, a, b, c, body, d);
    var t := Front(key, b) + "=" + Back(c, body);
    TightAround(key, b, c, body);
    StripOf(before, t, behind);
  }

  lemma TightAround(key: string, b: string, c: string, body: string)
    requires Tight(key) && Tight(body)
    ensures Tight(Front(key, b) + "=" + Back(c, body))
  {
    var t := Front(key, b) + "=" + Back(c, body);
    assert !IsSpace('=');
    assert t[0] == if key == "" then '=' else key[0];
    assert t[|t| - 1] == if body == "" then '=' else body[|body| - 1];
  }

  lemma PartsStrip(key: string, b: string, c: string, body: string)
    requires Blank(b) && Blank(c) && Tight(key) && Tight(body)
    ensures Strip(Front(key, b)) == key && Strip(Back(c, body)) == body
  {
    assert "" + key + b == key + b && c + body + "" == c + body && "" + "" + "" == "";
    StripOf("", key, b);
    StripOf(c, body, "");
    StripOf("", "", "");
  }

  lemma SpelledIsAssignment(line: string, key: string, value: string)
    requires Spells(line, key, value)
    ensures Assigns(line) && LineKey(line) == key && LineValue(line) == value
  {
    var a, b, c, body, d :| SpelledWith(line, key, value, a, b, c, body, d);
    var front, back := Front(key, b), Back(c, body);
    var s := front + "=" + back;
    SpelledStrips(line, key, value, a, b, c, body, d);
    assert !IsSpace('=');
    FindAfter(front, '=', back);
    assert s[..|front|] == front && s[|front| + 1..] == back && s[|front|] == '=';
    PartsStrip(key, b, c, body);
    UnquotedIsCarried(body, value);
  }

  // ---------- The whole file ----------

  lemma SpellsIffBinds(line: string, key: string, value: string)
    ensures Spells(line, key, value) <==> Assigns(line) && LineKey(line) == key && LineValue(line) == value
    ensures SpellsKey(line, key) <==> Assigns(line) && LineKey(line) == key
  {
    if Assigns(line) { AssignmentIsSpelled(line); }
    if Spells(line, key, value) { SpelledIsAssignment(line, key, value); }
    if SpellsKey(line, key) {
      var other :| Spells(line, key, other);
      SpelledIsAssignment(line, key, other);
    }
  }

  ghost predicate NoneSpells(lines: seq<string>, key: string) {
    forall j | 0 <= j < |lines| :: !SpellsKey(lines[j], key)
  }

  lemma SaysMore(line: string, lines: seq<string>, key: string, value: string)
    ensures Says([line] + lines, key, value) <==> Says(lines, key, value) || (Spells(line, key, value) && NoneSpells(lines, key))
    ensures NoneSpells([line] + lines, key) <==> NoneSpells(lines, key) && !SpellsKey(line, key)
  {
    var all := [line] + lines;
    if Says(lines, key, value) {
      var i: nat :| LastSpells(lines, i, key, value);
      assert LastSpells(all, i + 1, key, value);
    }
    if Spells(line, key, value) && NoneSpells(lines, key) {
      forall j | 0 < j < |all| ensures !SpellsKey(all[j], key) { assert all[j] == lines[j - 1]; }
      assert LastSpells(all, 0, key, value);
    }
    if Says(all, key, value) {
      var i: nat :| LastSpells(all, i, key, value);
      if i > 0 {
        forall j | i - 1 < j < |lines| ensures !SpellsKey(lines[j], key) { assert all[j + 1] == lines[j]; }
        assert LastSpells(lines, i - 1, key, value);
      } else {
        forall j | 0 <= j < |lines| ensures !SpellsKey(lines[j], key) { assert all[j + 1] == lines[j]; }
      }
    }
    if NoneSpells(all, key) {
      assert all[0] == line;
      forall j | 0 <= j < |lines| ensures !SpellsKey(lines[j], key) { assert all[j + 1] == lines[j]; }
    }
  }

  predicate Holds(values: map<string, string>, key: string, value: string) {
    key in values && values[key] == value
  }

  lemma {:induction false} ParseSays(values: map<string, string>, lines: seq<string>, key: string, value: string)
    ensures Holds(ParseFrom(values, lines), key, value)
            <==> Says(lines, key, value) || (NoneSpells(lines, key) && Holds(values, key, value))
    decreases |lines|
  {
    if lines != [] {
      var line, rest := lines[0], lines[1..];
      assert lines == [line] + rest;
      ParseSays(Bind(values, line), rest, key, value);
      SpellsIffBinds(line, key, value);
      SaysMore(line, rest, key, value);
    }
  }

  // read_env: a key is bound to a value if and only if the last line that assigns
  // the key spells that value, bare or in quotes of either kind, with blanks around
  // key, sign and value. No other line binds anything.
  lemma ReadsWhatTheLastAssignmentSays(file: Option<string>, key: string, value: string)
    ensures var values, lines := ReadEnv(file), if file.None? then [] else SplitLines(ReadText(file.value));
            key in values && values[key] == value <==> Says(lines, key, value)
  {
    ParseSays(map[], if file.None? then [] else SplitLines(ReadText(file.value)), key, value);
  }

  // Where the first character stands that is no blank.
  predicate FirstInk(line: string, n: nat) {
    n < |line| && !IsSpace(line[n]) && Blank(line[..n])
  }

  lemma OneFirstInk(line: string, n: nat, m: nat)
    requires FirstInk(line, n) && FirstInk(line, m)
    ensures n == m
  {
    assert forall i | 0 <= i < m :: line[..m][i] == line[i];
    assert forall i | 0 <= i < n :: line[..n][i] == line[i];
  }

  lemma InkBehindBlanks(blanks: string, ink: string)
    requires Blank(blanks) && ink != "" && !IsSpace(ink[0])
    ensures FirstInk(blanks + ink, |blanks|) && (blanks + ink)[|blanks|] == ink[0]
  {
    assert (blanks + ink)[..|blanks|] == blanks;
  }

  lemma SpelledInk(line: string, key: string, value: string, a: string, b: string, c: string, body: string, d: string)
    requires SpelledWith(line, key, value, a, b, c, body, d)
    ensures exists n: nat :: FirstInk(line, n) && line[n] != '#'
    ensures '=' in line
  {
    var left, right := a + key + b, c + body + d;
    assert line == left + "=" + right && line[|left|] == '=';
    var blanks := if key == "" then a + b else a;
    var ink := Front(key, b) + "=" + right;
    FrontGroups(a, key, b);
    assert line == blanks + ink;
    InkBehindBlanks(blanks, ink);
  }

  // Blank lines, comments and lines without a sign assign nothing.
  lemma OtherLinesSayNothing(line: string, key: string)
    requires Blank(line) || '=' !in line || exists n: nat :: FirstInk(line, n) && line[n] == '#'
    ensures !SpellsKey(line, key)
  {
    if SpellsKey(line, key) {
      var value :| Spells(line, key, value);
      var a, b, c, body, d :| SpelledWith(line, key, value, a, b, c, body, d);
      SpelledInk(line, key, value, a, b, c, body, d);
      var n: nat :| FirstInk(line, n) && line[n] != '#';
      if m: nat :| FirstInk(line, m) && line[m] == '#' {
        OneFirstInk(line, n, m);
      }
    }
  }
}
