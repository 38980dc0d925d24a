/** What update_env and read_env promise each other. */
module EnvRoundTrip {
  import opened Wrappers
  import opened PyText
  import opened EnvWriter

  // ---------- One written line ----------

  predicate Writable(key: string, value: string) {
    KeyError(key).None? && ValueError(value).None?
  }

  // What comes after the first "=" of key='value'.
  function Quoted(value: string): string {
    "'" + value + "'"
  }

  lemma AssignmentText(key: string, value: string)
    ensures Assignment(key, value) == key + ['='] + Quoted(value)
    ensures Unquote(Quoted(value)) == value && Strip(Quoted(value)) == Quoted(value)
  {
    StripKeeps(Quoted(value));
    assert Quoted(value)[1..|Quoted(value)| - 1] == value;
  }

  lemma WrittenLine(key: string, value: string)
    requires Writable(key, value)
    ensures var line := Assignment(key, value);
            OneLine(line) && Strip(line) == line && Strip(key) == key && Assigns(line)
  {
    AcceptedKeys(key);
    AcceptedValues(value);
    var line := Assignment(key, value);
    StripKeeps(line);
    StripKeeps(key);
    assert line[|key|] == '=';
  }

  lemma AssignmentReadsBack(key: string, value: string)
    requires Writable(key, value)
    ensures var line := Assignment(key, value);
            OneLine(line) && Assigns(line) && LineKey(line) == key && LineValue(line) == value
  {
    WrittenLine(key, value);
    AcceptedKeys(key);
    AssignmentText(key, value);
    FindAfter(key, '=', Quoted(value));
    var line := Assignment(key, value);
    assert line[..|key|] == key && line[|key| + 1..] == Quoted(value);
  }

  // ---------- Dictionaries ----------

  ghost predicate AllWritable(d: Dict) {
    forall i | 0 <= i < |d| :: Writable(d[i].0, d[i].1)
  }

  lemma {:induction false} AcceptedDict(d: Dict)
    ensures DictError(d).None? <==> AllWritable(d)
  {
    if d != [] {
      AcceptedDict(d[1..]);
      if AllWritable(d[1..]) && Writable(d[0].0, d[0].1) {
        forall i | 0 <= i < |d| ensures Writable(d[i].0, d[i].1) {
          if i > 0 { assert d[i] == d[1..][i - 1]; }
        }
      }
    }
  }

  lemma {:induction false} LookupIsUnique(d: Dict, i: nat)
    requires Distinct(d) && i < |d|
    ensures d[i].0 in Keys(d) && Lookup(d, d[i].0) == d[i].1
  {
    assert d[i].0 in Keys(d);
    if i > 0 {
      assert d[0].0 != d[i].0;
      assert d[1..][i - 1] == d[i];
      LookupIsUnique(d[1..], i - 1);
    }
  }

  lemma {:induction false} WithoutKey(d: Dict, key: string)
    requires Distinct(d) && key in Keys(d)
    ensures Distinct(Without(d, key))
    ensures Keys(Without(d, key)) == Keys(d) - {key}
    ensures forall k | k in Keys(Without(d, key)) :: Lookup(Without(d, key), k) == Lookup(d, k)
    ensures forall e | e in Without(d, key) :: e in d
  {
    var rest := d[1..];
    assert d == [d[0]] + rest;
    assert Keys(d) == {d[0].0} + Keys(rest);
    forall i | 0 <= i < |rest| ensures rest[i].0 != d[0].0 { assert rest[i] == d[i + 1]; }
    if d[0].0 != key {
      WithoutKey(rest, key);
      var w := Without(d, key);
      assert w == [d[0]] + Without(rest, key) && w[1..] == Without(rest, key);
      assert Keys(w) == {d[0].0} + Keys(w[1..]);
      forall i | 0 <= i < |w[1..]| ensures w[1..][i].0 != d[0].0 { assert w[1..][i].0 in Keys(rest); }
    }
  }

  lemma HeadAndTail(d: Dict)
    requires Distinct(d) && AllWritable(d) && d != []
    ensures Distinct(d[1..]) && AllWritable(d[1..])
    ensures Keys(d) == {d[0].0} + Keys(d[1..]) && d[0].0 !in Keys(d[1..])
    ensures forall k | k in Keys(d[1..]) :: Lookup(d, k) == Lookup(d[1..], k)
  {
    assert d == [d[0]] + d[1..];
  }

  lemma WritableKey(d: Dict, key: string)
    requires AllWritable(d) && key in Keys(d)
    ensures Writable(key, Lookup(d, key))
  {
    var i :| 0 <= i < |d| && d[i] == (key, Lookup(d, key));
  }

  lemma WithoutStaysWritable(d: Dict, key: string)
    requires Distinct(d) && AllWritable(d) && key in Keys(d)
    ensures AllWritable(Without(d, key))
  {
    WithoutKey(d, key);
    forall i | 0 <= i < |Without(d, key)| ensures Writable(Without(d, key)[i].0, Without(d, key)[i].1) {
      assert Without(d, key)[i] in d;
    }
  }

  // ---------- Reading what was written ----------

  // new holds what old holds outside the updates, and the updates done so far.
  ghost predicate UpToDate(before: map<string, string>, after: map<string, string>, done: set<string>, updates: map<string, string>) {
    && (forall k | k in done :: k in updates && k in after && after[k] == updates[k])
    && (forall k | k !in updates :: (k in before <==> k in after) && (k in before ==> before[k] == after[k]))
  }

  ghost predicate Covers(updates: map<string, string>, remaining: Dict, done: set<string>) {
    && updates.Keys == Keys(remaining) + done
    && Keys(remaining) !! done
    && (forall k | k in Keys(remaining) :: k in updates && updates[k] == Lookup(remaining, k))
  }

  lemma BindWritten(values: map<string, string>, key: string, value: string)
    requires Writable(key, value)
    ensures Bind(values, Assignment(key, value)) == values[key := value]
  {
    AssignmentReadsBack(key, value);
  }

  lemma BindReplaced(line: string, key: string, value: string, done: set<string>,
                     updates: map<string, string>, before: map<string, string>, after: map<string, string>)
    requires UpToDate(before, after, done, updates)
    requires AssignsTo(line, {key}) && key in updates && updates[key] == value
    ensures UpToDate(Bind(before, line), after[key := value], done + {key}, updates)
  {
  }

  lemma BindDropped(line: string, done: set<string>,
                    updates: map<string, string>, before: map<string, string>, after: map<string, string>)
    requires UpToDate(before, after, done, updates) && AssignsTo(line, done)
    ensures UpToDate(Bind(before, line), after, done, updates)
  {
  }

  lemma BindKept(line: string, done: set<string>,
                 updates: map<string, string>, before: map<string, string>, after: map<string, string>)
    requires UpToDate(before, after, done, updates) && !AssignsTo(line, updates.Keys)
    ensures UpToDate(Bind(before, line), Bind(after, line), done, updates)
  {
  }

  lemma CoversRest(updates: map<string, string>, remaining: Dict, done: set<string>, key: string)
    requires Distinct(remaining) && Covers(updates, remaining, done) && key in Keys(remaining)
    ensures Covers(updates, Without(remaining, key), done + {key})
    ensures Distinct(Without(remaining, key)) && updates[key] == Lookup(remaining, key)
  {
    WithoutKey(remaining, key);
  }

  lemma {:induction false} ParseOfAppended(remaining: Dict, done: set<string>, updates: map<string, string>,
                                           before: map<string, string>, after: map<string, string>)
    requires Distinct(remaining) && AllWritable(remaining)
    requires Covers(updates, remaining, done) && UpToDate(before, after, done, updates)
    ensures ParseFrom(after, Appended(remaining)) == before + updates
    decreases |remaining|
  {
    if remaining == [] {
      assert after == before + updates;
    } else {
      var (key, value) := remaining[0];
      LookupIsUnique(remaining, 0);
      CoversRest(updates, remaining, done, key);
      WithoutStaysWritable(remaining, key);
      WritableKey(remaining, key);
      assert Without(remaining, key) == remaining[1..];
      BindWritten(after, key, value);
      ParseOfAppended(remaining[1..], done + {key}, updates, before, after[key := value]);
    }
  }

  lemma {:induction false} ParseOfRewrite(lines: seq<string>, remaining: Dict, done: set<string>,
                                          updates: map<string, string>,
                                          before: map<string, string>, after: map<string, string>)
    requires Distinct(remaining) && AllWritable(remaining)
    requires Covers(updates, remaining, done) && UpToDate(before, after, done, updates)
    ensures ParseFrom(after, Rewrite(lines, remaining, done)) == ParseFrom(before, lines) + updates
    decreases |lines|
  {
    if lines == [] {
      ParseOfAppended(remaining, done, updates, before, after);
    } else {
      var line, rest := lines[0], lines[1..];
      if AssignsTo(line, Keys(remaining)) {
        var key := LineKey(line);
        var value := Lookup(remaining, key);
        CoversRest(updates, remaining, done, key);
        WithoutStaysWritable(remaining, key);
        WritableKey(remaining, key);
        BindReplaced(line, key, value, done, updates, before, after);
        BindWritten(after, key, value);
        ParseOfRewrite(rest, Without(remaining, key), done + {key}, updates, Bind(before, line), after[key := value]);
      } else if AssignsTo(line, done) {
        BindDropped(line, done, updates, before, after);
        ParseOfRewrite(rest, remaining, done, updates, Bind(before, line), after);
      } else {
        BindKept(line, done, updates, before, after);
        ParseOfRewrite(rest, remaining, done, updates, Bind(before, line), Bind(after, line));
      }
    }
  }

  // ---------- Lines survive the trip through the file ----------

  ghost predicate AllOneLine(lines: seq<string>) {
    forall i | 0 <= i < |lines| :: OneLine(lines[i])
  }

  lemma OneMoreLine(line: string, lines: seq<string>)
    requires OneLine(line) && AllOneLine(lines)
    ensures AllOneLine([line] + lines)
  {
  }

  lemma WrittenIsOneLine(key: string, value: string)
    requires Writable(key, value)
    ensures OneLine(Assignment(key, value))
  {
    AssignmentReadsBack(key, value);
  }

  lemma {:induction false} AppendedLinesAreLines(remaining: Dict)
    requires Distinct(remaining) && AllWritable(remaining)
    ensures AllOneLine(Appended(remaining))
    decreases |remaining|
  {
    if remaining != [] {
      HeadAndTail(remaining);
      AppendedLinesAreLines(remaining[1..]);
      WrittenIsOneLine(remaining[0].0, remaining[0].1);
      OneMoreLine(Assignment(remaining[0].0, remaining[0].1), Appended(remaining[1..]));
    }
  }

  lemma {:induction false} RewrittenLinesAreLines(lines: seq<string>, remaining: Dict, done: set<string>)
    requires Distinct(remaining) && AllWritable(remaining) && AllOneLine(lines)
    ensures AllOneLine(Rewrite(lines, remaining, done))
    ensures remaining != [] ==> Rewrite(lines, remaining, done) != []
    decreases |lines|
  {
    if lines == [] {
      AppendedLinesAreLines(remaining);
    } else {
      var line, rest := lines[0], lines[1..];
      if AssignsTo(line, Keys(remaining)) {
        var key := LineKey(line);
        WritableKey(remaining, key);
        WrittenIsOneLine(key, Lookup(remaining, key));
        WithoutKey(remaining, key);
        WithoutStaysWritable(remaining, key);
        RewrittenLinesAreLines(rest, Without(remaining, key), done + {key});
        OneMoreLine(Assignment(key, Lookup(remaining, key)), Rewrite(rest, Without(remaining, key), done + {key}));
      } else {
        RewrittenLinesAreLines(rest, remaining, done);
        OneMoreLine(line, Rewrite(rest, remaining, done));
      }
    }
  }

  function LinesOf(file: Option<string>): seq<string> {
    if file.None? then [] else SplitLines(ReadText(file.value))
  }

  // Reading the updated file line by line gives back exactly the lines written.
  lemma UpdatedLines(file: Option<string>, updates: Dict)
    requires Distinct(updates) && AllWritable(updates) && updates != []
    ensures LinesOf(Some(UpdatedText(file, updates))) == Rewrite(LinesOf(file), updates, {})
    ensures UpdatedText(file, updates) == Unlines(Rewrite(LinesOf(file), updates, {}))
  {
    var out := Rewrite(LinesOf(file), updates, {});
    RewrittenLinesAreLines(LinesOf(file), updates, {});
    SplitLinesOfUnlines(out);
    UnlinesHasNoCarriageReturn(out);
    ReadTextIsIdentity(Unlines(out));
  }

  // ---------- Main results ----------

  // What is wrong with a key and a value, in the order it is looked for.
  predicate Complains(key: string, value: string, error: EnvError) {
    match error
    case BadKey => !HasKeyShape(key)
    case KeyNotWritable => HasKeyShape(key) && key !in WRITABLE_KEYS
    case HasNul => key in WRITABLE_KEYS && '\0' in value
    case HasSeparator => key in WRITABLE_KEYS && '\0' !in value && !OneLine(value)
    case HasQuote => key in WRITABLE_KEYS && '\0' !in value && OneLine(value) && '\'' in value
    case HasBackslash => key in WRITABLE_KEYS && '\0' !in value && OneLine(value) && '\'' !in value && '\\' in value
    case NoDirectory => false
  }

  lemma PairComplaint(key: string, value: string, error: EnvError)
    ensures (if KeyError(key).Some? then KeyError(key) else ValueError(value)) == Some(error) <==> Complains(key, value, error)
  {
    AcceptedKeys(key);
    SplitLinesKeepsWhole(value);
  }

  predicate IsFirstBad(updates: Dict, i: nat) {
    i < |updates| && !Writable(updates[i].0, updates[i].1) && forall j | 0 <= j < i :: Writable(updates[j].0, updates[j].1)
  }

  lemma GoodThenTheRest(updates: Dict)
    requires updates != [] && Writable(updates[0].0, updates[0].1)
    ensures DictError(updates) == DictError(updates[1..])
  {
  }

  lemma BadIsReported(updates: Dict, error: EnvError)
    requires updates != [] && !Writable(updates[0].0, updates[0].1)
    ensures DictError(updates) == Some(error) <==> Complains(updates[0].0, updates[0].1, error)
  {
    PairComplaint(updates[0].0, updates[0].1, error);
  }

  // The error reported is that of the first pair that may not be written.
  lemma {:induction false} ErrorIsTheFirst(updates: Dict, i: nat, error: EnvError)
    requires IsFirstBad(updates, i)
    ensures DictError(updates) == Some(error) <==> Complains(updates[i].0, updates[i].1, error)
    decreases |updates|
  {
    if i == 0 {
      BadIsReported(updates, error);
    } else {
      GoodThenTheRest(updates);
      var rest := updates[1..];
      assert forall j | 0 <= j < |rest| :: rest[j] == updates[j + 1];
      ErrorIsTheFirst(rest, i - 1, error);
    }
  }

  // For every file and every update map: an accepted update reads back as the
  // old contents overridden by it; a rejected one leaves the file alone.
  lemma UpdateThenRead(file: Option<string>, directoryExists: bool, updates: Dict)
    requires Distinct(updates)
    ensures var (error, file') := Update(file, directoryExists, updates);
            && (error.None? ==> ReadEnv(file') == ReadEnv(file) + ToMap(updates))
            && (error.Some? ==> file' == file)
            && (error.None? <==> AllWritable(updates) && (updates == [] || directoryExists))
  {
    AcceptedDict(updates);
    if AllWritable(updates) && updates != [] {
      UpdatedLines(file, updates);
      ParseOfRewrite(LinesOf(file), updates, {}, ToMap(updates), map[], map[]);
    } else if updates == [] {
      assert ReadEnv(file) + map[] == ReadEnv(file);
    }
  }

  // ---------- The shape of the updated file ----------

  function Count(lines: seq<string>, key: string): nat {
    if lines == [] then 0
    else (if AssignsTo(lines[0], {key}) then 1 else 0) + Count(lines[1..], key)
  }

  // The lines that assign none of the keys: other assignments, comments, blanks.
  function Others(lines: seq<string>, keys: set<string>): seq<string> {
    if lines == [] then []
    else if AssignsTo(lines[0], keys) then Others(lines[1..], keys)
    else [lines[0]] + Others(lines[1..], keys)
  }

  // The lines before the first that assigns the key.
  function Before(lines: seq<string>, key: string): seq<string> {
    if lines == [] || AssignsTo(lines[0], {key}) then [] else [lines[0]] + Before(lines[1..], key)
  }

  // Each remaining key is assigned once, by the line written for it; a done key not at all.
  ghost predicate Canonical(lines: seq<string>, remaining: Dict, done: set<string>) {
    if lines == [] then remaining == []
    else if AssignsTo(lines[0], Keys(remaining)) then
      var key := LineKey(lines[0]);
      && lines[0] == Assignment(key, Lookup(remaining, key))
      && Canonical(lines[1..], Without(remaining, key), done + {key})
    else !AssignsTo(lines[0], done) && Canonical(lines[1..], remaining, done)
  }

  lemma WrittenAssigns(key: string, value: string)
    requires Writable(key, value)
    ensures Assigns(Assignment(key, value)) && LineKey(Assignment(key, value)) == key
  {
    AssignmentReadsBack(key, value);
  }

  lemma {:induction false} AppendedIsCanonical(remaining: Dict, done: set<string>)
    requires Distinct(remaining) && AllWritable(remaining)
    ensures Canonical(Appended(remaining), remaining, done)
    decreases |remaining|
  {
    if remaining != [] {
      var (key, value) := remaining[0];
      HeadAndTail(remaining);
      LookupIsUnique(remaining, 0);
      WrittenAssigns(key, value);
      AppendedIsCanonical(remaining[1..], done + {key});
    }
  }

  lemma {:induction false} RewriteIsCanonical(lines: seq<string>, remaining: Dict, done: set<string>)
    requires Distinct(remaining) && AllWritable(remaining) && Keys(remaining) !! done
    ensures Canonical(Rewrite(lines, remaining, done), remaining, done)
    decreases |lines|
  {
    if lines == [] {
      AppendedIsCanonical(remaining, done);
    } else {
      var line, rest := lines[0], lines[1..];
      if AssignsTo(line, Keys(remaining)) {
        var key := LineKey(line);
        WritableKey(remaining, key);
        WrittenAssigns(key, Lookup(remaining, key));
        WithoutKey(remaining, key);
        WithoutStaysWritable(remaining, key);
        RewriteIsCanonical(rest, Without(remaining, key), done + {key});
      } else {
        RewriteIsCanonical(rest, remaining, done);
      }
    }
  }

  lemma {:induction false} CanonicalIsFixed(lines: seq<string>, remaining: Dict, done: set<string>)
    requires Canonical(lines, remaining, done)
    ensures Rewrite(lines, remaining, done) == lines
    decreases |lines|
  {
    if lines != [] {
      if AssignsTo(lines[0], Keys(remaining)) {
        var key := LineKey(lines[0]);
        CanonicalIsFixed(lines[1..], Without(remaining, key), done + {key});
      } else {
        CanonicalIsFixed(lines[1..], remaining, done);
      }
    }
  }

  lemma {:induction false} CanonicalCounts(lines: seq<string>, remaining: Dict, done: set<string>, key: string)
    requires Distinct(remaining) && Keys(remaining) !! done && Canonical(lines, remaining, done)
    ensures key in Keys(remaining) ==> Count(lines, key) == 1 && Assignment(key, Lookup(remaining, key)) in lines
    ensures key in done ==> Count(lines, key) == 0
    decreases |lines|
  {
    if lines != [] {
      if AssignsTo(lines[0], Keys(remaining)) {
        var k := LineKey(lines[0]);
        WithoutKey(remaining, k);
        CanonicalCounts(lines[1..], Without(remaining, k), done + {k}, key);
      } else {
        CanonicalCounts(lines[1..], remaining, done, key);
      }
    }
  }

  lemma {:induction false} AppendedAssignsOnlyUpdates(remaining: Dict, keys: set<string>, key: string)
    requires Distinct(remaining) && AllWritable(remaining) && Keys(remaining) <= keys
    ensures Others(Appended(remaining), keys) == []
    ensures Others(Before(Appended(remaining), key), keys) == []
    decreases |remaining|
  {
    if remaining != [] {
      HeadAndTail(remaining);
      WritableKey(remaining, remaining[0].0);
      WrittenAssigns(remaining[0].0, remaining[0].1);
      AppendedAssignsOnlyUpdates(remaining[1..], keys, key);
    }
  }

  lemma WrittenForKey(remaining: Dict, key: string)
    requires Distinct(remaining) && AllWritable(remaining) && key in Keys(remaining)
    ensures AssignsTo(Assignment(key, Lookup(remaining, key)), {key})
    ensures Distinct(Without(remaining, key)) && AllWritable(Without(remaining, key))
    ensures Keys(Without(remaining, key)) == Keys(remaining) - {key}
  {
    WritableKey(remaining, key);
    WrittenAssigns(key, Lookup(remaining, key));
    WithoutKey(remaining, key);
    WithoutStaysWritable(remaining, key);
  }

  lemma OthersCons(line: string, rest: seq<string>, keys: set<string>)
    ensures Others([line] + rest, keys) == (if AssignsTo(line, keys) then [] else [line]) + Others(rest, keys)
  {
    assert ([line] + rest)[1..] == rest;
  }

  lemma {:induction false} OthersSurvive(lines: seq<string>, remaining: Dict, done: set<string>, keys: set<string>)
    requires Distinct(remaining) && AllWritable(remaining) && keys == Keys(remaining) + done
    ensures Others(Rewrite(lines, remaining, done), keys) == Others(lines, keys)
    decreases |lines|
  {
    if lines == [] {
      AppendedAssignsOnlyUpdates(remaining, keys, "");
    } else {
      var line, rest := lines[0], lines[1..];
      assert lines == [line] + rest;
      RewriteOneLine(line, rest, remaining, done);
      OthersCons(line, rest, keys);
      if AssignsTo(line, Keys(remaining)) {
        var k := LineKey(line);
        WrittenForKey(remaining, k);
        OthersSurvive(rest, Without(remaining, k), done + {k}, keys);
        OthersCons(Assignment(k, Lookup(remaining, k)), Rewrite(rest, Without(remaining, k), done + {k}), keys);
      } else {
        OthersSurvive(rest, remaining, done, keys);
        OthersCons(line, Rewrite(rest, remaining, done), keys);
      }
    }
  }

  lemma BeforeCons(line: string, a: seq<string>, b: seq<string>, keys: set<string>, key: string)
    requires Others(Before(a, key), keys) == Others(Before(b, key), keys)
    ensures Others(Before([line] + a, key), keys) == Others(Before([line] + b, key), keys)
  {
    assert ([line] + a)[1..] == a && ([line] + b)[1..] == b;
    if !AssignsTo(line, {key}) {
      assert ([line] + Before(a, key))[1..] == Before(a, key);
      assert ([line] + Before(b, key))[1..] == Before(b, key);
    }
  }

  lemma BeforeSkips(line: string, a: seq<string>, keys: set<string>, key: string)
    requires AssignsTo(line, keys) && !AssignsTo(line, {key})
    ensures Others(Before([line] + a, key), keys) == Others(Before(a, key), keys)
  {
    assert ([line] + a)[1..] == a;
    assert ([line] + Before(a, key))[1..] == Before(a, key);
  }

  lemma PlaceOfRewritten(line: string, written: string, rest: seq<string>, out: seq<string>,
                         k: string, keys: set<string>, key: string)
    requires AssignsTo(line, {k}) && AssignsTo(written, {k}) && k in keys
    requires k != key ==> Others(Before(out, key), keys) == Others(Before(rest, key), keys)
    ensures Others(Before([written] + out, key), keys) == Others(Before([line] + rest, key), keys)
  {
    if k != key {
      BeforeSkips(written, out, keys, key);
      BeforeSkips(line, rest, keys, key);
    }
  }

  // What the rewriting loop makes of one line, and of the rest.
  lemma RewriteOneLine(line: string, rest: seq<string>, remaining: Dict, done: set<string>)
    ensures Rewrite([line] + rest, remaining, done) ==
            if AssignsTo(line, Keys(remaining)) then
              [Assignment(LineKey(line), Lookup(remaining, LineKey(line)))]
              + Rewrite(rest, Without(remaining, LineKey(line)), done + {LineKey(line)})
            else if AssignsTo(line, done) then Rewrite(rest, remaining, done)
            else [line] + Rewrite(rest, remaining, done)
  {
    assert ([line] + rest)[1..] == rest;
  }

  // The place of a key, seen past one line that is rewritten ...
  lemma PlacePastRewritten(line: string, rest: seq<string>, remaining: Dict, done: set<string>, keys: set<string>, key: string)
    requires Distinct(remaining) && AllWritable(remaining) && keys == Keys(remaining) + done && AssignsTo(line, Keys(remaining))
    requires var k := LineKey(line);
             k != key ==> Others(Before(Rewrite(rest, Without(remaining, k), done + {k}), key), keys) == Others(Before(rest, key), keys)
    ensures Others(Before(Rewrite([line] + rest, remaining, done), key), keys) == Others(Before([line] + rest, key), keys)
  {
    var k := LineKey(line);
    RewriteOneLine(line, rest, remaining, done);
    WrittenForKey(remaining, k);
    PlaceOfRewritten(line, Assignment(k, Lookup(remaining, k)), rest,
                     Rewrite(rest, Without(remaining, k), done + {k}), k, keys, key);
  }

  // ... and past one that is dropped or kept.
  lemma PlacePastOther(line: string, rest: seq<string>, remaining: Dict, done: set<string>, keys: set<string>, key: string)
    requires keys == Keys(remaining) + done && key !in done && !AssignsTo(line, Keys(remaining))
    requires Others(Before(Rewrite(rest, remaining, done), key), keys) == Others(Before(rest, key), keys)
    requires key in Keys(remaining)
    ensures Others(Before(Rewrite([line] + rest, remaining, done), key), keys) == Others(Before([line] + rest, key), keys)
  {
    RewriteOneLine(line, rest, remaining, done);
    if AssignsTo(line, done) {
      BeforeSkips(line, rest, keys, key);
    } else {
      BeforeCons(line, Rewrite(rest, remaining, done), rest, keys, key);
    }
  }

  lemma {:induction false} PlacesSurvive(lines: seq<string>, remaining: Dict, done: set<string>, keys: set<string>, key: string)
    requires Distinct(remaining) && AllWritable(remaining) && keys == Keys(remaining) + done
    requires key in Keys(remaining) && key !in done
    ensures Others(Before(Rewrite(lines, remaining, done), key), keys) == Others(Before(lines, key), keys)
    decreases |lines|
  {
    if lines == [] {
      AppendedAssignsOnlyUpdates(remaining, keys, key);
    } else {
      var line, rest := lines[0], lines[1..];
      assert lines == [line] + rest;
      if AssignsTo(line, Keys(remaining)) {
        var k := LineKey(line);
        if k != key {
          WrittenForKey(remaining, k);
          PlacesSurvive(rest, Without(remaining, k), done + {k}, keys, key);
        }
        PlacePastRewritten(line, rest, remaining, done, keys, key);
      } else {
        PlacesSurvive(rest, remaining, done, keys, key);
        PlacePastOther(line, rest, remaining, done, keys, key);
      }
    }
  }

  // An accepted update leaves every line that assigns no updated key, in order;
  // assigns each updated key on exactly one line, the quoted one; and puts that
  // line where the first assignment of the key was, or after everything else.
  lemma ShapeOfUpdatedFile(file: Option<string>, updates: Dict, key: string)
    requires Distinct(updates) && DictError(updates).None? && key in Keys(updates)
    ensures var lines, lines' := LinesOf(file), LinesOf(Some(UpdatedText(file, updates)));
            && Others(lines', Keys(updates)) == Others(lines, Keys(updates))
            && Count(lines', key) == 1
            && key + "='" + Lookup(updates, key) + "'" in lines'
            && Others(Before(lines', key), Keys(updates)) == Others(Before(lines, key), Keys(updates))
  {
    AcceptedDict(updates);
    UpdatedLines(file, updates);
    var lines := LinesOf(file);
    RewriteIsCanonical(lines, updates, {});
    CanonicalCounts(Rewrite(lines, updates, {}), updates, {}, key);
    OthersSurvive(lines, updates, {}, Keys(updates));
    PlacesSurvive(lines, updates, {}, Keys(updates), key);
  }

  // Applying the same update again changes nothing, to the last character.
  lemma UpdateTwiceIsOnce(file: Option<string>, directoryExists: bool, updates: Dict)
    requires Distinct(updates)
    ensures var (error, file') := Update(file, directoryExists, updates);
            Update(file', directoryExists, updates) == (error, file')
  {
    AcceptedDict(updates);
    if AllWritable(updates) && updates != [] {
      UpdatedLines(file, updates);
      RewriteIsCanonical(LinesOf(file), updates, {});
      CanonicalIsFixed(Rewrite(LinesOf(file), updates, {}), updates, {});
    }
  }
}
