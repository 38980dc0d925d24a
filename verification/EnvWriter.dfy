/**
 Reading and updating deploy/.env: a text of lines, some of which assign a key.
 A Python dict of updates is a sequence of pairs with distinct keys, in the
 order in which it is iterated.
 */
module EnvWriter {
  import opened Wrappers
  import opened PyText

  type Dict = seq<(string, string)>

  function Keys(d: Dict): set<string> {
    set i | 0 <= i < |d| :: d[i].0
  }

  predicate Distinct(d: Dict) {
    forall i, j | 0 <= i < j < |d| :: d[i].0 != d[j].0
  }

  function Lookup(d: Dict, key: string): (value: string)
    requires key in Keys(d)
    ensures (key, value) in d
  {
    if d[0].0 == key then d[0].1
    else
      assert d == [d[0]] + d[1..];
      Lookup(d[1..], key)
  }

  function Without(d: Dict, key: string): Dict {
    if d == [] then []
    else if d[0].0 == key then d[1..]
    else [d[0]] + Without(d[1..], key)
  }

  function ToMap(d: Dict): map<string, string> {
    map key | key in Keys(d) :: Lookup(d, key)
  }

  // ---------- What may be written ----------

  const WRITABLE_KEYS: set<string> := {
    "TELEGRAM_BOT_TOKEN", "TELEGRAM_FORUM_CHAT_ID", "TELEGRAM_ALLOWED_CHAT_IDS", "ORC_PROMPT_CHAT_ID",
    "ORC_MESSAGING_PLATFORM", "ORC_PROMPT_WHATSAPP", "ORC_PROMPT_SLACK", "ORC_PROMPT_DISCORD",
    "ORC_PROMPT_SIGNAL", "ORC_PROMPT_IMESSAGE", "ANTHROPIC_API_KEY", "OPENAI_API_KEY", "OLLAMA_BASE_URL"
  }

  predicate IsKeyChar(c: char) {
    'A' <= c <= 'Z' || '0' <= c <= '9' || c == '_'
  }

  // ^[A-Z][A-Z0-9_]*$, where Python's $ also matches before a final newline.
  predicate HasKeyShape(key: string) {
    var body := if key != "" && key[|key| - 1] == '\n' then key[..|key| - 1] else key;
    body != "" && 'A' <= body[0] <= 'Z' && forall c | c in body :: IsKeyChar(c)
  }

  datatype EnvError = BadKey | KeyNotWritable | HasNul | HasSeparator | HasQuote | HasBackslash | NoDirectory

  function KeyError(key: string): Option<EnvError> {
    if !HasKeyShape(key) then Some(BadKey)
    else if key !in WRITABLE_KEYS then Some(KeyNotWritable)
    else None
  }

  function ValueError(value: string): Option<EnvError> {
    var first := SplitLines(value);
    var head := if |first| > 1 then first[..1] else first;
    if '\0' in value then Some(HasNul)
    else if head != (if value == "" then [] else [value]) then Some(HasSeparator)
    else if '\'' in value then Some(HasQuote)
    else if '\\' in value then Some(HasBackslash)
    else None
  }

  // The first complaint about the updates, in the order they are checked.
  function DictError(updates: Dict): Option<EnvError> {
    if updates == [] then None
    else if KeyError(updates[0].0).Some? then KeyError(updates[0].0)
    else if ValueError(updates[0].1).Some? then ValueError(updates[0].1)
    else DictError(updates[1..])
  }

  lemma WritableKeyChars(key: string)
    requires key in WRITABLE_KEYS
    ensures key != "" && 'A' <= key[0] <= 'Z' && forall c | c in key :: IsKeyChar(c)
  {
    forall c | c in key ensures IsKeyChar(c) { }
  }

  // The allowlist decides alone: its keys have the required shape, and a key can
  // be recovered from "key=...".
  lemma AcceptedKeys(key: string)
    ensures KeyError(key).None? <==> key in WRITABLE_KEYS
    ensures KeyError(key).None? ==>
              && key != "" && '=' !in key && OneLine(key) && key[0] != '#'
              && !IsSpace(key[0]) && !IsSpace(key[|key| - 1])
  {
    if key in WRITABLE_KEYS {
      WritableKeyChars(key);
      forall i | 0 <= i < |key| ensures IsKeyChar(key[i]) { assert key[i] in key; }
    }
  }

  // A value is accepted exactly when no character of it can end the line or the quotes.
  lemma AcceptedValues(value: string)
    ensures ValueError(value).None? <==>
            OneLine(value) && forall i | 0 <= i < |value| :: value[i] !in {'\0', '\'', '\\'}
  {
    SplitLinesKeepsWhole(value);
  }

  // ---------- Parsing ----------

  function Unquote(value: string): string {
    if |value| >= 2 && value[0] == value[|value| - 1] && value[0] in {'\'', '"'}
    then value[1..|value| - 1] else value
  }

  predicate Assigns(line: string) {
    var s := Strip(line);
    s != "" && s[0] != '#' && '=' in s
  }

  function LineKey(line: string): string
    requires Assigns(line)
  {
    var s := Strip(line);
    Strip(s[..Find(s, '=')])
  }

  function LineValue(line: string): string
    requires Assigns(line)
  {
    var s := Strip(line);
    var n := Find(s, '=');
    Unquote(Strip(s[n + 1..]))
  }

  predicate AssignsTo(line: string, keys: set<string>) {
    Assigns(line) && LineKey(line) in keys
  }

  function Bind(values: map<string, string>, line: string): map<string, string> {
    if Assigns(line) then values[LineKey(line) := LineValue(line)] else values
  }

  // Later assignments win over earlier ones.
  function ParseFrom(values: map<string, string>, lines: seq<string>): map<string, string>
    decreases |lines|
  {
    if lines == [] then values else ParseFrom(Bind(values, lines[0]), lines[1..])
  }

  function ReadEnv(file: Option<string>): map<string, string> {
    if file.None? then map[] else ParseFrom(map[], SplitLines(ReadText(file.value)))
  }

  // ---------- Updating ----------

  function Assignment(key: string, value: string): string {
    key + "='" + value + "'"
  }

  function Appended(d: Dict): seq<string> {
    if d == [] then [] else [Assignment(d[0].0, d[0].1)] + Appended(d[1..])
  }

  function Rewrite(lines: seq<string>, remaining: Dict, rewritten: set<string>): seq<string> {
    if lines == [] then Appended(remaining)
    else
      var line, rest := lines[0], lines[1..];
      if AssignsTo(line, Keys(remaining)) then
        var key := LineKey(line);
        [Assignment(key, Lookup(remaining, key))] + Rewrite(rest, Without(remaining, key), rewritten + {key})
      else if AssignsTo(line, rewritten) then Rewrite(rest, remaining, rewritten)
      else [line] + Rewrite(rest, remaining, rewritten)
  }

  // "\n".join(lines) + "\n"
  function JoinLines(lines: seq<string>): string {
    if lines == [] then "\n" else Unlines(lines)
  }

  function UpdatedText(file: Option<string>, updates: Dict): string {
    var original := if file.Some? then ReadText(file.value) else "";
    JoinLines(Rewrite(SplitLines(original), updates, {}))
  }

  // The complaint, and the file afterwards.
  function Update(file: Option<string>, directoryExists: bool, updates: Dict): (Option<EnvError>, Option<string>) {
    if DictError(updates).Some? then (DictError(updates), file)
    else if updates == [] then (None, file)
    else if !directoryExists then (Some(NoDirectory), file)
    else (None, Some(UpdatedText(file, updates)))
  }

  class EnvFile {
    var text: Option<string>
    const directoryExists: bool

    constructor (text: Option<string>, directoryExists: bool)
      ensures this.text == text && this.directoryExists == directoryExists
    {
      this.text, this.directoryExists := text, directoryExists;
    }

    method Read() returns (values: map<string, string>)
      ensures values == ReadEnv(text)
    {
      values := map[];
      if text.None? {
        return;
      }
      var lines := SplitLines(ReadText(text.value));
      var i := 0;
      while i < |lines|
        invariant i <= |lines|
        invariant ParseFrom(values, lines[i..]) == ParseFrom(map[], lines)
      {
        var line := lines[i];
        assert lines[i..][1..] == lines[i + 1..];
        i := i + 1;
        if !Assigns(line) {
          continue;
        }
        var stripped := Strip(line);
        var at := Find(stripped, '=');
        values := values[Strip(stripped[..at]) := Unquote(Strip(stripped[at + 1..]))];
      }
    }

    method Apply(updates: Dict) returns (error: Option<EnvError>)
      modifies this
      ensures (error, text) == Update(old(text), directoryExists, updates)
    {
      error := FirstError(updates);
      if error.Some? || updates == [] {
        return;
      }
      if !directoryExists {
        return Some(NoDirectory);
      }
      var lines := SplitLines(if text.Some? then ReadText(text.value) else "");
      var out, remaining := RewriteExisting(lines, updates);
      out := AppendMissing(out, remaining);
      text := Some(JoinLines(out));
    }

    static method AppendMissing(existing: seq<string>, remaining: Dict) returns (out: seq<string>)
      ensures out == existing + Appended(remaining)
    {
      out := existing;
      var i := 0;
      while i < |remaining|
        invariant i <= |remaining|
        invariant out + Appended(remaining[i..]) == existing + Appended(remaining)
      {
        assert remaining[i..][1..] == remaining[i + 1..];
        AppendOne(out, Assignment(remaining[i].0, remaining[i].1), Appended(remaining[i + 1..]));
        out := out + [Assignment(remaining[i].0, remaining[i].1)];
        i := i + 1;
      }
    }

    // The loop over the existing lines: what it writes, and the keys it did not meet.
    static method RewriteExisting(lines: seq<string>, updates: Dict) returns (out: seq<string>, remaining: Dict)
      ensures out + Appended(remaining) == Rewrite(lines, updates, {})
    {
      remaining, out := updates, [];
      var rewritten := {};
      var i := 0;
      while i < |lines|
        invariant i <= |lines|
        invariant out + Rewrite(lines[i..], remaining, rewritten) == Rewrite(lines, updates, {})
      {
        var line := lines[i];
        ghost var rest := lines[i + 1..];
        assert lines[i..][0] == line && lines[i..][1..] == rest;
        i := i + 1;
        if AssignsTo(line, Keys(remaining)) {
          var key := LineKey(line);
          var value := Lookup(remaining, key);
          var left := Without(remaining, key);
          AppendOne(out, Assignment(key, value), Rewrite(rest, left, rewritten + {key}));
          out := out + [Assignment(key, value)];
          remaining := left;
          rewritten := rewritten + {key};
        } else if !AssignsTo(line, rewritten) {
          AppendOne(out, line, Rewrite(rest, remaining, rewritten));
          out := out + [line];
        }
      }
    }

    static lemma AppendOne(a: seq<string>, x: string, b: seq<string>)
      ensures a + [x] + b == a + ([x] + b)
    {
    }

    method FirstError(updates: Dict) returns (error: Option<EnvError>)
      ensures error == DictError(updates)
    {
      var i := 0;
      while i < |updates|
        invariant i <= |updates|
        invariant DictError(updates[i..]) == DictError(updates)
      {
        assert updates[i..][0] == updates[i] && updates[i..][1..] == updates[i + 1..];
        if KeyError(updates[i].0).Some? {
          return KeyError(updates[i].0);
        }
        if ValueError(updates[i].1).Some? {
          return ValueError(updates[i].1);
        }
        i := i + 1;
      }
      error := None;
    }
  }
}
