/**
 Questions put to a person in a chat: asking them, showing them as a numbered
 list, reading the reply, recording it once, and handing the answer back.
 Times are in seconds; lower stands for str.lower.
 */
module Prompts {
  import opened Wrappers
  import opened PyText
  import opened PyInt

  datatype Kind = Notice | ChoiceSingle | ChoiceMulti | FreeText | Approval

  datatype Choice = Choice(key: string, caption: string)

  datatype Status = Pending | Answered | Expired | Cancelled

  datatype Response = NoResponse | Keys(keys: seq<string>) | Text(text: string)

  datatype Prompt = Prompt(kind: Kind, question: string, body: string, options: seq<Choice>,
                           minChoices: nat, maxChoices: nat, expiresAt: int,
                           status: Status, response: Response, answeredBy: string)

  /** The keyword arguments of resolve that carry the reply. */
  datatype Reply = Reply(optionKeys: Option<seq<string>>, text: Option<string>)

  datatype Call = Call(now: int, reply: Reply, sender: string)

  const KEY_LENGTH: nat := 40
  const ASK_TTL: nat := 3600
  const APPROVAL_TTL: nat := 900

  // ---------- Asking ----------

  function KeyOf(option: string): string {
    if |option| <= KEY_LENGTH then option else option[..KEY_LENGTH]
  }

  function OptionsOf(texts: seq<string>): (options: seq<Choice>)
    ensures |options| == |texts|
    ensures forall i | 0 <= i < |texts| :: options[i] == Choice(KeyOf(texts[i]), texts[i])
  {
    seq(|texts|, i requires 0 <= i < |texts| => Choice(KeyOf(texts[i]), texts[i]))
  }

  function CreatePrompt(kind: Kind, question: string, body: string, options: seq<Choice>, expiresAt: int): Prompt {
    Prompt(kind, question, body, options, 0, 1, expiresAt, Pending, NoResponse, "")
  }

  function Ask(question: string, options: seq<string>, now: int): Prompt {
    CreatePrompt(if options == [] then FreeText else ChoiceSingle, question, "", OptionsOf(options), now + ASK_TTL)
  }

  const APPROVAL_OPTIONS: seq<Choice> := [Choice("allow", "Allow"), Choice("deny", "Deny")]

  function Approve(action: string, preview: string, now: int): Prompt {
    CreatePrompt(Approval, action, preview, APPROVAL_OPTIONS, now + APPROVAL_TTL)
  }

  // ---------- Showing ----------

  function Numbered(options: seq<Choice>): (rows: seq<string>)
    ensures |rows| == |options|
    ensures forall i | 0 <= i < |options| :: rows[i] == Str(i + 1) + ". " + options[i].caption
  {
    seq(|options|, i requires 0 <= i < |options| => Str(i + 1) + ". " + options[i].caption)
  }

  // The options a reply to p is read against.
  function Offered(p: Prompt): seq<Choice> {
    if p.kind.Approval? && p.options == [] then APPROVAL_OPTIONS else p.options
  }

  function Header(p: Prompt): string {
    var body := Strip(p.body);
    if body == "" then p.question else p.question + "\n" + body
  }

  // How to reply.
  function Footer(kind: Kind): (s: string)
    ensures '\n' !in s
  {
    match kind
    case Notice => ""
    case FreeText => "Reply with your answer."
    case ChoiceMulti => "Reply with numbers separated by commas."
    case _ => "Reply with the number."
  }

  function Render(p: Prompt): string {
    match p.kind
    case Notice => Header(p)
    case FreeText => Header(p) + "\n" + Footer(p.kind)
    case _ => Header(p) + "\n" + Join(Numbered(Offered(p)), '\n') + "\n" + Footer(p.kind)
  }

  // ---------- Reading a reply ----------

  function TryNumeric(text: string, options: seq<Choice>): Option<string> {
    match ParseInt(text)
    case None => None
    case Some(n) => if 1 <= n <= |options| then Some(options[n - 1].key) else None
  }

  // The last entry for a name wins, as in a dict comprehension.
  function LastNamed(names: seq<string>, values: seq<string>, name: string): Option<string>
    requires |names| == |values|
    decreases |names|
  {
    if names == [] then None
    else if names[|names| - 1] == name then Some(values[|values| - 1])
    else LastNamed(names[..|names| - 1], values[..|values| - 1], name)
  }

  function KeysOf(options: seq<Choice>): seq<string> {
    seq(|options|, i requires 0 <= i < |options| => options[i].key)
  }

  function LabelsOf(options: seq<Choice>): seq<string> {
    seq(|options|, i requires 0 <= i < |options| => options[i].caption)
  }

  function LoweredLabels(options: seq<Choice>, lower: string -> string): seq<string> {
    seq(|options|, i requires 0 <= i < |options| => lower(options[i].caption))
  }

  function ByLabel(options: seq<Choice>, lower: string -> string, text: string): Option<string> {
    LastNamed(LoweredLabels(options, lower), KeysOf(options), lower(text))
  }

  function Alias(text: string): Option<string> {
    if text in {"allow", "approve", "yes"} then Some("allow")
    else if text in {"deny", "reject", "no"} then Some("deny")
    else None
  }

  function OneKey(text: string, options: seq<Choice>, lower: string -> string): Option<string> {
    var number := TryNumeric(text, options);
    var alias := Alias(lower(text));
    if number.Some? then number
    else if alias.Some? && alias.value in KeysOf(options) then alias
    else ByLabel(options, lower, text)
  }

  // What one part of a comma-separated reply names.
  function PartKey(part: string, options: seq<Choice>, lower: string -> string): Option<string> {
    var number := TryNumeric(part, options);
    if number.Some? then number else ByLabel(options, lower, part)
  }

  function PartsOf(text: string): seq<string> {
    NonBlank(Split(text, ','))
  }

  function NonBlank(parts: seq<string>): seq<string> {
    if parts == [] then []
    else
      var part, rest := Strip(parts[0]), NonBlank(parts[1..]);
      if part == "" then rest else [part] + rest
  }

  // Keys for all of the parts, or None.
  function PartKeys(parts: seq<string>, options: seq<Choice>, lower: string -> string): Option<seq<string>> {
    if parts == [] then Some([])
    else
      var n := |parts| - 1;
      var front, last := PartKeys(parts[..n], options, lower), PartKey(parts[n], options, lower);
      if front.Some? && last.Some? then Some(front.value + [last.value]) else None
  }

  function ParseChoice(text: string, options: seq<Choice>, lower: string -> string, multi: bool): Option<seq<string>> {
    if options == [] then None
    else if multi then
      var parts := PartsOf(text);
      if parts == [] then None else PartKeys(parts, options, lower)
    else
      match OneKey(text, options, lower)
      case None => None
      case Some(key) => Some([key])
  }

  // None is a reply that cannot be mapped.
  function ParseReply(p: Prompt, text: string, lower: string -> string): Option<Reply> {
    var stripped := Strip(text);
    match p.kind
    case Notice => None
    case FreeText => if stripped == "" then None else Some(Reply(None, Some(stripped)))
    case _ =>
      match ParseChoice(stripped, Offered(p), lower, p.kind.ChoiceMulti?)
      case None => None
      case Some(keys) => Some(Reply(Some(keys), None))
  }

  lemma {:induction false} PartKeysStopAtUnknown(parts: seq<string>, k: nat, options: seq<Choice>, lower: string -> string)
    requires k < |parts| && PartKey(parts[k], options, lower).None?
    ensures PartKeys(parts, options, lower).None?
    decreases |parts|
  {
    if k < |parts| - 1 {
      PartKeysStopAtUnknown(parts[..|parts| - 1], k, options, lower);
    }
  }

  method ParseParts(parts: seq<string>, options: seq<Choice>, lower: string -> string) returns (r: Option<seq<string>>)
    ensures r == PartKeys(parts, options, lower)
  {
    var resolved: seq<string> := [];
    assert parts[..|parts|] == parts;
    for i := 0 to |parts|
      invariant PartKeys(parts[..i], options, lower) == Some(resolved)
    {
      var key := TryNumeric(parts[i], options);
      if key.None? {
        key := ByLabel(options, lower, parts[i]);
      }
      if key.None? {
        PartKeysStopAtUnknown(parts, i, options, lower);
        return None;
      }
      assert parts[..i + 1][..i] == parts[..i];
      resolved := resolved + [key.value];
    }
    return Some(resolved);
  }

  // ---------- Recording the reply ----------

  predicate KeysAccepted(p: Prompt, keys: seq<string>) {
    && (forall k | k in keys :: k in KeysOf(p.options))
    && p.minChoices <= |keys| <= p.maxChoices
  }

  predicate ReplyAccepted(p: Prompt, reply: Reply) {
    reply.optionKeys.Some? && p.options != [] ==> KeysAccepted(p, reply.optionKeys.value)
  }

  function Recorded(p: Prompt, reply: Reply, sender: string): Prompt {
    var response :=
      if reply.optionKeys.Some? then Keys(reply.optionKeys.value)
      else if reply.text.Some? then Text(reply.text.value)
      else p.response;
    p.(response := response, status := Answered, answeredBy := sender)
  }

  predicate Succeeds(p: Prompt, call: Call) {
    call.now < p.expiresAt && p.status == Pending && ReplyAccepted(p, call.reply)
  }

  function Resolved(p: Prompt, call: Call): Prompt {
    if call.now >= p.expiresAt then (if p.status == Pending then p.(status := Expired) else p)
    else if Succeeds(p, call) then Recorded(p, call.reply, call.sender)
    else p
  }

  /** One row of the prompt table. */
  class PromptRow {
    const kind: Kind
    const question: string
    const body: string
    const options: seq<Choice>
    const minChoices: nat
    const maxChoices: nat
    const expiresAt: int
    var status: Status
    var response: Response
    var answeredBy: string

    function View(): Prompt
      reads this
    {
      Prompt(kind, question, body, options, minChoices, maxChoices, expiresAt, status, response, answeredBy)
    }

    constructor (p: Prompt)
      ensures View() == p
    {
      kind, question, body, options := p.kind, p.question, p.body, p.options;
      minChoices, maxChoices, expiresAt := p.minChoices, p.maxChoices, p.expiresAt;
      status, response, answeredBy := p.status, p.response, p.answeredBy;
    }

    method RecordResponse(reply: Reply, sender: string)
      modifies this
      ensures View() == Recorded(old(View()), reply, sender)
    {
      if reply.optionKeys.Some? {
        response := Keys(reply.optionKeys.value);
      } else if reply.text.Some? {
        response := Text(reply.text.value);
      }
      status := Answered;
      answeredBy := sender;
    }

    // Runs with the row locked, so as one step.
    method Resolve(call: Call) returns (done: bool)
      modifies this
      ensures done == Succeeds(old(View()), call)
      ensures View() == Resolved(old(View()), call)
    {
      if call.now >= expiresAt {
        if status == Pending {
          status := Expired;
        }
        return false;
      }
      if status != Pending {
        return false;
      }
      if call.reply.optionKeys.Some? && options != [] {
        var keys, valid := call.reply.optionKeys.value, KeysOf(options);
        for i := 0 to |keys|
          invariant forall j | 0 <= j < i :: keys[j] in valid
          invariant View() == old(View())
        {
          if keys[i] !in valid {
            return false;
          }
        }
        if |keys| < minChoices || |keys| > maxChoices {
          return false;
        }
      }
      RecordResponse(call.reply, call.sender);
      return true;
    }
  }

  // ---------- Handing the answer back ----------

  datatype Result = Waiting(status: Status) | Answer(text: string) | Decision(text: string)

  function ResultOf(p: Prompt): Result {
    if p.status != Answered then Waiting(p.status)
    else
      var keys := if p.response.Keys? then p.response.keys else [];
      if p.kind.Approval? then Decision(if keys == [] then "deny" else keys[0])
      else if p.response.Text? then Answer(p.response.text)
      else if keys == [] then Answer("")
      else
        match LastNamed(KeysOf(p.options), LabelsOf(p.options), keys[0])
        case None => Answer(keys[0])
        case Some(caption) => Answer(caption)
  }
}
