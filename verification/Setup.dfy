/**
 The first-run setup wizard: the singleton state row, the token rows and the env
 file, and each request as one step. Hashing is a function given from outside
 that may collide; random values and the clock are arguments.
 */
module Setup {
  import opened Wrappers
  import opened PyText
  import opened EnvWriter

  datatype Stage = Providers | Runtimes | Finished

  datatype State = State(stage: Stage, completedAt: Option<int>, providers: map<string, string>, challenge: string)

  datatype Token = Token(hash: string, expiresAt: int, consumedAt: Option<int>)

  type Hash = string -> string

  /** minted and matched count the challenges issued and the discoveries that used one. */
  datatype Wizard = Wizard(
    state: State, tokens: seq<Token>, env: Option<string>, directoryExists: bool,
    minted: nat, matched: nat)

  datatype Reply = Accepted | Refused | Closed

  // ---------- SetupState ----------

  predicate Complete(s: State) {
    s.completedAt.Some?
  }

  // connected_providers is not empty
  predicate AnyConnected(s: State) {
    exists key | key in s.providers :: s.providers[key] == "connected"
  }

  predicate Edge(from: Stage, to: Stage) {
    match from
    case Providers => to == Runtimes
    case Runtimes => to == Providers || to == Finished
    case Finished => false
  }

  // advance_to; None is the ValueError.
  function AdvanceTo(s: State, stage: Stage, now: int): Option<State> {
    if !Edge(s.stage, stage) || (stage != Providers && !AnyConnected(s)) then None
    else Some(s.(stage := stage, completedAt := if stage == Finished then Some(now) else s.completedAt))
  }

  function Reopened(s: State): State {
    State(Providers, None, map[], "")
  }

  // ---------- SetupToken ----------

  predicate IsLive(t: Token, now: int) {
    t.consumedAt.None? && now < t.expiresAt
  }

  function FindHash(tokens: seq<Token>, hash: string): (i: nat)
    ensures i <= |tokens|
    ensures i < |tokens| ==> tokens[i].hash == hash
    ensures forall j | 0 <= j < i :: tokens[j].hash != hash
  {
    if tokens == [] || tokens[0].hash == hash then 0 else 1 + FindHash(tokens[1..], hash)
  }

  // verify: the row of the live token that raw hashes to.
  function Verify(tokens: seq<Token>, h: Hash, raw: string, now: int): Option<nat> {
    var i := FindHash(tokens, h(raw));
    if raw == "" || i == |tokens| || !IsLive(tokens[i], now) then None else Some(i)
  }

  function Consume(t: Token, now: int): Token {
    if t.consumedAt.None? then t.(consumedAt := Some(now)) else t
  }

  function ConsumeAll(tokens: seq<Token>, now: int): seq<Token> {
    seq(|tokens|, i requires 0 <= i < |tokens| => Consume(tokens[i], now))
  }

  // issue; None is the unique-hash constraint failing, which rolls everything back.
  function Issue(tokens: seq<Token>, h: Hash, raw: string, now: int, ttl: int): Option<seq<Token>> {
    if FindHash(tokens, h(raw)) < |tokens| then None
    else Some(ConsumeAll(tokens, now) + [Token(h(raw), now + ttl, None)])
  }

  // ---------- Requests ----------

  // What Telegram answered to discover_chat.
  datatype Discovery = Failed | NothingYet | Found(chatId: string, userId: string)

  datatype Request =
    | Advance(raw: string, stage: Stage)
    | CompleteSetup(raw: string)
    | TelegramToken(raw: string, pasted: string, getMeOk: bool, code: string)
    | TelegramDiscover(raw: string, answer: Discovery)
    | OpenPage(raw: string, minted: string, ttl: int)
    | SetupCommand(reopen: bool, minted: string, ttl: int)

  function WithoutSpaces(s: string): string {
    if s == "" then ""
    else if IsSpace(s[0]) then WithoutSpaces(s[1..])
    else [s[0]] + WithoutSpaces(s[1..])
  }

  predicate IsSecretChar(c: char) {
    'A' <= c <= 'Z' || 'a' <= c <= 'z' || '0' <= c <= '9' || c == '_' || c == '-'
  }

  // ^\d+:[A-Za-z0-9_-]{10,}$ on text that holds no whitespace
  predicate IsBotToken(s: string) {
    var n := Find(s, ':');
    && 0 < n && n + 10 < |s|
    && (forall i | 0 <= i < n :: '0' <= s[i] <= '9')
    && (forall i | n < i < |s| :: IsSecretChar(s[i]))
  }

  // values.get(key, "")
  function Get(values: map<string, string>, key: string): string {
    if key in values then values[key] else ""
  }

  function BotToken(env: Option<string>): string {
    Get(ReadEnv(env), "TELEGRAM_BOT_TOKEN")
  }

  function ChatUpdates(chatId: string, userId: string): Dict {
    [("TELEGRAM_FORUM_CHAT_ID", chatId), ("ORC_PROMPT_CHAT_ID", chatId),
     ("ORC_MESSAGING_PLATFORM", "telegram"), ("TELEGRAM_ALLOWED_CHAT_IDS", userId)]
  }

  // SetupTokenPermission, once host and origin are fine.
  function Gate(w: Wizard, h: Hash, raw: string, now: int): Reply {
    if Complete(w.state) then Closed
    else if Verify(w.tokens, h, raw, now).None? then Refused
    else Accepted
  }

  function DoAdvance(w: Wizard, stage: Stage, now: int): (Wizard, Reply) {
    // The serializer does not offer the last stage.
    if stage == Finished then (w, Refused)
    else match AdvanceTo(w.state, stage, now)
      case None => (w, Refused)
      case Some(s) => (w.(state := s), Accepted)
  }

  function DoComplete(w: Wizard, token: nat, now: int): (Wizard, Reply)
    requires token < |w.tokens|
  {
    match AdvanceTo(w.state, Finished, now)
    case None => (w, Refused)
    case Some(s) => (w.(state := s, tokens := w.tokens[token := w.tokens[token].(consumedAt := Some(now))]), Accepted)
  }

  function DoTelegramToken(w: Wizard, pasted: string, getMeOk: bool, code: string): (Wizard, Reply) {
    var token := WithoutSpaces(pasted);
    if w.state.stage != Providers || !IsBotToken(token) || !getMeOk then (w, Refused)
    else
      var (error, env) := Update(w.env, w.directoryExists, [("TELEGRAM_BOT_TOKEN", token)]);
      if error.Some? then (w, Refused)
      else (w.(env := env, state := w.state.(challenge := "ORC-" + code), minted := w.minted + 1), Accepted)
  }

  function DoDiscover(w: Wizard, answer: Discovery): (Wizard, Reply) {
    if w.state.stage != Providers || BotToken(w.env) == "" || w.state.challenge == "" then (w, Refused)
    else if answer.Failed? then (w, Refused)
    else if answer.NothingYet? then (w, Accepted)
    else if answer.userId == "" then (w, Refused)
    else
      var (error, env) := Update(w.env, w.directoryExists, ChatUpdates(answer.chatId, answer.userId));
      if error.Some? then (w, Refused)
      else
        var state := w.state.(challenge := "", providers := w.state.providers["telegram" := "connected"]);
        (w.(env := env, state := state, matched := w.matched + 1), Accepted)
  }

  // The one-time URL: the presented token is exchanged for a fresh one.
  function DoOpenPage(w: Wizard, h: Hash, raw: string, minted: string, ttl: int, now: int): (Wizard, Reply) {
    if Complete(w.state) then (w, Closed)
    else if Verify(w.tokens, h, raw, now).None? then (w, Refused)
    else match Issue(w.tokens, h, minted, now, ttl)
      case None => (w, Refused)
      case Some(tokens) => (w.(tokens := tokens), Accepted)
  }

  function DoSetupCommand(w: Wizard, h: Hash, reopen: bool, minted: string, ttl: int, now: int): (Wizard, Reply) {
    if Complete(w.state) && !reopen then (w, Refused)
    else
      var state := if Complete(w.state) then Reopened(w.state) else w.state;
      match Issue(w.tokens, h, minted, now, ttl)
      // reopen() has been saved by then; only issue() rolls back.
      case None => (w.(state := state), Refused)
      case Some(tokens) => (w.(state := state, tokens := tokens), Accepted)
  }

  function Handle(w: Wizard, h: Hash, request: Request, now: int): (Wizard, Reply) {
    match request
    case Advance(raw, stage) =>
      if Gate(w, h, raw, now) != Accepted then (w, Gate(w, h, raw, now)) else DoAdvance(w, stage, now)
    case CompleteSetup(raw) =>
      if Gate(w, h, raw, now) != Accepted then (w, Gate(w, h, raw, now))
      else DoComplete(w, Verify(w.tokens, h, raw, now).value, now)
    case TelegramToken(raw, pasted, getMeOk, code) =>
      if Gate(w, h, raw, now) != Accepted then (w, Gate(w, h, raw, now)) else DoTelegramToken(w, pasted, getMeOk, code)
    case TelegramDiscover(raw, answer) =>
      if Gate(w, h, raw, now) != Accepted then (w, Gate(w, h, raw, now)) else DoDiscover(w, answer)
    case OpenPage(raw, minted, ttl) => DoOpenPage(w, h, raw, minted, ttl, now)
    case SetupCommand(reopen, minted, ttl) => DoSetupCommand(w, h, reopen, minted, ttl, now)
  }

  // Requests and the times they arrive at.
  function Run(w: Wizard, h: Hash, requests: seq<(Request, int)>): Wizard {
    if requests == [] then w
    else
      var (request, now) := requests[|requests| - 1];
      Handle(Run(w, h, requests[..|requests| - 1]), h, request, now).0
  }

  /** The rows and the file, changed in place by the request handlers. */
  class SetupWizard {
    const hash: Hash
    const directoryExists: bool
    var state: State
    var tokens: seq<Token>
    var env: Option<string>
    var minted: nat
    var matched: nat

    function View(): Wizard
      reads this
    {
      Wizard(state, tokens, env, directoryExists, minted, matched)
    }

    constructor (hash: Hash, directoryExists: bool, env: Option<string>)
      ensures View() == Wizard(State(Providers, None, map[], ""), [], env, directoryExists, 0, 0)
      ensures this.hash == hash
    {
      this.hash, this.directoryExists, this.env := hash, directoryExists, env;
      state, tokens, minted, matched := State(Providers, None, map[], ""), [], 0, 0;
    }

    method AdvanceStage(stage: Stage, now: int) returns (ok: bool)
      modifies this`state
      ensures ok == AdvanceTo(old(state), stage, now).Some?
      ensures state == if ok then AdvanceTo(old(state), stage, now).value else old(state)
    {
      if !Edge(state.stage, stage) {
        return false;
      }
      if stage != Providers && !AnyConnected(state) {
        return false;
      }
      state := state.(stage := stage);
      if stage == Finished {
        state := state.(completedAt := Some(now));
      }
      ok := true;
    }

    method IssueToken(raw: string, now: int, ttl: int) returns (ok: bool)
      modifies this`tokens
      ensures ok == Issue(old(tokens), hash, raw, now, ttl).Some?
      ensures tokens == if ok then Issue(old(tokens), hash, raw, now, ttl).value else old(tokens)
    {
      if FindHash(tokens, hash(raw)) < |tokens| {
        return false;
      }
      var i, updated := 0, [];
      while i < |tokens|
        invariant i <= |tokens| && tokens == old(tokens)
        invariant updated == ConsumeAll(tokens, now)[..i]
      {
        updated := updated + [Consume(tokens[i], now)];
        i := i + 1;
      }
      tokens := updated + [Token(hash(raw), now + ttl, None)];
      ok := true;
    }

    method PostAdvance(raw: string, stage: Stage, now: int) returns (reply: Reply)
      modifies this
      ensures (View(), reply) == Handle(old(View()), hash, Advance(raw, stage), now)
    {
      reply := Gate(View(), hash, raw, now);
      if reply != Accepted {
        return;
      }
      if stage == Finished {
        return Refused;
      }
      var ok := AdvanceStage(stage, now);
      reply := if ok then Accepted else Refused;
    }

    method PostComplete(raw: string, now: int) returns (reply: Reply)
      modifies this
      ensures (View(), reply) == Handle(old(View()), hash, CompleteSetup(raw), now)
    {
      reply := Gate(View(), hash, raw, now);
      if reply != Accepted {
        return;
      }
      var token := Verify(tokens, hash, raw, now).value;
      var ok := AdvanceStage(Finished, now);
      if !ok {
        return Refused;
      }
      tokens := tokens[token := tokens[token].(consumedAt := Some(now))];
    }

    method PostTelegramToken(raw: string, pasted: string, getMeOk: bool, code: string, now: int) returns (reply: Reply)
      modifies this
      ensures (View(), reply) == Handle(old(View()), hash, TelegramToken(raw, pasted, getMeOk, code), now)
    {
      reply := Gate(View(), hash, raw, now);
      if reply != Accepted {
        return;
      }
      reply := StoreBotToken(pasted, getMeOk, code);
    }

    method StoreBotToken(pasted: string, getMeOk: bool, code: string) returns (reply: Reply)
      modifies this
      ensures (View(), reply) == DoTelegramToken(old(View()), pasted, getMeOk, code)
    {
      reply := Refused;
      if state.stage != Providers {
        return;
      }
      var token := WithoutSpaces(pasted);
      if !IsBotToken(token) || !getMeOk {
        return;
      }
      var (error, written) := Update(env, directoryExists, [("TELEGRAM_BOT_TOKEN", token)]);
      if error.Some? {
        return;
      }
      env := written;
      state := state.(challenge := "ORC-" + code);
      minted := minted + 1;
      reply := Accepted;
    }

    method PostTelegramDiscover(raw: string, answer: Discovery, now: int) returns (reply: Reply)
      modifies this
      ensures (View(), reply) == Handle(old(View()), hash, TelegramDiscover(raw, answer), now)
    {
      reply := Gate(View(), hash, raw, now);
      if reply != Accepted {
        return;
      }
      reply := Discover(answer);
    }

    method Discover(answer: Discovery) returns (reply: Reply)
      modifies this
      ensures (View(), reply) == DoDiscover(old(View()), answer)
    {
      reply := Refused;
      if state.stage != Providers {
        return;
      }
      if BotToken(env) == "" || state.challenge == "" || answer.Failed? {
        return;
      }
      if answer.NothingYet? {
        return Accepted;
      }
      if answer.userId == "" {
        return;
      }
      var (error, written) := Update(env, directoryExists, ChatUpdates(answer.chatId, answer.userId));
      if error.Some? {
        return;
      }
      env := written;
      state := state.(challenge := "");
      state := state.(providers := state.providers["telegram" := "connected"]);
      matched := matched + 1;
      reply := Accepted;
    }

    method GetPage(raw: string, newRaw: string, ttl: int, now: int) returns (reply: Reply)
      modifies this
      ensures (View(), reply) == Handle(old(View()), hash, OpenPage(raw, newRaw, ttl), now)
    {
      if Complete(state) {
        return Closed;
      }
      if Verify(tokens, hash, raw, now).None? {
        return Refused;
      }
      var ok := IssueToken(newRaw, now, ttl);
      reply := if ok then Accepted else Refused;
    }

    method RunSetupCommand(reopen: bool, newRaw: string, ttl: int, now: int) returns (reply: Reply)
      modifies this
      ensures (View(), reply) == Handle(old(View()), hash, SetupCommand(reopen, newRaw, ttl), now)
    {
      if Complete(state) {
        if !reopen {
          return Refused;
        }
        state := Reopened(state);
      }
      var ok := IssueToken(newRaw, now, ttl);
      reply := if ok then Accepted else Refused;
    }
  }
}
