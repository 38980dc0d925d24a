/** What every sequence of requests keeps. */
module SetupSafety {
  import opened Wrappers
  import opened EnvWriter
  import opened EnvRoundTrip
  import opened PyText
  import opened Setup

  ghost predicate StageMatchesCompletion(s: State) {
    && (s.stage == Finished <==> Complete(s))
    && (s.stage != Providers ==> AnyConnected(s))
  }

  ghost predicate OneLiveToken(w: Wizard) {
    && (forall i, j | 0 <= i < j < |w.tokens| :: w.tokens[i].consumedAt.Some? || w.tokens[j].consumedAt.Some?)
    && (forall i, j | 0 <= i < j < |w.tokens| :: w.tokens[i].hash != w.tokens[j].hash)
    && (Complete(w.state) ==> forall i | 0 <= i < |w.tokens| :: w.tokens[i].consumedAt.Some?)
  }

  // Everything the bot needs to serve exactly one chat.
  ghost predicate Serves(values: map<string, string>) {
    && Get(values, "TELEGRAM_BOT_TOKEN") != ""
    && Get(values, "TELEGRAM_ALLOWED_CHAT_IDS") != ""
    && Get(values, "ORC_MESSAGING_PLATFORM") == "telegram"
    && "TELEGRAM_FORUM_CHAT_ID" in values && "ORC_PROMPT_CHAT_ID" in values
    && values["TELEGRAM_FORUM_CHAT_ID"] == values["ORC_PROMPT_CHAT_ID"]
  }

  ghost predicate EnvServesTelegram(env: Option<string>) {
    Serves(ReadEnv(env))
  }

  predicate TelegramConnected(s: State) {
    "telegram" in s.providers && s.providers["telegram"] == "connected"
  }

  ghost predicate Sound(w: Wizard) {
    && StageMatchesCompletion(w.state)
    && OneLiveToken(w)
    && (TelegramConnected(w.state) ==> EnvServesTelegram(w.env))
    && w.matched + (if w.state.challenge != "" then 1 else 0) <= w.minted
  }

  // ---------- The env file ----------

  lemma OneUpdate(key: string, value: string)
    ensures Distinct([(key, value)]) && ToMap([(key, value)]) == map[key := value]
  {
    var updates := [(key, value)];
    LookupIsUnique(updates, 0);
    forall k | k in Keys(updates) ensures k == key { }
  }

  lemma FourKeys(chatId: string, userId: string)
    ensures Keys(ChatUpdates(chatId, userId)) == ChatMap(chatId, userId).Keys
  {
    var updates := ChatUpdates(chatId, userId);
    assert updates[0].0 in Keys(updates) && updates[1].0 in Keys(updates)
           && updates[2].0 in Keys(updates) && updates[3].0 in Keys(updates);
    forall k | k in Keys(updates) ensures k in ChatMap(chatId, userId) {
      var i :| 0 <= i < 4 && updates[i].0 == k;
    }
  }

  lemma FourLookups(chatId: string, userId: string, key: string)
    requires key in Keys(ChatUpdates(chatId, userId)) && key in ChatMap(chatId, userId)
    ensures Lookup(ChatUpdates(chatId, userId), key) == ChatMap(chatId, userId)[key]
  {
    var updates := ChatUpdates(chatId, userId);
    FourKeysDiffer(chatId, userId);
    var i :| 0 <= i < 4 && updates[i].0 == key;
    LookupIsUnique(updates, i);
  }

  lemma FourUpdates(chatId: string, userId: string)
    ensures Distinct(ChatUpdates(chatId, userId))
    ensures ToMap(ChatUpdates(chatId, userId)) == ChatMap(chatId, userId)
  {
    FourKeysDiffer(chatId, userId);
    FourKeys(chatId, userId);
    forall key | key in Keys(ChatUpdates(chatId, userId))
      ensures Lookup(ChatUpdates(chatId, userId), key) == ChatMap(chatId, userId)[key]
    {
      FourLookups(chatId, userId, key);
    }
  }

  lemma FourKeysDiffer(chatId: string, userId: string)
    ensures Distinct(ChatUpdates(chatId, userId))
  {
  }

  lemma BotTokenIsWritten(env: Option<string>, directoryExists: bool, token: string)
    ensures var (error, env') := Update(env, directoryExists, [("TELEGRAM_BOT_TOKEN", token)]);
            error.None? ==> ReadEnv(env') == ReadEnv(env) + map["TELEGRAM_BOT_TOKEN" := token]
  {
    OneUpdate("TELEGRAM_BOT_TOKEN", token);
    UpdateThenRead(env, directoryExists, [("TELEGRAM_BOT_TOKEN", token)]);
  }

  function ChatMap(chatId: string, userId: string): map<string, string> {
    map["TELEGRAM_FORUM_CHAT_ID" := chatId, "ORC_PROMPT_CHAT_ID" := chatId,
        "ORC_MESSAGING_PLATFORM" := "telegram", "TELEGRAM_ALLOWED_CHAT_IDS" := userId]
  }

  lemma ChatIsWritten(env: Option<string>, directoryExists: bool, chatId: string, userId: string)
    ensures var (error, env') := Update(env, directoryExists, ChatUpdates(chatId, userId));
            error.None? ==> ReadEnv(env') == ReadEnv(env) + ChatMap(chatId, userId)
  {
    FourUpdates(chatId, userId);
    UpdateThenRead(env, directoryExists, ChatUpdates(chatId, userId));
  }

  lemma StillServes(values: map<string, string>, token: string)
    requires Serves(values) && token != ""
    ensures Serves(values + map["TELEGRAM_BOT_TOKEN" := token])
  {
  }

  lemma NowServes(values: map<string, string>, chatId: string, userId: string)
    requires Get(values, "TELEGRAM_BOT_TOKEN") != "" && userId != ""
    ensures Serves(values + ChatMap(chatId, userId))
  {
  }

  // ---------- Tokens ----------

  lemma IssueLeavesOne(w: Wizard, h: Hash, raw: string, now: int, ttl: int, s: State)
    requires OneLiveToken(w) && !Complete(s)
    ensures match Issue(w.tokens, h, raw, now, ttl)
            case None => true
            case Some(tokens) => OneLiveToken(w.(tokens := tokens, state := s))
  {
  }

  // ---------- Every request ----------

  lemma AdvanceIsSound(w: Wizard, stage: Stage, now: int)
    requires Sound(w) && !Complete(w.state)
    ensures Sound(DoAdvance(w, stage, now).0)
  {
  }

  lemma CompleteIsSound(w: Wizard, h: Hash, raw: string, now: int)
    requires Sound(w) && Verify(w.tokens, h, raw, now).Some?
    ensures Sound(DoComplete(w, Verify(w.tokens, h, raw, now).value, now).0)
  {
  }

  lemma TelegramTokenIsSound(w: Wizard, pasted: string, getMeOk: bool, code: string)
    requires Sound(w)
    ensures Sound(DoTelegramToken(w, pasted, getMeOk, code).0)
  {
    var token := WithoutSpaces(pasted);
    BotTokenIsWritten(w.env, w.directoryExists, token);
    if IsBotToken(token) && TelegramConnected(w.state) {
      StillServes(ReadEnv(w.env), token);
    }
  }

  lemma DiscoverIsSound(w: Wizard, answer: Discovery)
    requires Sound(w)
    ensures Sound(DoDiscover(w, answer).0)
  {
    if answer.Found? && BotToken(w.env) != "" && answer.userId != "" {
      ChatIsWritten(w.env, w.directoryExists, answer.chatId, answer.userId);
      NowServes(ReadEnv(w.env), answer.chatId, answer.userId);
    }
    var w' := DoDiscover(w, answer).0;
    assert TelegramConnected(w'.state) ==> AnyConnected(w'.state);
  }

  lemma PageIsSound(w: Wizard, h: Hash, raw: string, minted: string, ttl: int, now: int)
    requires Sound(w)
    ensures Sound(DoOpenPage(w, h, raw, minted, ttl, now).0)
  {
    if !Complete(w.state) {
      IssueLeavesOne(w, h, minted, now, ttl, w.state);
    }
  }

  lemma CommandIsSound(w: Wizard, h: Hash, reopen: bool, minted: string, ttl: int, now: int)
    requires Sound(w)
    ensures Sound(DoSetupCommand(w, h, reopen, minted, ttl, now).0)
  {
    IssueLeavesOne(w, h, minted, now, ttl, if Complete(w.state) then Reopened(w.state) else w.state);
  }

  lemma HandleIsSound(w: Wizard, h: Hash, request: Request, now: int)
    requires Sound(w)
    ensures Sound(Handle(w, h, request, now).0)
  {
    match request {
      case Advance(raw, stage) =>
        if Gate(w, h, raw, now) == Accepted { AdvanceIsSound(w, stage, now); }
      case CompleteSetup(raw) =>
        if Gate(w, h, raw, now) == Accepted { CompleteIsSound(w, h, raw, now); }
      case TelegramToken(raw, pasted, getMeOk, code) => TelegramTokenIsSound(w, pasted, getMeOk, code);
      case TelegramDiscover(raw, answer) => DiscoverIsSound(w, answer);
      case OpenPage(raw, minted, ttl) => PageIsSound(w, h, raw, minted, ttl, now);
      case SetupCommand(reopen, minted, ttl) => CommandIsSound(w, h, reopen, minted, ttl, now);
    }
  }

  function Fresh(env: Option<string>, directoryExists: bool): Wizard {
    Wizard(State(Providers, None, map[], ""), [], env, directoryExists, 0, 0)
  }

  lemma {:induction false} RunIsSound(w: Wizard, h: Hash, requests: seq<(Request, int)>)
    requires Sound(w)
    ensures Sound(Run(w, h, requests))
  {
    if requests != [] {
      var n := |requests| - 1;
      RunIsSound(w, h, requests[..n]);
      HandleIsSound(Run(w, h, requests[..n]), h, requests[n].0, requests[n].1);
    }
  }

  // ---------- Main results ----------

  // In every state reachable by requests and reopening, from any env file: setup
  // is at its last stage exactly when completed; at most one token is unconsumed,
  // none once complete; past the first stage some provider is connected; telegram
  // is connected only over an env file that can serve it; and no more discoveries
  // succeeded than challenges were issued.
  lemma SetupInvariant(env: Option<string>, directoryExists: bool, h: Hash, requests: seq<(Request, int)>)
    ensures var w := Run(Fresh(env, directoryExists), h, requests);
            && (w.state.stage == Finished <==> Complete(w.state))
            && (forall i, j | 0 <= i < j < |w.tokens| :: w.tokens[i].consumedAt.Some? || w.tokens[j].consumedAt.Some?)
            && (Complete(w.state) ==> forall i | 0 <= i < |w.tokens| :: w.tokens[i].consumedAt.Some?)
            && (w.state.stage != Providers ==> AnyConnected(w.state))
            && (TelegramConnected(w.state) ==> EnvServesTelegram(w.env))
            && w.matched <= w.minted
  {
    RunIsSound(Fresh(env, directoryExists), h, requests);
  }

  // Token rows are kept, with their hash, and a consumed one stays consumed.
  ghost predicate TokensKept(before: seq<Token>, after: seq<Token>) {
    && |before| <= |after|
    && forall i | 0 <= i < |before| ::
         after[i].hash == before[i].hash && (before[i].consumedAt.Some? ==> after[i].consumedAt == before[i].consumedAt)
  }

  lemma IssueKeepsTokens(tokens: seq<Token>, h: Hash, raw: string, now: int, ttl: int)
    ensures match Issue(tokens, h, raw, now, ttl) case None => true case Some(after) => TokensKept(tokens, after)
  {
  }

  lemma HandleKeepsTokens(w: Wizard, h: Hash, request: Request, now: int)
    ensures TokensKept(w.tokens, Handle(w, h, request, now).0.tokens)
  {
    match request {
      case OpenPage(_, minted, ttl) => IssueKeepsTokens(w.tokens, h, minted, now, ttl);
      case SetupCommand(_, minted, ttl) => IssueKeepsTokens(w.tokens, h, minted, now, ttl);
      case _ =>
    }
  }

  lemma {:induction false} RunKeepsTokens(w: Wizard, h: Hash, requests: seq<(Request, int)>)
    ensures TokensKept(w.tokens, Run(w, h, requests).tokens)
  {
    if requests != [] {
      var n := |requests| - 1;
      RunKeepsTokens(w, h, requests[..n]);
      HandleKeepsTokens(Run(w, h, requests[..n]), h, requests[n].0, requests[n].1);
    }
  }

  lemma ConsumedIsRefused(tokens: seq<Token>, h: Hash, raw: string, i: nat, now: int)
    requires i < |tokens| && tokens[i].hash == h(raw) && tokens[i].consumedAt.Some?
    requires forall a, b | 0 <= a < b < |tokens| :: tokens[a].hash != tokens[b].hash
    ensures Verify(tokens, h, raw, now).None?
  {
    assert FindHash(tokens, h(raw)) == i;
  }

  // A token that opened the page or completed setup opens nothing ever again,
  // whatever is requested in between.
  lemma TokensAreSingleUse(w: Wizard, h: Hash, request: Request, now: int, later: seq<(Request, int)>, at: int)
    requires Sound(w) && (request.OpenPage? || request.CompleteSetup?)
    requires Handle(w, h, request, now).1 == Accepted
    ensures Verify(Run(Handle(w, h, request, now).0, h, later).tokens, h, request.raw, at).None?
  {
    var w1 := Handle(w, h, request, now).0;
    var w2 := Run(w1, h, later);
    var i := Verify(w.tokens, h, request.raw, now).value;
    HandleIsSound(w, h, request, now);
    RunIsSound(w1, h, later);
    RunKeepsTokens(w1, h, later);
    assert w1.tokens[i].hash == h(request.raw) && w1.tokens[i].consumedAt.Some?;
    assert w2.tokens[i].hash == h(request.raw) && w2.tokens[i].consumedAt.Some?;
    ConsumedIsRefused(w2.tokens, h, request.raw, i, at);
  }

  function Allowlist(env: Option<string>): string {
    Get(ReadEnv(env), "TELEGRAM_ALLOWED_CHAT_IDS")
  }

  lemma TokenKeepsAllowlist(w: Wizard, pasted: string, getMeOk: bool, code: string)
    ensures Allowlist(DoTelegramToken(w, pasted, getMeOk, code).0.env) == Allowlist(w.env)
  {
    BotTokenIsWritten(w.env, w.directoryExists, WithoutSpaces(pasted));
  }

  lemma DiscoveryWritesAllowlist(w: Wizard, answer: Discovery)
    ensures var w' := DoDiscover(w, answer).0;
            w'.env != w.env ==>
              && answer.Found? && w.state.stage == Providers && w.state.challenge != ""
              && w'.state.challenge == "" && Allowlist(w'.env) == answer.userId
  {
    if answer.Found? {
      ChatIsWritten(w.env, w.directoryExists, answer.chatId, answer.userId);
    }
  }

  lemma OthersKeepEnv(w: Wizard, h: Hash, request: Request, now: int)
    requires !request.TelegramToken? && !request.TelegramDiscover?
    ensures Handle(w, h, request, now).0.env == w.env
  {
  }

  // The allowlist changes only by a discovery that was let through with a live
  // token, at the first stage, with a challenge outstanding, which it uses up.
  lemma OnlyDiscoveryWritesTheAllowlist(w: Wizard, h: Hash, request: Request, now: int)
    ensures var w' := Handle(w, h, request, now).0;
            Allowlist(w'.env) != Allowlist(w.env) ==>
              && request.TelegramDiscover? && request.answer.Found?
              && Gate(w, h, request.raw, now) == Accepted && w.state.stage == Providers && w.state.challenge != ""
              && w'.state.challenge == "" && Allowlist(w'.env) == request.answer.userId
  {
    if request.TelegramToken? {
      TokenKeepsAllowlist(w, request.pasted, request.getMeOk, request.code);
    } else if request.TelegramDiscover? {
      DiscoveryWritesAllowlist(w, request.answer);
    } else {
      OthersKeepEnv(w, h, request, now);
    }
  }

  // Once complete, nothing sent over the network changes anything; only the
  // operator's reopening does, and it clears what was connected.
  lemma CompleteIsClosed(w: Wizard, h: Hash, request: Request, now: int)
    requires Sound(w) && Complete(w.state)
    ensures !(request.SetupCommand? && request.reopen) ==> Handle(w, h, request, now).0 == w
    ensures request.SetupCommand? && request.reopen ==> Handle(w, h, request, now).0.state == State(Providers, None, map[], "")
  {
  }

  function Place(stage: Stage): nat {
    match stage
    case Providers => 0
    case Runtimes => 1
    case Finished => 2
  }

  // Any request moves the wizard by one stage at most, except reopening. The last
  // one is reached only by completing, with a live token that it consumes.
  lemma OneStageAtATime(w: Wizard, h: Hash, request: Request, now: int)
    requires StageMatchesCompletion(w.state)
    ensures var w' := Handle(w, h, request, now).0;
            && (!request.SetupCommand? ==> Place(w'.state.stage) <= Place(w.state.stage) + 1 <= Place(w'.state.stage) + 2)
            && (request.SetupCommand? ==> w'.state == w.state || (request.reopen && Complete(w.state) && w'.state.stage == Providers))
            && (Complete(w'.state) && !Complete(w.state) ==>
                  && request.CompleteSetup? && w.state.stage == Runtimes
                  && Verify(w.tokens, h, request.raw, now).Some?
                  && w'.tokens[Verify(w.tokens, h, request.raw, now).value].consumedAt == Some(now))
  {
  }
}
