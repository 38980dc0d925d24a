/** What each request does once it is let past the gate. */
module SetupEffects {
  import opened Wrappers
  import opened Subsequence
  import opened PyText
  import opened EnvWriter
  import opened EnvRoundTrip
  import opened Setup
  import opened SetupSafety

  // ---------- Moving between stages ----------

  predicate SomeProviderConnected(s: State) {
    exists key | key in s.providers :: s.providers[key] == "connected"
  }

  // One stage on, if a provider is connected, or back to the first; never to the last.
  lemma AdvanceDoes(w: Wizard, h: Hash, raw: string, stage: Stage, now: int)
    requires Gate(w, h, raw, now) == Accepted
    ensures var (w', reply) := Handle(w, h, Advance(raw, stage), now);
            && (reply == Accepted <==> || (w.state.stage.Providers? && stage.Runtimes? && SomeProviderConnected(w.state))
                                       || (w.state.stage.Runtimes? && stage.Providers?))
            && w' == if reply == Accepted then w.(state := w.state.(stage := stage)) else w
  {
  }

  // From the stage before the last, and only from there: the last stage, the time,
  // and a token used up.
  lemma CompleteDoes(w: Wizard, h: Hash, raw: string, now: int)
    requires Sound(w) && Gate(w, h, raw, now) == Accepted
    ensures var (w', reply) := Handle(w, h, CompleteSetup(raw), now);
            && (reply == Accepted <==> w.state.stage.Runtimes?)
            && (reply != Accepted ==> w' == w)
            && (reply == Accepted ==>
                  && w'.state == w.state.(stage := Finished, completedAt := Some(now))
                  && w'.env == w.env
                  && forall i | 0 <= i < |w'.tokens| :: w'.tokens[i].consumedAt.Some?)
  {
    CompleteIsSound(w, h, raw, now);
  }

  // ---------- Bot tokens ----------

  // A number, a colon, and ten or more letters, digits, underscores and hyphens.
  predicate TokenParts(s: string, a: string, b: string) {
    && s == a + ":" + b && a != "" && |b| >= 10
    && (forall i | 0 <= i < |a| :: '0' <= a[i] <= '9')
    && (forall i | 0 <= i < |b| ::
          '0' <= b[i] <= '9' || 'A' <= b[i] <= 'Z' || 'a' <= b[i] <= 'z' || b[i] == '_' || b[i] == '-')
  }

  ghost predicate LooksLikeBotToken(s: string) {
    exists a, b :: TokenParts(s, a, b)
  }

  lemma BotTokenHasParts(s: string)
    requires IsBotToken(s)
    ensures LooksLikeBotToken(s)
  {
    var n := Find(s, ':');
    var a, b := s[..n], s[n + 1..];
    assert s == a + ":" + b;
    assert forall i | 0 <= i < |a| :: a[i] == s[i];
    assert forall i | 0 <= i < |b| :: IsSecretChar(s[n + 1 + i]) && b[i] == s[n + 1 + i];
    assert TokenParts(s, a, b);
  }

  lemma PartsAreBotToken(s: string, a: string, b: string)
    requires TokenParts(s, a, b)
    ensures IsBotToken(s)
  {
    assert ':' !in a;
    FindAfter(a, ':', b);
    assert forall i | 0 <= i < |a| :: s[i] == a[i];
    assert forall i | |a| < i < |s| :: s[i] == b[i - |a| - 1];
  }

  lemma BotTokenShape(s: string)
    ensures IsBotToken(s) <==> LooksLikeBotToken(s)
  {
    if IsBotToken(s) { BotTokenHasParts(s); }
    if LooksLikeBotToken(s) {
      var a, b :| TokenParts(s, a, b);
      PartsAreBotToken(s, a, b);
    }
  }

  // Exactly the whitespace is left out, the order kept.
  lemma {:induction false} WithoutSpacesIs(s: string)
    ensures Among(WithoutSpaces(s), s)
    ensures forall c :: multiset(WithoutSpaces(s))[c] == if IsSpace(c) then 0 else multiset(s)[c]
  {
    if s != "" {
      var first, rest := [s[0]], s[1..];
      WithoutSpacesIs(rest);
      assert s == first + rest;
      if IsSpace(s[0]) {
        AmongConcat([], first, WithoutSpaces(rest), rest);
        assert [] + WithoutSpaces(rest) == WithoutSpaces(rest);
      } else {
        AmongItself(first);
        AmongConcat(first, first, WithoutSpaces(rest), rest);
      }
    }
  }

  predicate MayBeWritten(value: string) {
    OneLine(value) && forall i | 0 <= i < |value| :: value[i] !in {'\0', '\'', '\\'}
  }

  lemma KeyWithValue(key: string, value: string)
    requires key in WRITABLE_KEYS
    ensures Writable(key, value) <==> MayBeWritten(value)
  {
    AcceptedKeys(key);
    AcceptedValues(value);
  }

  lemma BotTokenChars(token: string)
    requires IsBotToken(token)
    ensures MayBeWritten(token)
  {
    var n := Find(token, ':');
    forall i | 0 <= i < |token| ensures IsSecretChar(token[i]) || token[i] == ':' { assert i < n || i == n || n < i; }
  }

  lemma BotTokenIsStored(env: Option<string>, directoryExists: bool, token: string)
    requires IsBotToken(token)
    ensures var (error, env') := Update(env, directoryExists, [("TELEGRAM_BOT_TOKEN", token)]);
            && (error.None? <==> directoryExists)
            && (error.None? ==> ReadEnv(env') == ReadEnv(env)["TELEGRAM_BOT_TOKEN" := token])
  {
    BotTokenChars(token);
    KeyWithValue("TELEGRAM_BOT_TOKEN", token);
    OneUpdate("TELEGRAM_BOT_TOKEN", token);
    UpdateThenRead(env, directoryExists, [("TELEGRAM_BOT_TOKEN", token)]);
  }

  // What the request does with a token that may be stored.
  lemma StoringDoes(w: Wizard, token: string, pasted: string, getMeOk: bool, code: string)
    requires token == WithoutSpaces(pasted)
    ensures var (w', reply) := DoTelegramToken(w, pasted, getMeOk, code);
            var (error, env) := Update(w.env, w.directoryExists, [("TELEGRAM_BOT_TOKEN", token)]);
            && (reply == Accepted <==> w.state.stage.Providers? && IsBotToken(token) && getMeOk && error.None?)
            && (reply != Accepted ==> w' == w)
            && (reply == Accepted ==> w'.env == env && w'.state == w.state.(challenge := "ORC-" + code) && w'.tokens == w.tokens)
  {
  }

  // Stored, with a fresh challenge, when it looks like a token, Telegram knows it and
  // the file can be written; else nothing changes.
  lemma TelegramTokenDoes(w: Wizard, h: Hash, raw: string, pasted: string, getMeOk: bool, code: string, now: int)
    requires Gate(w, h, raw, now) == Accepted
    ensures var (w', reply) := Handle(w, h, TelegramToken(raw, pasted, getMeOk, code), now);
            && (reply == Accepted <==> w.state.stage.Providers? && LooksLikeBotToken(WithoutSpaces(pasted)) && getMeOk && w.directoryExists)
            && (reply != Accepted ==> w' == w)
            && (reply == Accepted ==>
                  && ReadEnv(w'.env) == ReadEnv(w.env)["TELEGRAM_BOT_TOKEN" := WithoutSpaces(pasted)]
                  && w'.state == w.state.(challenge := "ORC-" + code)
                  && w'.tokens == w.tokens)
  {
    var token := WithoutSpaces(pasted);
    BotTokenShape(token);
    StoringDoes(w, token, pasted, getMeOk, code);
    if IsBotToken(token) { BotTokenIsStored(w.env, w.directoryExists, token); }
  }

  // ---------- Discovery ----------

  // The chat found and its sender, to be written.
  predicate Usable(w: Wizard, answer: Discovery) {
    answer.Found? && answer.userId != "" && MayBeWritten(answer.chatId) && MayBeWritten(answer.userId) && w.directoryExists
  }

  lemma OneEntry(key: string, value: string, rest: Dict)
    requires Writable(key, value) <==> MayBeWritten(value)
    ensures DictError([(key, value)] + rest).None? <==> MayBeWritten(value) && DictError(rest).None?
  {
    var all := [(key, value)] + rest;
    assert all[0] == (key, value) && all[1..] == rest;
  }

  lemma FourEntries(chatId: string, userId: string)
    ensures ChatUpdates(chatId, userId) ==
            [("TELEGRAM_FORUM_CHAT_ID", chatId)] + ([("ORC_PROMPT_CHAT_ID", chatId)] +
            ([("ORC_MESSAGING_PLATFORM", "telegram")] + ([("TELEGRAM_ALLOWED_CHAT_IDS", userId)] + [])))
  {
  }

  lemma PlatformMayBeWritten()
    ensures MayBeWritten("telegram")
  {
  }

  lemma FourWritable(chatId: string, userId: string)
    ensures DictError(ChatUpdates(chatId, userId)).None? <==> MayBeWritten(chatId) && MayBeWritten(userId)
  {
    var last: Dict := [("TELEGRAM_ALLOWED_CHAT_IDS", userId)] + [];
    var third, second := [("ORC_MESSAGING_PLATFORM", "telegram")] + last,
                         [("ORC_PROMPT_CHAT_ID", chatId)] + ([("ORC_MESSAGING_PLATFORM", "telegram")] + last);
    KeyWithValue("TELEGRAM_FORUM_CHAT_ID", chatId);
    KeyWithValue("ORC_PROMPT_CHAT_ID", chatId);
    KeyWithValue("ORC_MESSAGING_PLATFORM", "telegram");
    KeyWithValue("TELEGRAM_ALLOWED_CHAT_IDS", userId);
    PlatformMayBeWritten();
    FourEntries(chatId, userId);
    OneEntry("TELEGRAM_ALLOWED_CHAT_IDS", userId, []);
    OneEntry("ORC_MESSAGING_PLATFORM", "telegram", last);
    OneEntry("ORC_PROMPT_CHAT_ID", chatId, third);
    OneEntry("TELEGRAM_FORUM_CHAT_ID", chatId, second);
  }

  // With a bot token on file and a challenge outstanding: a chat found is written
  // with its sender as the only one allowed, the challenge is used up and Telegram
  // connected; nothing found changes nothing and is no failure.
  lemma DiscoverDoes(w: Wizard, h: Hash, raw: string, answer: Discovery, now: int)
    requires Gate(w, h, raw, now) == Accepted
    ensures var (w', reply) := Handle(w, h, TelegramDiscover(raw, answer), now);
            var values := ReadEnv(w.env);
            var ready := w.state.stage.Providers? && "TELEGRAM_BOT_TOKEN" in values && values["TELEGRAM_BOT_TOKEN"] != "" && w.state.challenge != "";
            && (reply == Accepted <==> ready && (answer.NothingYet? || Usable(w, answer)))
            && (reply != Accepted || answer.NothingYet? ==> w' == w)
            && (reply == Accepted && answer.Found? ==>
                  && ReadEnv(w'.env) == values["TELEGRAM_FORUM_CHAT_ID" := answer.chatId]["ORC_PROMPT_CHAT_ID" := answer.chatId]
                                              ["ORC_MESSAGING_PLATFORM" := "telegram"]["TELEGRAM_ALLOWED_CHAT_IDS" := answer.userId]
                  && w'.state == w.state.(challenge := "", providers := w.state.providers["telegram" := "connected"])
                  && w'.tokens == w.tokens)
  {
    if answer.Found? {
      FourWritable(answer.chatId, answer.userId);
      ChatIsWritten(w.env, w.directoryExists, answer.chatId, answer.userId);
      FourOver(ReadEnv(w.env), answer.chatId, answer.userId);
    }
  }

  lemma FourOver(values: map<string, string>, chatId: string, userId: string)
    ensures values + ChatMap(chatId, userId) ==
            values["TELEGRAM_FORUM_CHAT_ID" := chatId]["ORC_PROMPT_CHAT_ID" := chatId]
                  ["ORC_MESSAGING_PLATFORM" := "telegram"]["TELEGRAM_ALLOWED_CHAT_IDS" := userId]
  {
  }

  // ---------- Tokens for the page ----------

  predicate HashIsFree(tokens: seq<Token>, hash: string) {
    forall i | 0 <= i < |tokens| :: tokens[i].hash != hash
  }

  // Every row is used up, and the new one lives for its time.
  ghost predicate Reissued(before: seq<Token>, after: seq<Token>, hash: string, expires: int) {
    && |after| == |before| + 1 && after[|before|] == Token(hash, expires, None)
    && forall i | 0 <= i < |before| ::
         after[i].hash == before[i].hash && after[i].consumedAt.Some?
         && (before[i].consumedAt.Some? ==> after[i].consumedAt == before[i].consumedAt)
  }

  lemma OpenPageDoes(w: Wizard, h: Hash, raw: string, minted: string, ttl: int, now: int)
    requires Gate(w, h, raw, now) == Accepted
    ensures var (w', reply) := Handle(w, h, OpenPage(raw, minted, ttl), now);
            && (reply == Accepted <==> HashIsFree(w.tokens, h(minted)))
            && (reply != Accepted ==> w' == w)
            && (reply == Accepted ==> Reissued(w.tokens, w'.tokens, h(minted), now + ttl) && w' == w.(tokens := w'.tokens))
  {
  }

  // The operator's command needs no token; it reopens a completed setup only when told to.
  lemma SetupCommandDoes(w: Wizard, h: Hash, reopen: bool, minted: string, ttl: int, now: int)
    ensures var (w', reply) := Handle(w, h, SetupCommand(reopen, minted, ttl), now);
            && (reply == Accepted <==> (w.state.completedAt.None? || reopen) && HashIsFree(w.tokens, h(minted)))
            && (reply == Accepted ==> Reissued(w.tokens, w'.tokens, h(minted), now + ttl))
            && (reply != Accepted ==> w'.tokens == w.tokens)
            && w'.state == (if w.state.completedAt.Some? && reopen then State(Providers, None, map[], "") else w.state)
            && w'.env == w.env
  {
  }
}
