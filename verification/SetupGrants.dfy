/**
 Who is let through the wizard's gate, told from the history of requests and
 replies, without the token rows.
 */
module SetupGrants {
  import opened Wrappers
  import opened EnvWriter
  import opened EnvRoundTrip
  import opened PyText
  import opened Setup
  import opened SetupSafety

  // What the last token issued lets in, until it expires.
  datatype Grant = Grant(hash: string, expires: int)

  function RunFresh(env: Option<string>, directoryExists: bool, h: Hash, requests: seq<(Request, int)>): Wizard {
    Run(Fresh(env, directoryExists), h, requests)
  }

  // The last token issued, unless setup was completed with it since.
  function LastGrant(env: Option<string>, directoryExists: bool, h: Hash, requests: seq<(Request, int)>): Option<Grant> {
    if requests == [] then None
    else
      var n := |requests| - 1;
      var (request, now) := requests[n];
      GrantAfter(LastGrant(env, directoryExists, h, requests[..n]), h, request, now,
                 Handle(RunFresh(env, directoryExists, h, requests[..n]), h, request, now).1)
  }

  function GrantAfter(before: Option<Grant>, h: Hash, request: Request, now: int, reply: Reply): Option<Grant> {
    if reply != Accepted then before
    else match request
      case OpenPage(_, minted, ttl) => Some(Grant(h(minted), now + ttl))
      case SetupCommand(_, minted, ttl) => Some(Grant(h(minted), now + ttl))
      case CompleteSetup(_) => None
      case _ => before
  }

  predicate LetsIn(grant: Option<Grant>, h: Hash, raw: string, now: int) {
    raw != "" && grant.Some? && grant.value.hash == h(raw) && now < grant.value.expires
  }

  // The newest token row stands for the grant, every other is consumed.
  ghost predicate Fits(w: Wizard, grant: Option<Grant>) {
    && Sound(w)
    && (forall i | 0 <= i < |w.tokens| - 1 :: w.tokens[i].consumedAt.Some?)
    && (grant.None? ==> forall i | 0 <= i < |w.tokens| :: w.tokens[i].consumedAt.Some?)
    && (grant.Some? ==>
          && w.tokens != [] && w.tokens[|w.tokens| - 1] == Token(grant.value.hash, grant.value.expires, None)
          && !Complete(w.state))
  }

  lemma VerifiesExactly(w: Wizard, grant: Option<Grant>, h: Hash, raw: string, now: int)
    requires Fits(w, grant)
    ensures Verify(w.tokens, h, raw, now).Some? <==> LetsIn(grant, h, raw, now)
    ensures Verify(w.tokens, h, raw, now).Some? ==> Verify(w.tokens, h, raw, now).value == |w.tokens| - 1
  {
    var i := FindHash(w.tokens, h(raw));
    if grant.Some? && grant.value.hash == h(raw) {
      assert i == |w.tokens| - 1;
    }
  }

  lemma IssueFits(w: Wizard, grant: Option<Grant>, h: Hash, minted: string, now: int, ttl: int, w': Wizard)
    requires Fits(w, grant) && Sound(w') && !Complete(w'.state)
    requires Issue(w.tokens, h, minted, now, ttl) == Some(w'.tokens)
    ensures Fits(w', Some(Grant(h(minted), now + ttl)))
  {
  }

  lemma CompleteFits(w: Wizard, grant: Option<Grant>, h: Hash, raw: string, now: int)
    requires Fits(w, grant) && Verify(w.tokens, h, raw, now).Some?
    ensures var (w', reply) := DoComplete(w, Verify(w.tokens, h, raw, now).value, now);
            Fits(w', if reply == Accepted then None else grant)
  {
    VerifiesExactly(w, grant, h, raw, now);
    CompleteIsSound(w, h, raw, now);
  }

  // The tokens stay, and setup does not become complete.
  lemma StillFits(w: Wizard, w': Wizard, grant: Option<Grant>)
    requires Fits(w, grant) && Sound(w') && w'.tokens == w.tokens
    requires Complete(w'.state) ==> Complete(w.state)
    ensures Fits(w', grant)
  {
  }

  lemma CompleteRequestFits(w: Wizard, grant: Option<Grant>, h: Hash, raw: string, now: int)
    requires Fits(w, grant)
    ensures var (w', reply) := Handle(w, h, CompleteSetup(raw), now); Fits(w', GrantAfter(grant, h, CompleteSetup(raw), now, reply))
  {
    if Gate(w, h, raw, now) == Accepted { CompleteFits(w, grant, h, raw, now); }
  }

  lemma OpenPageFits(w: Wizard, grant: Option<Grant>, h: Hash, raw: string, minted: string, ttl: int, now: int)
    requires Fits(w, grant)
    ensures var (w', reply) := DoOpenPage(w, h, raw, minted, ttl, now);
            Fits(w', if reply == Accepted then Some(Grant(h(minted), now + ttl)) else grant)
  {
    var (w', reply) := DoOpenPage(w, h, raw, minted, ttl, now);
    PageIsSound(w, h, raw, minted, ttl, now);
    if reply == Accepted { IssueFits(w, grant, h, minted, now, ttl, w'); }
  }

  lemma CommandFits(w: Wizard, grant: Option<Grant>, h: Hash, reopen: bool, minted: string, ttl: int, now: int)
    requires Fits(w, grant)
    ensures var (w', reply) := DoSetupCommand(w, h, reopen, minted, ttl, now);
            Fits(w', if reply == Accepted then Some(Grant(h(minted), now + ttl)) else grant)
  {
    var (w', reply) := DoSetupCommand(w, h, reopen, minted, ttl, now);
    CommandIsSound(w, h, reopen, minted, ttl, now);
    if reply == Accepted { IssueFits(w, grant, h, minted, now, ttl, w'); } else { StillFits(w, w', grant); }
  }

  // Requests that touch no token.
  predicate KeepsTokens(request: Request) {
    request.Advance? || request.TelegramToken? || request.TelegramDiscover?
  }

  lemma OthersKeepTokens(w: Wizard, h: Hash, request: Request, now: int)
    requires KeepsTokens(request)
    ensures var w' := Handle(w, h, request, now).0;
            w'.tokens == w.tokens && (Complete(w'.state) ==> Complete(w.state))
  {
  }

  lemma HandleFits(w: Wizard, grant: Option<Grant>, h: Hash, request: Request, now: int)
    requires Fits(w, grant)
    ensures var (w', reply) := Handle(w, h, request, now); Fits(w', GrantAfter(grant, h, request, now, reply))
  {
    if KeepsTokens(request) {
      HandleIsSound(w, h, request, now);
      OthersKeepTokens(w, h, request, now);
      StillFits(w, Handle(w, h, request, now).0, grant);
    } else {
      match request {
        case CompleteSetup(raw) => CompleteRequestFits(w, grant, h, raw, now);
        case OpenPage(raw, minted, ttl) => OpenPageFits(w, grant, h, raw, minted, ttl, now);
        case SetupCommand(reopen, minted, ttl) => CommandFits(w, grant, h, reopen, minted, ttl, now);
      }
    }
  }

  lemma {:induction false} RunFits(env: Option<string>, directoryExists: bool, h: Hash, requests: seq<(Request, int)>)
    ensures Fits(RunFresh(env, directoryExists, h, requests), LastGrant(env, directoryExists, h, requests))
  {
    if requests != [] {
      var n := |requests| - 1;
      RunFits(env, directoryExists, h, requests[..n]);
      HandleFits(RunFresh(env, directoryExists, h, requests[..n]), LastGrant(env, directoryExists, h, requests[..n]),
                 h, requests[n].0, requests[n].1);
    }
  }

  // In every reachable state a request is let past the gate if and only if the
  // token it presents is not empty, is the last one issued, was not used since, and
  // has not expired. While there is such a token setup is not complete.
  lemma LetThroughExactlyByTheLastGrant(env: Option<string>, directoryExists: bool, h: Hash, requests: seq<(Request, int)>,
                                        raw: string, now: int)
    ensures var w := RunFresh(env, directoryExists, h, requests);
            var grant := LastGrant(env, directoryExists, h, requests);
            && (Gate(w, h, raw, now) == Accepted <==> LetsIn(grant, h, raw, now))
            && (Verify(w.tokens, h, raw, now).Some? <==> LetsIn(grant, h, raw, now))
            && (grant.Some? ==> w.state.completedAt.None?)
  {
    RunFits(env, directoryExists, h, requests);
    VerifiesExactly(RunFresh(env, directoryExists, h, requests), LastGrant(env, directoryExists, h, requests), h, raw, now);
  }

  // Any other request over the network is refused, or told that setup is closed
  // exactly when it is complete, and changes nothing.
  lemma OthersAreTurnedAway(env: Option<string>, directoryExists: bool, h: Hash, requests: seq<(Request, int)>,
                            request: Request, now: int)
    requires !request.SetupCommand? && !LetsIn(LastGrant(env, directoryExists, h, requests), h, request.raw, now)
    ensures var w := RunFresh(env, directoryExists, h, requests);
            Handle(w, h, request, now) == (w, if w.state.completedAt.Some? then Closed else Refused)
  {
    LetThroughExactlyByTheLastGrant(env, directoryExists, h, requests, request.raw, now);
  }

  // So in every reachable state the page opens, setup becomes complete, and the
  // allowlist changes only for a request with the last token issued, unused and in time.
  lemma OnlyTheGrantOpensCompletesOrAllows(env: Option<string>, directoryExists: bool, h: Hash, requests: seq<(Request, int)>,
                                           request: Request, now: int)
    ensures var w := RunFresh(env, directoryExists, h, requests);
            var grant := LastGrant(env, directoryExists, h, requests);
            var (w', reply) := Handle(w, h, request, now);
            && (request.OpenPage? && reply == Accepted ==> LetsIn(grant, h, request.raw, now))
            && (w.state.completedAt.None? && w'.state.completedAt.Some? ==>
                  request.CompleteSetup? && w.state.stage == Runtimes && LetsIn(grant, h, request.raw, now))
            && (Allowlist(w'.env) != Allowlist(w.env) ==>
                  && request.TelegramDiscover? && request.answer.Found? && LetsIn(grant, h, request.raw, now)
                  && w.state.stage == Providers && w.state.challenge != "" && w'.state.challenge == ""
                  && Allowlist(w'.env) == request.answer.userId)
  {
    var w := RunFresh(env, directoryExists, h, requests);
    RunFits(env, directoryExists, h, requests);
    OnlyDiscoveryWritesTheAllowlist(w, h, request, now);
    OneStageAtATime(w, h, request, now);
    if !request.SetupCommand? {
      LetThroughExactlyByTheLastGrant(env, directoryExists, h, requests, request.raw, now);
    }
  }
}
