/**
 The OpenSky client (ingestion/opensky.py): the token cache, one attempt at fetching a snapshot, and
 the retry loop. Servers, clocks and jitter are inputs.
 */
module OpenSky {
  import opened Wrappers
  import opened Clock
  import opened Reals
  import opened StateVectors

  // --- the token cache ---

  /** `expires_in` of a token response. */
  datatype Expiry = Absent | Seconds(seconds: real) | NotSeconds

  datatype TokenBody = TokenNotJson | TokenNotObject | Grant(token: string, expires: Expiry) // "" when missing

  datatype TokenReply = TokenUnreachable | TokenResponse(status: int, body: TokenBody)

  /** Tokens, or which exception. `Other` is any exception outside the client's own hierarchy. */
  datatype Error = Transient | AuthError | RateLimited | SourceError | Other

  datatype TokenResult = NoToken | Token(token: string) | TokenError(error: Error)

  const REFRESH_MARGIN: real := 60.0
  const DEFAULT_LIFETIME: real := 1800.0

  function Lifetime(e: Expiry): real { if e.Seconds? then e.seconds else DEFAULT_LIFETIME }

  /** What the token endpoint's answer amounts to. */
  function Classify(reply: TokenReply): TokenResult {
    if reply.TokenUnreachable? then TokenError(Transient)
    else if reply.status in {400, 401, 403} then TokenError(AuthError)
    else if reply.status >= 500 then TokenError(Transient)
    else match reply.body
      case TokenNotJson => TokenError(Transient)
      case TokenNotObject => TokenError(Other)
      case Grant(token, expires) =>
        if token == "" then TokenError(AuthError) else if expires.NotSeconds? then TokenError(Other) else Token(token)
  }

  datatype Cache = Cache(token: Option<string>, expiresAt: real)

  const EMPTY: Cache := Cache(None, 0.0)

  /** A request for a token: the clock, the endpoint's answer should it be asked, the clock after that. */
  datatype Ask = Ask(now: real, reply: TokenReply, later: real)

  predicate Serves(cache: Cache, now: real) { cache.token.Some? && now < cache.expiresAt }

  function Refreshed(cache: Cache, ask: Ask): Cache {
    if !Classify(ask.reply).Token? then cache
    else
      var life := Lifetime(ask.reply.body.expires) - REFRESH_MARGIN;
      Cache(Some(Classify(ask.reply).token), ask.later + if life > 0.0 then life else 0.0)
  }

  function Asked(cache: Cache, anonymous: bool, ask: Ask): Cache {
    if anonymous || Serves(cache, ask.now) then cache else Refreshed(cache, ask)
  }

  function Answer(cache: Cache, anonymous: bool, ask: Ask): TokenResult {
    if anonymous then NoToken
    else if Serves(cache, ask.now) then Token(cache.token.value)
    else Classify(ask.reply)
  }

  class TokenCache {
    const anonymous: bool
    var token: Option<string>
    var expiresAt: real

    function Current(): Cache
      reads this
    {
      Cache(token, expiresAt)
    }

    constructor (anonymous: bool)
      ensures this.anonymous == anonymous && Current() == EMPTY
    {
      this.anonymous := anonymous;
      token := None;
      expiresAt := 0.0;
    }

    method GetToken(ask: Ask) returns (result: TokenResult)
      modifies this
      ensures result == Answer(old(Current()), anonymous, ask)
      ensures Current() == Asked(old(Current()), anonymous, ask)
      ensures result.Token? ==> Current().token == Some(result.token)
      ensures !result.Token? ==> Current() == old(Current())
    {
      if anonymous {
        return NoToken;
      }
      if token.Some? && ask.now < expiresAt {
        return Token(token.value);
      }
      result := Fetch(ask);
    }

    method Fetch(ask: Ask) returns (result: TokenResult)
      modifies this
      ensures result == Classify(ask.reply) && Current() == Refreshed(old(Current()), ask)
      ensures result.Token? ==> Current().token == Some(result.token) && Current().expiresAt >= ask.later
      ensures !result.Token? ==> Current() == old(Current())
    {
      result := Classify(ask.reply);
      if result.Token? {
        token := Some(result.token);
        var life := Lifetime(ask.reply.body.expires) - REFRESH_MARGIN;
        expiresAt := ask.later + if life > 0.0 then life else 0.0;
      }
    }

    method Invalidate()
      modifies this
      ensures Current() == EMPTY
    {
      token := None;
      expiresAt := 0.0;
    }
  }

  // --- the cache over whole runs ---

  datatype CacheEvent = Request(ask: Ask) | Invalidation

  function After(events: seq<CacheEvent>): Cache {
    if events == [] then EMPTY
    else
      var before, last := After(events[..|events| - 1]), events[|events| - 1];
      if last.Request? then Asked(before, false, last.ask) else EMPTY
  }

  /** The clock never runs backwards, within a request or between requests. */
  predicate ClockOrdered(events: seq<CacheEvent>) {
    && (forall i | 0 <= i < |events| && events[i].Request? :: events[i].ask.now <= events[i].ask.later)
    && (forall i, j | 0 <= i < j < |events| && events[i].Request? && events[j].Request? ::
          events[i].ask.later <= events[j].ask.now)
  }

  /** The endpoint is really asked, and grants. */
  predicate Stores(events: seq<CacheEvent>, i: nat)
    requires i < |events|
  {
    events[i].Request? && !Serves(After(events[..i]), events[i].ask.now) && Classify(events[i].ask.reply).Token?
  }

  /** The cached token is that of the grant at `j`, and nothing has been granted or invalidated since. */
  predicate Latest(events: seq<CacheEvent>, j: nat) {
    && j < |events| && Stores(events, j)
    && (forall i | j < i < |events| :: events[i].Request? && !Stores(events, i))
  }

  /** Whatever the cache holds came from its latest grant, not invalidated since. */
  lemma {:induction false} CacheHoldsLatestGrant(events: seq<CacheEvent>) returns (j: nat)
    requires After(events).token.Some?
    ensures Latest(events, j)
    ensures After(events) == Refreshed(After(events[..j]), events[j].ask)
  {
    var n := |events| - 1;
    var before := events[..n];
    if Stores(events, n) {
      j := n;
    } else {
      j := CacheHoldsLatestGrant(before);
      assert before[..j] == events[..j];
      forall i | j < i < |events| ensures events[i].Request? && !Stores(events, i) {
        if i < n {
          assert events[i] == before[i] && events[..i] == before[..i];
        }
      }
    }
  }

  /**
   With a clock that never runs backwards, a token served from the cache comes from the latest grant,
   has not been invalidated since, and has more than a minute of its stated lifetime left.
   */
  lemma ServedTokensAreCurrent(events: seq<CacheEvent>, now: real) returns (j: nat)
    requires ClockOrdered(events) && Serves(After(events), now)
    requires forall i | 0 <= i < |events| && events[i].Request? :: events[i].ask.later <= now
    ensures Latest(events, j)
    ensures var grant := events[j].ask;
            && Classify(grant.reply) == Token(After(events).token.value)
            && grant.later + Lifetime(grant.reply.body.expires) - now > 60.0
  {
    j := CacheHoldsLatestGrant(events);
  }

  /** A token that lives no longer than the margin is used once and never served again. */
  lemma ShortLivedTokensAreNotServed(cache: Cache, ask: Ask, now: real)
    requires Classify(ask.reply).Token? && Lifetime(ask.reply.body.expires) <= 60.0 && ask.later <= now
    ensures !Serves(Refreshed(cache, ask), now)
  {
  }

  // --- one attempt ---

  datatype StatesBody = NotJson | NotObject | Payload(time: Json, states: Json)

  datatype Reply = Unreachable | Response(status: int, body: StatesBody)

  datatype Outcome = Fetched(snapshotTime: Time, rows: seq<Json>, httpStatus: int) | Failure(error: Error)

  /** One attempt's surroundings: the token request, the endpoint's answer, and the jitter should it fail. */
  datatype Exchange = Exchange(ask: Ask, reply: Reply, jitter: real)

  /** `datetime.fromtimestamp`, which raises outside the calendar. */
  function SnapshotTime(time: Numeral): Option<Time> {
    if !time.Finite? then None
    else
      var t := HalfEven(time.value * MICROSECONDS);
      if FIRST_DATETIME <= t <= LAST_DATETIME then Some(t) else None
  }

  function ReadPayload(time: Json, states: Json): Outcome {
    var rows := if states.Truthy() then states else List([]);
    if !time.Number? || !rows.List? then Failure(Transient)
    else if SnapshotTime(time.numeral).None? then Failure(Other)
    else Fetched(SnapshotTime(time.numeral).value, rows.items, 200)
  }

  /** What the states endpoint's answer amounts to. */
  function ClassifyStates(reply: Reply): Outcome {
    if reply.Unreachable? then Failure(Transient)
    else if reply.status == 429 then Failure(RateLimited)
    else if reply.status in {401, 403} then Failure(AuthError)
    else if reply.status >= 500 then Failure(Transient)
    else if reply.status != 200 then Failure(SourceError)
    else if !reply.body.Payload? then Failure(Transient)
    else ReadPayload(reply.body.time, reply.body.states)
  }

  /** Whether the attempt gets as far as the states endpoint. */
  predicate Requests(cache: Cache, anonymous: bool, x: Exchange) {
    !Answer(cache, anonymous, x.ask).TokenError?
  }

  function Tried(cache: Cache, anonymous: bool, x: Exchange): Outcome {
    var answer := Answer(cache, anonymous, x.ask);
    if answer.TokenError? then Failure(answer.error) else ClassifyStates(x.reply)
  }

  predicate Refuses(reply: Reply) { reply.Response? && reply.status in {401, 403} }

  function CacheAfter(cache: Cache, anonymous: bool, x: Exchange): Cache {
    if Requests(cache, anonymous, x) && Refuses(x.reply) then EMPTY else Asked(cache, anonymous, x.ask)
  }

  /** A 200 with a body of the expected shape. */
  predicate WellFormed(reply: Reply) {
    && reply.Response? && reply.status == 200 && reply.body.Payload?
    && reply.body.time.Number? && (reply.body.states.List? || !reply.body.states.Truthy())
  }

  /** A number of seconds that falls, to the microsecond, in the years 1 to 9999. */
  predicate OnCalendar(time: Numeral) {
    && time.Finite?
    && -62_135_596_800_000_000 <= HalfEven(time.value * 1_000_000.0) < 253_402_300_800_000_000
  }

  predicate ServerError(reply: Reply) { reply.Response? && reply.status >= 500 }

  /**
   What the loop will try again: no answer, a 5xx, and - beyond what the client's notes say - a 200
   whose body is not of the expected shape. A rate limit or a refusal never.
   */
  lemma RetriedExactlyWhen(reply: Reply)
    ensures ClassifyStates(reply) == Failure(Transient) <==>
            reply.Unreachable? || ServerError(reply) || (reply.status == 200 && !WellFormed(reply))
    ensures ClassifyStates(reply).Fetched? <==> WellFormed(reply) && OnCalendar(reply.body.time.numeral)
    ensures ClassifyStates(reply) == Failure(AuthError) <==> Refuses(reply)
    ensures ClassifyStates(reply) == Failure(RateLimited) <==> reply.Response? && reply.status == 429
    ensures ClassifyStates(reply) == Failure(SourceError) <==>
            reply.Response? && reply.status < 500 && reply.status !in {200, 401, 403, 429}
    ensures ClassifyStates(reply) == Failure(Other) <==>
            WellFormed(reply) && !OnCalendar(reply.body.time.numeral)
  {
    if reply.Response? && reply.body.Payload? {
      TruthyOrEmpty(reply.body.states);
    }
  }

  /** What a fetched snapshot holds: the body's own rows, its time to the microsecond, and the status. */
  lemma FetchedIsTheBody(reply: Reply)
    requires ClassifyStates(reply).Fetched?
    ensures var o, body := ClassifyStates(reply), reply.body;
            && o.httpStatus == reply.status == 200
            && o.rows == (if body.states.List? then body.states.items else [])
            && body.time.Number? && body.time.numeral.Finite?
            && o.snapshotTime == HalfEven(body.time.numeral.value * 1_000_000.0)
            && -62_135_596_800_000_000 <= o.snapshotTime < 253_402_300_800_000_000
  {
    TruthyOrEmpty(reply.body.states);
  }

  lemma TruthyOrEmpty(states: Json)
    ensures (if states.Truthy() then states else List([])).List? <==> states.List? || !states.Truthy()
  {
  }

  /** A token is granted exactly by an answer that is no refusal or server error, with a token and a lifetime. */
  lemma GrantedExactlyWhen(reply: TokenReply)
    ensures Classify(reply).Token? <==>
            && reply.TokenResponse? && reply.status < 500 && reply.status !in {400, 401, 403}
            && reply.body.Grant? && reply.body.token != "" && !reply.body.expires.NotSeconds?
    ensures Classify(reply).Token? ==> Classify(reply).token == reply.body.token
    ensures Classify(reply) == TokenError(Transient) <==>
            reply.TokenUnreachable? || reply.status >= 500 ||
            (reply.status !in {400, 401, 403} && reply.body.TokenNotJson?)
    ensures Classify(reply) == TokenError(AuthError) <==>
            && reply.TokenResponse? && reply.status < 500
            && (reply.status in {400, 401, 403} || (reply.body.Grant? && reply.body.token == ""))
    ensures Classify(reply) == TokenError(Other) <==>
            && reply.TokenResponse? && reply.status < 500 && reply.status !in {400, 401, 403}
            && (reply.body.TokenNotObject? ||
                (reply.body.Grant? && reply.body.token != "" && reply.body.expires.NotSeconds?))
  {
  }

  /**
   A grant is served for as long as it has more than the margin of its lifetime left, which is half an hour
   when it states none.
   */
  lemma GrantIsServedExactlyWhile(cache: Cache, ask: Ask, now: real)
    requires Classify(ask.reply).Token?
    ensures var after, expires := Refreshed(cache, ask), ask.reply.body.expires;
            var life := if expires.Seconds? then expires.seconds else 1800.0;
            && after.token == Some(ask.reply.body.token)
            && (Serves(after, now) <==> if life > 60.0 then now < ask.later + life - 60.0 else now < ask.later)
  {
  }

  /**
   One attempt. An anonymous client asks for no token; otherwise a cached one is used while it is served and
   a new one fetched if not, and an attempt that gets none fails with that error and requests nothing. A
   401 or 403 of the states endpoint empties the cache.
   */
  lemma AttemptIs(cache: Cache, anonymous: bool, x: Exchange)
    ensures var cached := cache.token.Some? && x.ask.now < cache.expiresAt;
            if anonymous || cached || Classify(x.ask.reply).Token? then
              && Requests(cache, anonymous, x) && Tried(cache, anonymous, x) == ClassifyStates(x.reply)
              && CacheAfter(cache, anonymous, x)
              == if x.reply.Response? && x.reply.status in {401, 403} then Cache(None, 0.0)
                 else if anonymous || cached then cache else Refreshed(cache, x.ask)
            else
              && !Requests(cache, anonymous, x) && CacheAfter(cache, anonymous, x) == cache
              && Tried(cache, anonymous, x) == Failure(Classify(x.ask.reply).error)
  {
  }

  // --- the retry loop ---

  /** What one call of `fetch_states` has done so far. */
  datatype Session = Session(cache: Cache, outcomes: seq<Outcome>, requests: nat, slept: real)

  predicate Retryable(o: Outcome) { o == Failure(Transient) }

  predicate Over(s: Session) { s.outcomes != [] && !Retryable(s.outcomes[|s.outcomes| - 1]) }

  function Power2(n: nat): (p: nat)
    ensures p >= 1
  {
    if n == 0 then 1 else 2 * Power2(n - 1)
  }

  function Ceiling(attempt: nat): (d: nat) { if Power2(attempt) < 30 then Power2(attempt) else 30 }

  function Delay(attempt: nat, jitter: real): real { jitter * Ceiling(attempt) as real }

  /** The whole call as it stands after `n` of at most `attempts` attempts. */
  function Progress(start: Cache, anonymous: bool, script: nat -> Exchange, attempts: nat, n: nat): Session {
    if n == 0 then Session(start, [], 0, 0.0)
    else
      var s := Progress(start, anonymous, script, attempts, n - 1);
      if Over(s) then s
      else
        var x := script(n);
        var o := Tried(s.cache, anonymous, x);
        Session(CacheAfter(s.cache, anonymous, x), s.outcomes + [o],
                s.requests + (if Requests(s.cache, anonymous, x) then 1 else 0),
                s.slept + if Retryable(o) && n != attempts then Delay(n, x.jitter) else 0.0)
  }

  /** What the call returns or raises. */
  function Result(s: Session): Outcome {
    if Over(s) then s.outcomes[|s.outcomes| - 1] else Failure(Transient)
  }

  class Client {
    const tokens: TokenCache
    var requests: nat // states requests sent
    var slept: real

    constructor (anonymous: bool)
      ensures fresh(tokens) && tokens.anonymous == anonymous && tokens.Current() == EMPTY
      ensures requests == 0 && slept == 0.0
    {
      tokens := new TokenCache(anonymous);
      requests := 0;
      slept := 0.0;
    }

    method FetchOnce(x: Exchange) returns (outcome: Outcome)
      modifies this`requests, tokens
      ensures outcome == Tried(old(tokens.Current()), tokens.anonymous, x)
      ensures tokens.Current() == CacheAfter(old(tokens.Current()), tokens.anonymous, x)
      ensures requests == old(requests) + if Requests(old(tokens.Current()), tokens.anonymous, x) then 1 else 0
      ensures outcome.Fetched? ==> requests == old(requests) + 1
      ensures outcome == Failure(AuthError) && requests > old(requests) ==> tokens.Current() == EMPTY
    {
      var token := tokens.GetToken(x.ask);
      if token.TokenError? {
        return Failure(token.error);
      }
      requests := requests + 1;
      outcome := ClassifyStates(x.reply);
      if Refuses(x.reply) {
        tokens.Invalidate();
      }
    }

    /** `fetch_states`: attempts are counted from one, and no attempt is made when the limit is not positive. */
    method FetchStates(attempts: int, script: nat -> Exchange) returns (result: Outcome)
      modifies this, tokens
      ensures var limit := if attempts > 0 then attempts else 0;
              var s := Progress(old(tokens.Current()), tokens.anonymous, script, limit, limit);
              && result == Result(s)
              && tokens.Current() == s.cache
              && requests == old(requests) + s.requests
              && slept == old(slept) + s.slept
    {
      var limit: nat := if attempts > 0 then attempts else 0;
      var attempt: nat := 1;
      ghost var start := tokens.Current();
      ghost var s := Progress(start, tokens.anonymous, script, limit, 0);
      while attempt <= limit
        invariant 1 <= attempt <= limit + 1
        invariant s == Progress(start, tokens.anonymous, script, limit, attempt - 1)
        invariant !Over(s) && tokens.Current() == s.cache
        invariant requests == old(requests) + s.requests && slept == old(slept) + s.slept
      {
        var x := script(attempt);
        var outcome := FetchOnce(x);
        s := Progress(start, tokens.anonymous, script, limit, attempt);
        if !Retryable(outcome) {
          OverIsFinal(start, tokens.anonymous, script, limit, attempt, limit);
          return outcome;
        }
        if attempt != limit {
          slept := slept + Delay(attempt, x.jitter);
        }
        attempt := attempt + 1;
      }
      return Failure(Transient);
    }
  }

  /** Once an attempt ends the call, nothing more happens. */
  lemma {:induction false} OverIsFinal(start: Cache, anonymous: bool, script: nat -> Exchange,
                                       attempts: nat, n: nat, m: nat)
    requires n <= m && Over(Progress(start, anonymous, script, attempts, n))
    ensures Progress(start, anonymous, script, attempts, m) == Progress(start, anonymous, script, attempts, n)
    decreases m - n
  {
    if n == m {
    } else {
      OverIsFinal(start, anonymous, script, attempts, n, m - 1);
    }
  }

  // --- bounds over every sequence of server outcomes ---

  /**
   At most `attempts` attempts, at most one states request each, and nothing after a success or a
   failure that is not transient: rate limits and refused credentials are never retried.
   */
  lemma {:induction false} AttemptsAreBounded(start: Cache, anonymous: bool, script: nat -> Exchange,
                                              attempts: nat, n: nat)
    requires n <= attempts
    ensures var s := Progress(start, anonymous, script, attempts, n);
            && s.requests <= |s.outcomes| <= n
            && (forall i | 0 <= i < |s.outcomes| - 1 :: s.outcomes[i] == Failure(Transient))
            && (|s.outcomes| < n ==> s.outcomes != [] && s.outcomes[|s.outcomes| - 1] != Failure(Transient))
  {
    if n == 0 {
    } else {
      AttemptsAreBounded(start, anonymous, script, attempts, n - 1);
    }
  }

  /** The call fails as transient exactly when every allowed attempt did. */
  lemma GivesUpExactlyWhenAllFail(start: Cache, anonymous: bool, script: nat -> Exchange, attempts: nat)
    ensures var s := Progress(start, anonymous, script, attempts, attempts);
            Result(s) == Failure(Transient) <==>
            |s.outcomes| == attempts && forall i | 0 <= i < attempts :: s.outcomes[i] == Failure(Transient)
  {
    AttemptsAreBounded(start, anonymous, script, attempts, attempts);
  }

  /** The first `n - 1` attempts were made and all failed as transient, so that attempt `n` is made. */
  predicate Reaches(start: Cache, anonymous: bool, script: nat -> Exchange, attempts: nat, n: nat)
    requires n > 0
  {
    var s := Progress(start, anonymous, script, attempts, n - 1);
    |s.outcomes| == n - 1 && forall i | 0 <= i < n - 1 :: s.outcomes[i] == Failure(Transient)
  }

  /**
   What an attempt decides. Anything but a transient failure ends the call with that very outcome, without
   another attempt, request or pause; a transient failure leads to the next attempt while one is allowed.
   */
  lemma AttemptDecides(start: Cache, anonymous: bool, script: nat -> Exchange, attempts: nat, n: nat)
    requires 0 < n <= attempts && Reaches(start, anonymous, script, attempts, n)
    ensures var s := Progress(start, anonymous, script, attempts, n - 1);
            var o, end := Tried(s.cache, anonymous, script(n)), Progress(start, anonymous, script, attempts, attempts);
            if o == Failure(Transient) then n < attempts ==> Reaches(start, anonymous, script, attempts, n + 1)
            else
              && end.outcomes == s.outcomes + [o] && Result(end) == o && end.slept == s.slept
              && end.requests == s.requests + (if Requests(s.cache, anonymous, script(n)) then 1 else 0)
              && end.cache == CacheAfter(s.cache, anonymous, script(n))
  {
    var s := Progress(start, anonymous, script, attempts, n - 1);
    var t := Progress(start, anonymous, script, attempts, n);
    assert !Over(s);
    if Tried(s.cache, anonymous, script(n)) != Failure(Transient) {
      assert Over(t);
      OverIsFinal(start, anonymous, script, attempts, n, attempts);
    }
  }

  /** A rate limit is never retried: the call ends with it. */
  lemma RateLimitEndsTheCall(start: Cache, anonymous: bool, script: nat -> Exchange, attempts: nat, n: nat)
    requires 0 < n <= attempts && Reaches(start, anonymous, script, attempts, n)
    requires Requests(Progress(start, anonymous, script, attempts, n - 1).cache, anonymous, script(n))
    requires script(n).reply.Response? && script(n).reply.status == 429
    ensures var s := Progress(start, anonymous, script, attempts, n - 1);
            var end := Progress(start, anonymous, script, attempts, attempts);
            && Result(end) == Failure(RateLimited)
            && end.requests == s.requests + 1 && |end.outcomes| == n && end.slept == s.slept
  {
    AttemptDecides(start, anonymous, script, attempts, n);
  }

  /** Whether an answer of the states endpoint is worth another try. */
  predicate WorthRetrying(reply: Reply) {
    || reply.Unreachable? || reply.status >= 500
    || (reply.status == 200 &&
        !(reply.body.Payload? && reply.body.time.Number? && (reply.body.states.List? || !reply.body.states.Truthy())))
  }

  /**
   A whole call of an anonymous client, from the answers alone: one request for each answer up to and
   including the first that is not worth retrying, whose outcome is the call's; or one for each allowed
   attempt and a transient failure when there is none.
   */
  lemma AnonymousCall(start: Cache, script: nat -> Exchange, attempts: nat, n: nat)
    requires 0 < n <= attempts && forall i | 0 < i < n :: WorthRetrying(script(i).reply)
    requires n < attempts ==> !WorthRetrying(script(n).reply)
    ensures var end := Progress(start, true, script, attempts, attempts);
            && end.requests == n && |end.outcomes| == n
            && end.cache == (if Refuses(script(n).reply) then EMPTY else start)
            && Result(end) == ClassifyStates(script(n).reply)
  {
    AnonymousAttempts(start, script, attempts, n);
    RetriedExactlyWhen(script(n).reply);
    AttemptDecides(start, true, script, attempts, n);
  }

  lemma {:induction false} AnonymousAttempts(start: Cache, script: nat -> Exchange, attempts: nat, n: nat)
    requires 0 < n <= attempts && forall i | 0 < i < n :: WorthRetrying(script(i).reply)
    ensures Reaches(start, true, script, attempts, n)
    ensures var s := Progress(start, true, script, attempts, n - 1); s.requests == n - 1 && s.cache == start
  {
    if n == 1 {
    } else {
      AnonymousAttempts(start, script, attempts, n - 1);
      RetriedExactlyWhen(script(n - 1).reply);
      AttemptDecides(start, true, script, attempts, n - 1);
    }
  }

  /** The longest the first `n` pauses can be together. */
  function Backoff(n: nat): real {
    if n == 0 then 0.0 else Backoff(n - 1) + Ceiling(n) as real
  }

  /** How long the first `n` pauses are with the jitter drawn. */
  function TotalDelay(script: nat -> Exchange, n: nat): real {
    if n == 0 then 0.0
    else TotalDelay(script, n - 1) + script(n).jitter * (if Power2(n) < 30 then Power2(n) else 30) as real
  }

  /** The pauses made are exactly those, one after each retried attempt and none after the last. */
  lemma {:induction false} SleepIsExactly(start: Cache, anonymous: bool, script: nat -> Exchange, attempts: nat, n: nat)
    requires n <= attempts
    ensures var s := Progress(start, anonymous, script, attempts, n);
            s.slept == TotalDelay(script, Pauses(s, n == attempts))
  {
    if n == 0 {
    } else {
      SleepIsExactly(start, anonymous, script, attempts, n - 1);
      if Over(Progress(start, anonymous, script, attempts, n - 1)) {
        OverIsFinal(start, anonymous, script, attempts, n - 1, n);
      } else {
        DelayAfterRetry(start, anonymous, script, attempts, n);
      }
    }
  }

  lemma DelayAfterRetry(start: Cache, anonymous: bool, script: nat -> Exchange, attempts: nat, n: nat)
    requires 0 < n <= attempts
    requires var s := Progress(start, anonymous, script, attempts, n - 1);
             !Over(s) && s.slept == TotalDelay(script, Pauses(s, false))
    ensures var t := Progress(start, anonymous, script, attempts, n);
            t.slept == TotalDelay(script, Pauses(t, n == attempts))
  {
    var s, t := Progress(start, anonymous, script, attempts, n - 1), Progress(start, anonymous, script, attempts, n);
    AttemptsAreBounded(start, anonymous, script, attempts, n - 1);
    var o := OneMoreAttempt(start, anonymous, script, attempts, n);
    DelaysOnce(s, t, o, n, n == attempts, script);
  }

  lemma DelaysOnce(s: Session, t: Session, o: Outcome, n: nat, final: bool, script: nat -> Exchange)
    requires n == |s.outcomes| + 1 && !Over(s) && t.outcomes == s.outcomes + [o]
    requires t.slept == s.slept + (if Retryable(o) && !final then Delay(n, script(n).jitter) else 0.0)
    requires s.slept == TotalDelay(script, n - 1)
    ensures t.slept == TotalDelay(script, Pauses(t, final))
  {
  }

  ghost predicate JitterInRange(script: nat -> Exchange) {
    forall n :: 0.0 <= script(n).jitter <= 1.0
  }

  lemma DelayBound(attempt: nat, jitter: real)
    requires 0.0 <= jitter <= 1.0
    ensures 0.0 <= Delay(attempt, jitter) <= Ceiling(attempt) as real
  {
    var top := Ceiling(attempt) as real;
    ProductGrows(jitter, 1.0, top, Delay(attempt, jitter), top);
    ProductGrows(0.0, jitter, top, 0.0, Delay(attempt, jitter));
  }

  /** How many pauses a call has behind it: one after each attempt that is retried, none after the last. */
  function Pauses(s: Session, final: bool): nat {
    if s.outcomes != [] && (Over(s) || final) then |s.outcomes| - 1 else |s.outcomes|
  }

  /** The pauses together never exceed the exponential ceilings, each capped at thirty seconds. */
  lemma {:induction false} SleepIsBounded(start: Cache, anonymous: bool, script: nat -> Exchange, attempts: nat, n: nat)
    requires n <= attempts && JitterInRange(script)
    ensures var s := Progress(start, anonymous, script, attempts, n);
            0.0 <= s.slept <= Backoff(Pauses(s, n == attempts))
  {
    if n == 0 {
    } else {
      SleepIsBounded(start, anonymous, script, attempts, n - 1);
      if Over(Progress(start, anonymous, script, attempts, n - 1)) {
        OverIsFinal(start, anonymous, script, attempts, n - 1, n);
      } else {
        SleepAfterRetry(start, anonymous, script, attempts, n);
      }
    }
  }

  lemma SleepAfterRetry(start: Cache, anonymous: bool, script: nat -> Exchange, attempts: nat, n: nat)
    requires 0 < n <= attempts && 0.0 <= script(n).jitter <= 1.0
    requires var s := Progress(start, anonymous, script, attempts, n - 1);
             !Over(s) && 0.0 <= s.slept <= Backoff(Pauses(s, false))
    ensures var t := Progress(start, anonymous, script, attempts, n);
            0.0 <= t.slept <= Backoff(Pauses(t, n == attempts))
  {
    var s, t := Progress(start, anonymous, script, attempts, n - 1), Progress(start, anonymous, script, attempts, n);
    AttemptsAreBounded(start, anonymous, script, attempts, n - 1);
    var o := OneMoreAttempt(start, anonymous, script, attempts, n);
    PausesOnce(s, t, o, n, n == attempts, script(n).jitter);
  }

  lemma OneMoreAttempt(start: Cache, anonymous: bool, script: nat -> Exchange, attempts: nat, n: nat)
    returns (o: Outcome)
    requires 0 < n <= attempts && !Over(Progress(start, anonymous, script, attempts, n - 1))
    ensures var s := Progress(start, anonymous, script, attempts, n - 1);
            var t := Progress(start, anonymous, script, attempts, n);
            && t.outcomes == s.outcomes + [o]
            && t.slept == s.slept + if Retryable(o) && n != attempts then Delay(n, script(n).jitter) else 0.0
  {
    o := Tried(Progress(start, anonymous, script, attempts, n - 1).cache, anonymous, script(n));
  }

  lemma PausesOnce(s: Session, t: Session, o: Outcome, n: nat, final: bool, jitter: real)
    requires n == |s.outcomes| + 1 && !Over(s) && t.outcomes == s.outcomes + [o]
    requires t.slept == s.slept + (if Retryable(o) && !final then Delay(n, jitter) else 0.0)
    requires 0.0 <= s.slept <= Backoff(n - 1) && 0.0 <= jitter <= 1.0
    ensures 0.0 <= t.slept <= Backoff(Pauses(t, final))
  {
    DelayBound(n, jitter);
  }

  /** 2, 6, 14, 30 seconds, and thirty more for each further pause. */
  lemma {:induction false} BackoffInClosedForm(n: nat)
    ensures Backoff(n) == if n == 0 then 0.0 else if n == 1 then 2.0 else if n == 2 then 6.0 else if n == 3 then 14.0
                          else 30.0 * (n - 3) as real
  {
    if n == 0 {
    } else {
      BackoffInClosedForm(n - 1);
      if n <= 4 {
        assert Power2(n) == 2 * Power2(n - 1);
      } else {
        AtLeast32(n);
      }
    }
    assert Power2(0) == 1 && Power2(1) == 2 && Power2(2) == 4 && Power2(3) == 8 && Power2(4) == 16;
  }

  lemma {:induction false} AtLeast32(n: nat)
    requires n >= 5
    ensures Power2(n) >= 32
  {
    if n == 5 {
      assert Power2(2) == 4 && Power2(5) == 8 * Power2(2);
    } else {
      AtLeast32(n - 1);
    }
  }

  /** A refused request leaves no token behind, so the next call has to authenticate again. */
  lemma RefusalForgetsToken(start: Cache, anonymous: bool, script: nat -> Exchange, attempts: nat, n: nat, ask: Ask)
    requires 0 < n <= attempts && !Over(Progress(start, anonymous, script, attempts, n - 1))
    requires Requests(Progress(start, anonymous, script, attempts, n - 1).cache, anonymous, script(n))
    requires Refuses(script(n).reply)
    ensures var s := Progress(start, anonymous, script, attempts, attempts);
            && Result(s) == Failure(AuthError)
            && s.cache == EMPTY
            && (!anonymous ==> Answer(s.cache, anonymous, ask) == Classify(ask.reply))
  {
    OverIsFinal(start, anonymous, script, attempts, n, attempts);
  }
}
