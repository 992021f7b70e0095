/** The provider's protocol with the exchange: what is sent, what is written down of it, what a signed
    call makes of the replies, and the cooldown after a rate limit.

    The server and the clocks are arbitrary functions of the number of earlier uses, so every claim
    holds for every behaviour of theirs, however it depends on what was sent. */
module Protocol {
  import opened Options
  import opened Payloads

  /** One reply: a parsed body, an HTTP error status with what its headers and body say about
      waiting, a transport failure, or any other exception. */
  datatype Reply =
    | Body(payload: Json)
    | HttpError(status: int, code: Option<int>, retryAfter: Option<real>, bannedUntil: Option<nat>, perMinute: bool)
    | TransportError
    | OtherError

  datatype Endpoint = PositionRisk | ExchangeInfo | OpenOrders | UserTrades | ServerTime
  datatype Kind = Signed | Public | Time
  datatype Outcome = Pass | Fail | Retry
  datatype Reason = NoReason | ClockSkew | TransientFailure | RateLimit
  datatype Attempt = Attempt(sequence: nat, endpoint: Endpoint, symbol: Option<string>, kind: Kind, number: nat,
                             reason: Reason, status: Option<int>, code: Option<int>, outcome: Outcome)

  // ---------- Attempts ----------

  predicate RateLimited(status: int, code: Option<int>) {
    status == 429 || (status == 418 && code == Some(-1003))
  }

  predicate Limited(a: Attempt) {
    a.status.Some? && RateLimited(a.status.value, a.code)
  }

  /** What may be sent again: after a clock-skew error, a 5xx status or a transport failure. */
  predicate MayRetry(a: Attempt) {
    match a.reason
    case ClockSkew => a.code == Some(-1021)
    case TransientFailure => a.status.None? || 500 <= a.status.value < 600
    case _ => false
  }

  /** Attempts are numbered from one, and only what may be sent again was. */
  predicate Recorded(s: seq<Attempt>) {
    s == [] || (var last := s[|s| - 1];
                Recorded(s[..|s| - 1]) && last.sequence == |s| && (last.outcome == Retry ==> MayRetry(last)))
  }

  /** No rate limit was met, other than one that was treated as clock skew and sent again. */
  predicate Unlimited(s: seq<Attempt>) {
    s == [] || (Unlimited(s[..|s| - 1]) && (Limited(s[|s| - 1]) ==> s[|s| - 1].outcome == Retry))
  }

  /** A rate limit that was not sent again is the last attempt, and then the call failed. */
  predicate Stops(s: seq<Attempt>, succeeded: bool) {
    if succeeded then Unlimited(s) else s == [] || Unlimited(s[..|s| - 1])
  }

  lemma UnlimitedStops(s: seq<Attempt>)
    requires Unlimited(s)
    ensures Stops(s, false)
  {
  }

  lemma {:induction false} RecordedAt(s: seq<Attempt>, i: nat)
    requires Recorded(s) && i < |s|
    ensures s[i].sequence == i + 1 && (s[i].outcome == Retry ==> MayRetry(s[i]))
  {
    if i < |s| - 1 {
      RecordedAt(s[..|s| - 1], i);
    }
  }

  lemma {:induction false} UnlimitedAt(s: seq<Attempt>, i: nat)
    requires Unlimited(s) && i < |s|
    ensures Limited(s[i]) ==> s[i].outcome == Retry
  {
    if i < |s| - 1 {
      UnlimitedAt(s[..|s| - 1], i);
    }
  }

  function OfKind(s: seq<Attempt>, k: Kind): nat {
    if s == [] then 0 else OfKind(s[..|s| - 1], k) + if s[|s| - 1].kind == k then 1 else 0
  }

  function Transients(s: seq<Attempt>): nat {
    if s == [] then 0
    else Transients(s[..|s| - 1]) + if s[|s| - 1].outcome == Retry && s[|s| - 1].reason == TransientFailure then 1 else 0
  }

  lemma AttemptAppend(s: seq<Attempt>, a: Attempt)
    ensures forall k :: OfKind(s + [a], k) == OfKind(s, k) + if a.kind == k then 1 else 0
    ensures Transients(s + [a]) == Transients(s) + if a.outcome == Retry && a.reason == TransientFailure then 1 else 0
    ensures Recorded(s + [a]) <==> Recorded(s) && a.sequence == |s| + 1 && (a.outcome == Retry ==> MayRetry(a))
    ensures Unlimited(s + [a]) <==> Unlimited(s) && (Limited(a) ==> a.outcome == Retry)
    ensures Stops(s + [a], false) <==> Unlimited(s)
  {
    assert (s + [a])[..|s|] == s;
  }

  lemma {:induction false} KindsAddUp(s: seq<Attempt>)
    ensures |s| == OfKind(s, Signed) + OfKind(s, Time) + OfKind(s, Public)
  {
    if s != [] {
      KindsAddUp(s[..|s| - 1]);
    }
  }

  // ---------- Attempts and replies ----------

  /** What an attempt says of the reply that it met. */
  predicate Answers(a: Attempt, reply: Reply) {
    && a.status == (if reply.HttpError? then Some(reply.status) else None)
    && (reply.HttpError? ==> a.code == reply.code)
    && (a.outcome == Pass ==> reply.Body?)
  }

  /** The attempts are the uses of the server from `base` on, one for each. */
  predicate Matches(s: seq<Attempt>, server: nat -> Reply, base: nat) {
    s == [] || (Matches(s[..|s| - 1], server, base) && Answers(s[|s| - 1], server(base + |s| - 1)))
  }

  lemma MatchesAppend(s: seq<Attempt>, a: Attempt, server: nat -> Reply, base: nat)
    ensures Matches(s + [a], server, base) <==> Matches(s, server, base) && Answers(a, server(base + |s|))
  {
    assert (s + [a])[..|s|] == s;
  }

  lemma {:induction false} MatchesAt(s: seq<Attempt>, server: nat -> Reply, base: nat, i: nat)
    requires Matches(s, server, base) && i < |s|
    ensures Answers(s[i], server(base + i)) && (Limited(s[i]) <==> IsLimit(server(base + i)))
  {
    if i < |s| - 1 {
      MatchesAt(s[..|s| - 1], server, base, i);
    }
  }

  /** A signed request to the endpoint passed. */
  predicate HasPassed(s: seq<Attempt>, endpoint: Endpoint, symbol: Option<string>) {
    s != [] && (PassedBy(s[|s| - 1], endpoint, symbol) || HasPassed(s[..|s| - 1], endpoint, symbol))
  }

  predicate PassedBy(a: Attempt, endpoint: Endpoint, symbol: Option<string>) {
    a.endpoint == endpoint && a.symbol == symbol && a.kind.Signed? && a.outcome.Pass?
  }

  lemma {:induction false} PassedStays(s: seq<Attempt>, t: seq<Attempt>, endpoint: Endpoint, symbol: Option<string>)
    requires s <= t
    ensures HasPassed(s, endpoint, symbol) ==> HasPassed(t, endpoint, symbol)
    decreases |t|
  {
    if |s| < |t| {
      PassedStays(s, t[..|t| - 1], endpoint, symbol);
    } else {
      assert s == t;
    }
  }

  // ---------- Replies ----------

  datatype Fetch = Fetched(payload: Json) | Failed(failure: Failure)
  datatype Refresh = Refreshed | Raised(reply: Reply) | BadPayload
  datatype Step = Done(fetch: Fetch) | Resynced | Again

  /** A body that carries a negative integer `code` is an error. */
  function ErrorCode(payload: Json): Option<int> {
    var code := IntOf(Field(payload, "code"));
    if code.Some? && code.value < 0 then code else None
  }

  /** How an attempt is written down when its reply is known. */
  function Observed(sequence: nat, endpoint: Endpoint, symbol: Option<string>, kind: Kind, number: nat, reason: Reason, reply: Reply): (a: Attempt)
    ensures a.sequence == sequence && a.kind == kind && a.outcome != Retry
    ensures Answers(a, reply) && (Limited(a) <==> IsLimit(reply))
  {
    Attempt(sequence, endpoint, symbol, kind, number,
            if IsLimit(reply) then RateLimit else reason,
            if reply.HttpError? then Some(reply.status) else None,
            if reply.HttpError? then reply.code else None,
            if reply.Body? then Pass else Fail)
  }

  predicate IsTransient(reply: Reply) {
    reply.TransportError? || (reply.HttpError? && 500 <= reply.status < 600)
  }

  predicate IsLimit(reply: Reply) {
    reply.HttpError? && RateLimited(reply.status, reply.code)
  }

  function RefreshOf(reply: Reply): Refresh {
    if !reply.Body? then Raised(reply)
    else if IntOf(Field(reply.payload, "serverTime")).Some? then Refreshed
    else BadPayload
  }

  /** A request for the trades of each of these symbols passed. */
  predicate AllPassed(s: seq<Attempt>, symbols: seq<string>) {
    symbols == [] || (AllPassed(s, symbols[..|symbols| - 1]) && HasPassed(s, UserTrades, Some(symbols[|symbols| - 1])))
  }

  lemma {:induction false} AllPassedStays(s: seq<Attempt>, t: seq<Attempt>, symbols: seq<string>)
    requires s <= t && AllPassed(s, symbols)
    ensures AllPassed(t, symbols)
  {
    if symbols != [] {
      AllPassedStays(s, t, symbols[..|symbols| - 1]);
      PassedStays(s, t, UserTrades, Some(symbols[|symbols| - 1]));
    }
  }

  lemma NothingPassed(s: seq<Attempt>)
    ensures AllPassed(s, [])
  {
  }

  lemma AllPassedMore(s: seq<Attempt>, t: seq<Attempt>, symbols: seq<string>, k: nat)
    requires s <= t && k < |symbols| && AllPassed(s, symbols[..k]) && HasPassed(t, UserTrades, Some(symbols[k]))
    ensures AllPassed(t, symbols[..k + 1]) && symbols[..k] + [symbols[k]] == symbols[..k + 1]
  {
    AllPassedStays(s, t, symbols[..k]);
    assert symbols[..k + 1][..k] == symbols[..k];
  }

  lemma {:induction false} AllPassedAt(s: seq<Attempt>, symbols: seq<string>, i: nat)
    requires AllPassed(s, symbols) && i < |symbols|
    ensures HasPassed(s, UserTrades, Some(symbols[i]))
  {
    if i < |symbols| - 1 {
      AllPassedAt(s, symbols[..|symbols| - 1], i);
    }
  }

  // ---------- A signed call ----------

  /** What a signed call returns and the first request after it. */
  datatype Call = Call(fetch: Fetch, next: nat)

  function Measure(limit: nat, transient: nat, resynced: bool): nat
    requires transient <= limit
  {
    2 * (limit - transient) + if resynced then 0 else 1
  }

  /** The call from request `k` on, after `transient` transient failures of at most `limit` and with the
      clock resynchronized or not. */
  function Follow(server: nat -> Reply, limit: nat, k: nat, transient: nat, resynced: bool): Call
    requires transient <= limit
    decreases Measure(limit, transient, resynced), 1
  {
    var reply := server(k);
    if !reply.Body? then Handled(server, limit, reply, k + 1, transient, resynced)
    else if ErrorCode(reply.payload).None? then Call(Fetched(reply.payload), k + 1)
    else if ErrorCode(reply.payload) != Some(-1021) || resynced then Call(Failed(AuthFailure), k + 1)
    else
      match RefreshOf(server(k + 1))
      case Refreshed => Follow(server, limit, k + 2, transient, true)
      case BadPayload => Call(Failed(PayloadFailure), k + 2)
      case Raised(raised) => Handled(server, limit, raised, k + 2, transient, false)
  }

  /** What the handlers make of an error when `k` is the next request. */
  function Handled(server: nat -> Reply, limit: nat, reply: Reply, k: nat, transient: nat, resynced: bool): Call
    requires transient <= limit
    decreases Measure(limit, transient, resynced), 0
  {
    if SkewsClock(reply) && !resynced then
      match RefreshOf(server(k))
      case Refreshed => Follow(server, limit, k + 1, transient, true)
      case BadPayload => Call(Failed(PayloadFailure), k + 1)
      case Raised(_) => Call(Failed(RequestFailure), k + 1)
    else if IsTransient(reply) && transient < limit then Follow(server, limit, k, transient + 1, resynced)
    else Call(Failed(FailureOf(reply)), k)
  }

  predicate SkewsClock(reply: Reply) {
    reply.HttpError? && reply.code == Some(-1021)
  }

  function FailureOf(reply: Reply): Failure {
    if !reply.HttpError? then RequestFailure
    else if !IsLimit(reply) && (reply.status == 401 || reply.status == 403) then AuthFailure
    else PayloadFailure
  }

  /** Where one turn of the call leads. */
  function After(server: nat -> Reply, limit: nat, step: Step, next: nat, transient: nat, resynced: bool): Call
    requires transient <= limit && (step.Again? ==> transient < limit)
  {
    match step
    case Done(fetch) => Call(fetch, next)
    case Resynced => Follow(server, limit, next, transient, true)
    case Again => Follow(server, limit, next, transient + 1, resynced)
  }

  lemma {:induction false} FollowAdvances(server: nat -> Reply, limit: nat, k: nat, transient: nat, resynced: bool)
    requires transient <= limit
    ensures Follow(server, limit, k, transient, resynced).next > k
    decreases Measure(limit, transient, resynced), 1
  {
    var reply := server(k);
    if !reply.Body? {
      HandledAdvances(server, limit, reply, k + 1, transient, resynced);
    } else if ErrorCode(reply.payload) == Some(-1021) && !resynced {
      match RefreshOf(server(k + 1))
      case Refreshed => FollowAdvances(server, limit, k + 2, transient, true);
      case BadPayload =>
      case Raised(raised) => HandledAdvances(server, limit, raised, k + 2, transient, false);
    }
  }

  lemma {:induction false} HandledAdvances(server: nat -> Reply, limit: nat, reply: Reply, k: nat, transient: nat, resynced: bool)
    requires transient <= limit
    ensures Handled(server, limit, reply, k, transient, resynced).next >= k
    decreases Measure(limit, transient, resynced), 0
  {
    if SkewsClock(reply) && !resynced {
      if RefreshOf(server(k)).Refreshed? {
        FollowAdvances(server, limit, k + 1, transient, true);
      }
    } else if IsTransient(reply) && transient < limit {
      FollowAdvances(server, limit, k, transient + 1, resynced);
    }
  }

  /** A rate limit that reaches the handlers is followed by another request exactly when its code says
      that the clock is off and the clock was not resynchronized yet. */
  lemma LimitIsFollowedExactly(server: nat -> Reply, limit: nat, reply: Reply, k: nat, transient: nat, resynced: bool)
    requires transient <= limit && IsLimit(reply)
    ensures Handled(server, limit, reply, k, transient, resynced).next > k <==> SkewsClock(reply) && !resynced
  {
    if SkewsClock(reply) && !resynced && RefreshOf(server(k)).Refreshed? {
      FollowAdvances(server, limit, k + 1, transient, true);
    }
  }

  /** A call succeeds only with an error-free body, and that is the last reply it received. */
  lemma {:induction false} FetchedIsLast(server: nat -> Reply, limit: nat, k: nat, transient: nat, resynced: bool)
    requires transient <= limit
    ensures var call := Follow(server, limit, k, transient, resynced);
            call.fetch.Fetched? ==>
              call.next > k && server(call.next - 1) == Body(call.fetch.payload) && ErrorCode(call.fetch.payload).None?
    decreases Measure(limit, transient, resynced), 1
  {
    var reply := server(k);
    if !reply.Body? {
      HandledFetchIsLast(server, limit, reply, k + 1, transient, resynced);
    } else if ErrorCode(reply.payload) == Some(-1021) && !resynced {
      match RefreshOf(server(k + 1))
      case Refreshed => FetchedIsLast(server, limit, k + 2, transient, true);
      case BadPayload =>
      case Raised(raised) => HandledFetchIsLast(server, limit, raised, k + 2, transient, false);
    }
  }

  lemma {:induction false} HandledFetchIsLast(server: nat -> Reply, limit: nat, reply: Reply, k: nat, transient: nat, resynced: bool)
    requires transient <= limit
    ensures var call := Handled(server, limit, reply, k, transient, resynced);
            call.fetch.Fetched? ==>
              call.next > k && server(call.next - 1) == Body(call.fetch.payload) && ErrorCode(call.fetch.payload).None?
    decreases Measure(limit, transient, resynced), 0
  {
    if SkewsClock(reply) && !resynced {
      if RefreshOf(server(k)).Refreshed? {
        FetchedIsLast(server, limit, k + 1, transient, true);
      }
    } else if IsTransient(reply) && transient < limit {
      FetchedIsLast(server, limit, k, transient + 1, resynced);
    }
  }

  // ---------- Rate limits within a signed call ----------

  /** A request for the server's time passed among attempts `start..i`. */
  predicate ResyncedBefore(s: seq<Attempt>, start: nat, i: nat)
    requires i <= |s|
  {
    i > start && (PassedTime(s[i - 1]) || ResyncedBefore(s, start, i - 1))
  }

  /** The rate limit met by attempt `i` of a call that began at `start` may be sent again: its code says
      that the clock is off, and the clock was not resynchronized in the call, or the attempt was itself
      the request for the time that an error in a body led to. */
  predicate SkewGuard(s: seq<Attempt>, start: nat, i: nat)
    requires i < |s|
  {
    s[i].code == Some(-1021) && if s[i].kind.Signed? then !ResyncedBefore(s, start, i) else i > start && s[i - 1].status.None?
  }

  /** Within the call, a rate limit is followed by another request exactly under that guard. */
  ghost predicate LimitsFollowedExactly(s: seq<Attempt>, start: nat) {
    forall i :: start <= i < |s| && Limited(s[i]) ==> (i + 1 < |s| <==> SkewGuard(s, start, i))
  }

  /** The attempts `n..` of one turn: a signed one, then requests for the server's time. */
  ghost predicate TurnFollowedExactly(s: seq<Attempt>, n: nat, resynced: bool) {
    && n < |s| && s[n].kind.Signed?
    && (forall i :: n < i < |s| ==> s[i].kind.Time?)
    && (forall i :: n <= i < |s| && Limited(s[i]) ==> (i + 1 < |s| <==> TurnGuard(s, n, resynced, i)))
  }

  predicate TurnGuard(s: seq<Attempt>, n: nat, resynced: bool, i: nat)
    requires n <= i < |s|
  {
    s[i].code == Some(-1021) && if i == n then !resynced else s[i - 1].status.None?
  }

  /** The last attempt is rewritten by a handler, which may then ask for the server's time. */
  predicate Amended(s: seq<Attempt>, t: seq<Attempt>, asked: bool) {
    && 0 < |s| && |t| == |s| + (if asked then 1 else 0) && t[..|s| - 1] == s[..|s| - 1]
    && t[|s| - 1].kind == s[|s| - 1].kind && t[|s| - 1].status == s[|s| - 1].status && t[|s| - 1].code == s[|s| - 1].code
    && (t[|s| - 1].outcome.Pass? ==> s[|s| - 1].outcome.Pass?)
    && (asked ==> t[|s|].kind.Time?)
  }

  /** The attempts of the guarded block: a signed one, and one for the server's time behind an error in
      its body. */
  predicate Exchanged(s: seq<Attempt>, t: seq<Attempt>, resynced: bool) {
    && s <= t && (|t| == |s| + 1 || |t| == |s| + 2) && t[|s|].kind.Signed?
    && (|t| == |s| + 2 ==> t[|s|].status.None? && t[|s| + 1].kind.Time? && !resynced)
  }

  /** One signed attempt, rewritten or not. */
  lemma SentOnce(s: seq<Attempt>, t: seq<Attempt>, resynced: bool)
    requires |t| == |s| + 1 && t[..|s|] == s && t[|s|].kind.Signed?
    ensures Exchanged(s, t, resynced)
  {
  }

  /** One signed attempt, rewritten for the error code in its body, and a request for the server's time. */
  lemma SentAndAsked(s: seq<Attempt>, a: Attempt, t: seq<Attempt>)
    requires a.kind.Signed? && a.status.None? && Amended(s + [a], t, true)
    ensures Exchanged(s, t, false)
  {
    assert (s + [a])[..|s|] == s && t[..|s|] == s;
  }

  /** An attempt that was rewritten for a retry, and a request for the server's time. */
  lemma RetriedAndAsked(s: seq<Attempt>, m: seq<Attempt>, reason: Reason, code: Option<int>, ask: Attempt)
    requires s != [] && |m| == |s| && m[..|s| - 1] == s[..|s| - 1] && ask.kind.Time?
    requires m[|s| - 1] == s[|s| - 1].(outcome := Retry, reason := reason, code := code)
    ensures Amended(s[..|s| - 1] + [s[|s| - 1].(code := code)], m + [ask], true)
  {
    var before, t := s[..|s| - 1] + [s[|s| - 1].(code := code)], m + [ask];
    assert before[..|s| - 1] == s[..|s| - 1] && t[..|s| - 1] == m[..|s| - 1];
  }

  predicate PassedTime(a: Attempt) {
    a.kind.Time? && a.outcome.Pass?
  }

  /** A turn that the guarded block decides alone. */
  lemma DecidedTurn(s: seq<Attempt>, t: seq<Attempt>, resynced: bool)
    requires Exchanged(s, t, resynced) && !Limited(t[|t| - 1])
    ensures TurnFollowedExactly(t, |s|, resynced)
  {
  }

  /** A turn whose error goes to the handlers. */
  lemma HandledTurn(s: seq<Attempt>, m: seq<Attempt>, t: seq<Attempt>, reply: Reply, resynced: bool)
    requires Exchanged(s, m, resynced) && Answers(m[|m| - 1], reply) && !reply.Body?
    requires Amended(m, t, SkewsClock(reply) && !resynced)
    ensures s <= t && TurnFollowedExactly(t, |s|, resynced)
    ensures !(SkewsClock(reply) && !resynced) ==> forall i :: |s| <= i < |t| ==> !PassedTime(t[i])
  {
    var last := |m| - 1;
    assert forall i :: 0 <= i < last ==> t[i] == m[i];
    assert m[last].code == Some(-1021) && m[last].status.Some? ==> SkewsClock(reply);
    forall i | |s| <= i < |t| && Limited(t[i]) ensures i + 1 < |t| <==> TurnGuard(t, |s|, resynced, i) {
      assert i >= last;
    }
  }

  lemma {:induction false} NoNewTime(s: seq<Attempt>, t: seq<Attempt>, start: nat)
    requires s <= t && start <= |s| && forall i :: |s| <= i < |t| ==> !PassedTime(t[i])
    ensures ResyncedBefore(t, start, |t|) == ResyncedBefore(s, start, |s|)
  {
    NoTimeUpTo(t, start, |s|, |t|);
    ResyncedBeforeStays(s, t, start, |s|);
  }

  lemma {:induction false} NoTimeUpTo(t: seq<Attempt>, start: nat, n: nat, i: nat)
    requires start <= n <= i <= |t| && forall j :: n <= j < i ==> !PassedTime(t[j])
    ensures ResyncedBefore(t, start, i) == ResyncedBefore(t, start, n)
  {
    if i > n {
      NoTimeUpTo(t, start, n, i - 1);
    }
  }

  lemma {:induction false} ResyncedBeforeStays(s: seq<Attempt>, t: seq<Attempt>, start: nat, i: nat)
    requires s <= t && i <= |s|
    ensures ResyncedBefore(s, start, i) == ResyncedBefore(t, start, i)
  {
    if i > start {
      ResyncedBeforeStays(s, t, start, i - 1);
    }
  }

  lemma SkewGuardStays(s: seq<Attempt>, t: seq<Attempt>, start: nat, i: nat)
    requires s <= t && i < |s|
    ensures SkewGuard(s, start, i) == SkewGuard(t, start, i)
  {
    ResyncedBeforeStays(s, t, start, i);
    assert i > 0 ==> s[i - 1] == t[i - 1];
  }

  lemma TurnKeepsLimits(s: seq<Attempt>, t: seq<Attempt>, start: nat, resynced: bool)
    requires s <= t && start <= |s| && LimitsFollowedExactly(s, start) && TurnFollowedExactly(t, |s|, resynced)
    requires |s| > start ==> !Limited(s[|s| - 1])
    requires resynced == ResyncedBefore(s, start, |s|)
    ensures LimitsFollowedExactly(t, start)
  {
    forall i | start <= i < |t| && Limited(t[i]) ensures i + 1 < |t| <==> SkewGuard(t, start, i) {
      if i < |s| {
        SkewGuardStays(s, t, start, i);
        assert s[i] == t[i] && i != |s| - 1;
      } else {
        ResyncedBeforeStays(s, t, start, |s|);
        assert SkewGuard(t, start, i) <==> TurnGuard(t, |s|, resynced, i);
      }
    }
  }

  /** The attempts of one turn of a call. */
  ghost predicate OneTurn(s: seq<Attempt>, t: seq<Attempt>, step: Step, resynced: bool) {
    && s <= t && TurnFollowedExactly(t, |s|, resynced)
    && (!step.Done? ==> !Limited(t[|t| - 1]))
    && (step.Again? ==> forall i :: |s| <= i < |t| ==> !PassedTime(t[i]))
    && (step.Resynced? ==> !resynced && PassedTime(t[|t| - 1]))
    && OfKind(t, Signed) == OfKind(s, Signed) + 1 && OfKind(t, Public) == OfKind(s, Public)
    && OfKind(t, Time) <= OfKind(s, Time) + (if resynced then 0 else if step.Again? then 1 else 2)
    && Transients(t) == Transients(s) + if step.Again? then 1 else 0
  }

  /** The attempts of a call so far, which began with attempts `s`. */
  ghost predicate InCall(s: seq<Attempt>, t: seq<Attempt>, transient: nat, resynced: bool) {
    && s <= t && LimitsFollowedExactly(t, |s|) && (|t| > |s| ==> !Limited(t[|t| - 1]))
    && resynced == ResyncedBefore(t, |s|, |t|)
    && OfKind(t, Signed) == OfKind(s, Signed) + transient + (if resynced then 1 else 0) && OfKind(t, Public) == OfKind(s, Public)
    && OfKind(t, Time) <= OfKind(s, Time) + transient + (if resynced then 2 else 0)
    && Transients(t) == Transients(s) + transient
  }

  lemma CallBegins(s: seq<Attempt>)
    ensures InCall(s, s, 0, false)
  {
  }

  lemma TurnInCall(s: seq<Attempt>, t: seq<Attempt>, u: seq<Attempt>, step: Step, transient: nat, resynced: bool)
    requires InCall(s, t, transient, resynced) && OneTurn(t, u, step, resynced)
    ensures s <= u && LimitsFollowedExactly(u, |s|)
    ensures step.Resynced? ==> InCall(s, u, transient, true)
    ensures step.Again? ==> InCall(s, u, transient + 1, resynced)
    ensures OfKind(u, Signed) <= OfKind(s, Signed) + transient + 2 && OfKind(u, Time) <= OfKind(s, Time) + transient + 2
    ensures OfKind(u, Public) == OfKind(s, Public)
    ensures step.Done? ==> Transients(u) == Transients(s) + transient
  {
    TurnKeepsLimits(t, u, |s|, resynced);
    if step.Again? {
      NoNewTime(t, u, |s|);
    }
    hide LimitsFollowedExactly, TurnFollowedExactly, OfKind, Transients;
  }

  // ---------- Timestamps ----------

  /** Strictly increasing and below `t`. */
  predicate ClimbsBelow(s: seq<int>, t: int) {
    s == [] || (s[|s| - 1] < t && ClimbsBelow(s[..|s| - 1], s[|s| - 1]))
  }

  lemma ClimbsAppend(s: seq<int>, t: int)
    ensures ClimbsBelow(s, t) ==> ClimbsBelow(s + [t], t + 1)
  {
    assert (s + [t])[..|s|] == s;
  }

  lemma {:induction false} ClimbsAt(s: seq<int>, t: int, i: nat, j: nat)
    requires ClimbsBelow(s, t) && i < j < |s|
    ensures s[i] < s[j] < t
  {
    var init, last := s[..|s| - 1], s[|s| - 1];
    if j < |init| {
      ClimbsAt(init, last, i, j);
    } else if i < |init| - 1 {
      ClimbsAt(init, last, i, |init| - 1);
    }
  }

  // ---------- Cooldown ----------

  /** What a provider meets: the server, both clocks and the source of tracked symbols, each by the
      number of earlier uses. */
  datatype World = World(server: nat -> Reply, wall: nat -> int, mono: nat -> real, tracked: nat -> set<string>)

  /** Retry-After wins over a ban time, which wins over the minute window of a 429. */
  function Wait(r: Reply, now: int): real
    requires r.HttpError?
  {
    if r.retryAfter.Some? && r.retryAfter.value > 0.0 then r.retryAfter.value
    else if r.bannedUntil.Some? then
      var ms := if r.bannedUntil.value >= 10_000_000_000 then r.bannedUntil.value else r.bannedUntil.value * 1000;
      Max(0.0, (ms - now) as real / 1000.0)
    else if r.status == 429 && r.perMinute then 60.0
    else 0.0
  }

  function Max(a: real, b: real): real {
    if a < b then b else a
  }

  /** What a run did that matters for the cooldown. `Begun` names the reading of the monotonic clock that
      let a snapshot begin; `Sent` names that snapshot, the request, and the readings of the clocks that
      its reply's wait is registered with, if it asks for one. */
  datatype Event = Begun(read: nat) | Sent(begin: nat, request: nat, wallRead: nat, monoRead: nat) | Completed

  /** The wait that a request's reply asks for. */
  function WaitAsked(w: World, e: Event): real
    requires e.Sent?
  {
    if IsLimit(w.server(e.request)) then Wait(w.server(e.request), w.wall(e.wallRead)) else 0.0
  }

  /** The cooldown deadline that a history leaves. */
  function Deadline(w: World, h: seq<Event>): real {
    if h == [] then 0.0
    else
      var before, last := Deadline(w, h[..|h| - 1]), h[|h| - 1];
      match last
      case Begun(_) => before
      case Sent(_, _, _, at) => if WaitAsked(w, last) > 0.0 then Max(before, w.mono(at) + WaitAsked(w, last)) else before
      case Completed => 0.0
  }

  /** The snapshot that began at `b` found the deadline of its history passed. */
  predicate Admitted(w: World, h: seq<Event>, b: nat) {
    b < |h| && h[b].Begun? && w.mono(h[b].read) >= Deadline(w, h[..b])
  }

  function Sents(h: seq<Event>): nat {
    if h == [] then 0 else Sents(h[..|h| - 1]) + if h[|h| - 1].Sent? then 1 else 0
  }

  /** Where the last snapshot began, unless it has completed. */
  function Open(h: seq<Event>): (b: int)
    ensures b < |h|
  {
    if h == [] then -1
    else
      match h[|h| - 1]
      case Begun(_) => |h| - 1
      case Sent(_, _, _, _) => Open(h[..|h| - 1])
      case Completed => -1
  }

  /** The readings of the wall clock that a history is behind. */
  function WallUsed(h: seq<Event>): nat {
    if h == [] then 0 else if h[|h| - 1].Sent? then h[|h| - 1].wallRead else WallUsed(h[..|h| - 1])
  }

  /** The readings of the monotonic clock that a history is behind. */
  function MonoUsed(h: seq<Event>): nat {
    if h == [] then 0
    else
      match h[|h| - 1]
      case Begun(read) => read + 1
      case Sent(_, _, _, read) => read
      case Completed => MonoUsed(h[..|h| - 1])
  }

  /** What may come next: a snapshot begins with a reading behind the deadline; the requests are logged in
      their order, each for the snapshot under way; clocks are read in the order of the log. */
  predicate MayFollow(w: World, h: seq<Event>, e: Event) {
    match e
    case Begun(read) => MonoUsed(h) <= read && w.mono(read) >= Deadline(w, h)
    case Sent(b, request, wallRead, monoRead) =>
      Open(h) == b && request == Sents(h) && WallUsed(h) <= wallRead && MonoUsed(h) <= monoRead
    case Completed => true
  }

  predicate Respectful(w: World, h: seq<Event>) {
    h == [] || (Respectful(w, h[..|h| - 1]) && MayFollow(w, h[..|h| - 1], h[|h| - 1]))
  }

  lemma HistoryAppend(w: World, h: seq<Event>, e: Event)
    requires Respectful(w, h) && MayFollow(w, h, e)
    ensures Respectful(w, h + [e])
    ensures Sents(h + [e]) == Sents(h) + if e.Sent? then 1 else 0
    ensures Open(h + [e]) == match e case Begun(_) => |h| case Sent(_, _, _, _) => Open(h) case Completed => -1
    ensures WallUsed(h + [e]) == if e.Sent? then e.wallRead else WallUsed(h)
    ensures MonoUsed(h + [e]) == match e case Begun(read) => read + 1 case Sent(_, _, _, read) => read case Completed => MonoUsed(h)
    ensures e.Begun? ==> Deadline(w, h + [e]) == Deadline(w, h)
    ensures e.Completed? ==> Deadline(w, h + [e]) == 0.0
    ensures e.Sent? ==>
              Deadline(w, h + [e]) == if WaitAsked(w, e) > 0.0 then Max(Deadline(w, h), w.mono(e.monoRead) + WaitAsked(w, e))
                                      else Deadline(w, h)
  {
    assert (h + [e])[..|h|] == h;
  }

  /** Behind its begin the snapshot under way has only sent, each request under its own name. */
  lemma {:induction false} OpenSince(w: World, h: seq<Event>, j: nat)
    requires Respectful(w, h) && 0 <= Open(h) <= j < |h|
    ensures if j == Open(h) then h[j].Begun? else h[j].Sent? && h[j].begin == Open(h)
  {
    if h[|h| - 1].Sent? && j < |h| - 1 {
      OpenSince(w, h[..|h| - 1], j);
    }
  }

  lemma {:induction false} RespectfulUpTo(w: World, h: seq<Event>, n: nat)
    requires Respectful(w, h) && n <= |h|
    ensures Respectful(w, h[..n])
    ensures n < |h| ==> MayFollow(w, h[..n], h[n])
  {
    if n < |h| {
      RespectfulUpTo(w, h[..|h| - 1], n);
      assert h[..|h| - 1][..n] == h[..n];
    } else {
      assert h[..n] == h;
    }
  }

  /** The clock readings of the log's entries are in the order of the log. */
  lemma {:induction false} ReadInOrder(w: World, h: seq<Event>, i: nat)
    requires Respectful(w, h) && i < |h|
    ensures h[i].Begun? ==> h[i].read < MonoUsed(h)
    ensures h[i].Sent? ==> h[i].wallRead <= WallUsed(h) && h[i].monoRead <= MonoUsed(h)
  {
    if i < |h| - 1 {
      ReadInOrder(w, h[..|h| - 1], i);
    }
  }

  /** History `t` is `h` and the log of one snapshot, which began with this reading of the monotonic clock
      and completed or not. */
  predicate Episode(h: seq<Event>, t: seq<Event>, read: nat, complete: bool) {
    var sent := if complete && t != [] then t[..|t| - 1] else t;
    && h <= sent && Open(sent) == |h| && sent[|h|] == Begun(read)
    && (complete ==> t == sent + [Completed])
  }

  /** Entry by entry: the begin, then requests that name it and whose clocks were read after it, and the
      completion of a complete snapshot only. */
  lemma EpisodeAt(w: World, h: seq<Event>, t: seq<Event>, read: nat, complete: bool, j: nat)
    requires Respectful(w, t) && Episode(h, t, read, complete) && |h| <= j < |t|
    ensures if j == |h| then t[j] == Begun(read)
            else if complete && j == |t| - 1 then t[j] == Completed
            else t[j].Sent? && t[j].begin == |h| && read < t[j].monoRead && WallUsed(h) <= t[j].wallRead
  {
    var sent := if complete then t[..|t| - 1] else t;
    RespectfulUpTo(w, t, |sent|);
    assert t[..|sent|] == sent;
    if |h| < j < |sent| {
      OpenSince(w, sent, j);
      RespectfulUpTo(w, sent, j);
      ReadInOrder(w, sent[..j], |h|);
      WallGrows(w, sent[..j], |h|);
      assert sent[..j][..|h|] == h;
    }
  }

  lemma {:induction false} WallGrows(w: World, h: seq<Event>, n: nat)
    requires Respectful(w, h) && n <= |h|
    ensures WallUsed(h[..n]) <= WallUsed(h)
  {
    if n < |h| {
      WallGrows(w, h[..|h| - 1], n);
      assert h[..|h| - 1][..n] == h[..n];
    } else {
      assert h[..n] == h;
    }
  }

  /** Where request `k` is logged. */
  function IndexOf(h: seq<Event>, k: nat): (i: nat)
    requires k < Sents(h)
    ensures i < |h| && h[i].Sent?
  {
    if h[|h| - 1].Sent? && Sents(h[..|h| - 1]) == k then |h| - 1 else IndexOf(h[..|h| - 1], k)
  }

  lemma {:induction false} LoggedAt(w: World, h: seq<Event>, k: nat)
    requires Respectful(w, h) && k < Sents(h)
    ensures h[IndexOf(h, k)].request == k
  {
    if !(h[|h| - 1].Sent? && Sents(h[..|h| - 1]) == k) {
      LoggedAt(w, h[..|h| - 1], k);
    }
  }

  /** A logged request names a snapshot that was admitted, the last one to begin before it. */
  lemma SentWasAdmitted(w: World, h: seq<Event>, j: nat)
    requires Respectful(w, h) && j < |h| && h[j].Sent?
    ensures h[j].begin < j && Admitted(w, h, h[j].begin)
    ensures forall i :: h[j].begin < i < j ==> h[i].Sent?
  {
    var b := h[j].begin;
    RespectfulUpTo(w, h, j);
    OpenSince(w, h[..j], b);
    RespectfulUpTo(w, h, b);
    forall i | b < i < j ensures h[i].Sent? {
      OpenSince(w, h[..j], i);
    }
  }

  /** What was sent for an earlier snapshot was sent before the later one began. */
  lemma EarlierSnapshotSentBefore(w: World, h: seq<Event>, i: nat, j: nat)
    requires Respectful(w, h) && i < |h| && j < |h| && h[i].Sent? && h[j].Sent? && h[i].begin < h[j].begin
    ensures i < h[j].begin
  {
    SentWasAdmitted(w, h, i);
    SentWasAdmitted(w, h, j);
    assert h[h[j].begin].Begun?;
  }

  lemma {:induction false} DeadlineCovers(w: World, h: seq<Event>, i: nat)
    requires i < |h| && h[i].Sent? && WaitAsked(w, h[i]) > 0.0
    requires forall k :: i < k < |h| ==> !h[k].Completed?
    ensures Deadline(w, h) >= w.mono(h[i].monoRead) + WaitAsked(w, h[i])
  {
    if i < |h| - 1 {
      DeadlineCovers(w, h[..|h| - 1], i);
    }
  }

  /** In every run: when the reply to request `k` was a rate limit that asks for a wait, and request `m`
      belongs to a later snapshot, with no complete snapshot in between, then that snapshot read the
      monotonic clock after the wait had elapsed. */
  lemma NothingSentDuringCooldown(w: World, h: seq<Event>, k: nat, m: nat)
    requires Respectful(w, h) && k < Sents(h) && m < Sents(h)
    requires var i := IndexOf(h, k);
             IsLimit(w.server(k)) && Wait(w.server(k), w.wall(h[i].wallRead)) > 0.0
    requires h[IndexOf(h, k)].begin < h[IndexOf(h, m)].begin
    requires forall n :: IndexOf(h, k) < n < h[IndexOf(h, m)].begin && n < |h| ==> !h[n].Completed?
    ensures var i, b := IndexOf(h, k), h[IndexOf(h, m)].begin;
            && i < b < IndexOf(h, m) && h[b].Begun? && h[i].monoRead <= h[b].read
            && w.mono(h[b].read) - w.mono(h[i].monoRead) >= Wait(w.server(k), w.wall(h[i].wallRead))
  {
    var i, j := IndexOf(h, k), IndexOf(h, m);
    var b := h[j].begin;
    LoggedAt(w, h, k);
    SentWasAdmitted(w, h, j);
    EarlierSnapshotSentBefore(w, h, i, j);
    RespectfulUpTo(w, h, b);
    ReadInOrder(w, h[..b], i);
    DeadlineCovers(w, h[..b], i);
  }

  lemma {:induction false} IndexStays(h: seq<Event>, t: seq<Event>, k: nat)
    requires h <= t && k < Sents(h)
    ensures k < Sents(t) && IndexOf(t, k) == IndexOf(h, k)
    decreases |t|
  {
    if |h| < |t| {
      IndexStays(h, t[..|t| - 1], k);
    } else {
      assert h == t;
    }
  }

  lemma {:induction false} IndexBehind(h: seq<Event>, t: seq<Event>, k: nat)
    requires h <= t && Sents(h) <= k < Sents(t)
    ensures |h| <= IndexOf(t, k)
    decreases |t|
  {
    assert |h| == |t| ==> h == t;
    if !(t[|t| - 1].Sent? && Sents(t[..|t| - 1]) == k) {
      IndexBehind(h, t[..|t| - 1], k);
    }
  }

  /** The snapshot that sent request `m` began after the wait that the reply to request `k` asked for. */
  ghost predicate WaitedFor(w: World, h: seq<Event>, k: nat, m: nat)
    requires k < Sents(h) && m < Sents(h)
  {
    var i, b := IndexOf(h, k), h[IndexOf(h, m)].begin;
    && i < b < |h| && h[b].Begun? && h[i].monoRead <= h[b].read
    && w.mono(h[b].read) - w.mono(h[i].monoRead) >= WaitAsked(w, h[i])
  }

  /** Of two snapshots in a row, the first of them incomplete: whatever the second sends, it began after every
      wait that a rate limit asked the first for. */
  lemma SecondSnapshotWaits(w: World, h0: seq<Event>, h1: seq<Event>, h2: seq<Event>, first: nat, second: nat, complete: bool, k: nat, m: nat)
    requires Respectful(w, h1) && Respectful(w, h2)
    requires Episode(h0, h1, first, false) && Episode(h1, h2, second, complete) && h1 <= h2
    requires Sents(h0) <= k < Sents(h1) <= m < Sents(h2)
    requires WaitAsked(w, h2[IndexOf(h2, k)]) > 0.0
    ensures WaitedFor(w, h2, k, m) && h2[h2[IndexOf(h2, m)].begin] == Begun(second)
  {
    IndexStays(h1, h2, k);
    IndexBehind(h0, h1, k);
    IndexBehind(h1, h2, m);
    LoggedAt(w, h2, k);
    var i, j := IndexOf(h2, k), IndexOf(h2, m);
    EpisodeAt(w, h0, h1, first, false, i);
    EpisodeAt(w, h1, h2, second, complete, j);
    EpisodeAt(w, h1, h2, second, complete, |h1|);
    forall n | i < n < |h1| ensures !h2[n].Completed? {
      EpisodeAt(w, h0, h1, first, false, n);
    }
    hide Respectful, Episode, Open, Sents;
    NothingSentDuringCooldown(w, h2, k, m);
  }
}
