/** The read-only reconciliation provider: signed requests with retries, clock resynchronization
    and rate-limit cooldown against an arbitrary server, ending in a snapshot that is complete or
    marked incomplete. */
module Provider {
  import opened Options
  import opened Payloads
  import opened Protocol
  import opened Gathering
  import Sorting
  import Symbols

  class Client {
    const cfg: Config
    const world: World

    var requests: nat
    var wallReads: nat
    var monoReads: nat
    var trackedReads: nat
    var timeOffset: int
    var lastTimestamp: int
    var cooldownUntil: real
    var requestCount: nat
    var attempts: seq<Attempt>

    ghost var requestsBefore: nat
    ghost var signedAt: seq<int>
    ghost var signedBefore: nat
    ghost var history: seq<Event>
    ghost var begin: nat

    constructor (cfg: Config, world: World)
      ensures Valid() && this.cfg == cfg && this.world == world
      ensures requests == trackedReads == monoReads == 0 && cooldownUntil == 0.0
      ensures signedAt == [] && history == [] && attempts == []
    {
      this.cfg, this.world := cfg, world;
      requests, wallReads, monoReads, trackedReads := 0, 0, 0, 0;
      timeOffset, lastTimestamp, cooldownUntil := 0, 0, 0.0;
      requestCount, attempts := 0, [];
      requestsBefore, signedAt, signedBefore, history, begin := 0, [], 0, [], 0;
    }

    // ---------- What holds between requests ----------

    /** The attempts are exactly the uses of the server since the snapshot began, numbered and told
        apart by their replies; over the whole life signed timestamps strictly increase, one for each
        signed attempt. */
    ghost predicate Ledger()
      reads this`requests, this`requestsBefore, this`requestCount, this`attempts, this`signedAt, this`signedBefore, this`lastTimestamp
    {
      && requestCount == |attempts| && requests == requestsBefore + |attempts|
      && Recorded(attempts) && Matches(attempts, world.server, requestsBefore)
      && ClimbsBelow(signedAt, lastTimestamp + 1)
      && |signedAt| == signedBefore + OfKind(attempts, Signed)
    }

    /** Over the whole life every use of the server is logged, under the snapshot that it was for and with
        its readings of the clocks, and no snapshot began inside a cooldown. */
    ghost predicate Paced()
      reads this`requests, this`wallReads, this`monoReads, this`cooldownUntil, this`history
    {
      && cooldownUntil == Deadline(world, history) && Respectful(world, history) && Sents(history) == requests
      && WallUsed(history) <= wallReads && MonoUsed(history) <= monoReads
    }

    /** A snapshot is under way. */
    ghost predicate Underway()
      reads this`requests, this`wallReads, this`monoReads, this`cooldownUntil, this`history, this`begin
    {
      Paced() && Open(history) == begin
    }

    ghost predicate Valid()
      reads this
    {
      Ledger() && Paced()
    }

    ghost predicate Active()
      reads this
    {
      Ledger() && Underway()
    }

    /** What every request keeps or only lets grow. */
    twostate predicate Progressed()
      reads this
    {
      && begin == old(begin) && signedBefore == old(signedBefore) && requestsBefore == old(requestsBefore)
      && old(signedAt) <= signedAt && old(history) <= history
      && cooldownUntil >= old(cooldownUntil)
    }

    /** The attempts of kind `k` grew by `n`; the others, and the transient retries, did not. */
    twostate predicate Grown(n: nat, k: Kind)
      reads this
    {
      && OfKind(attempts, Signed) == OfKind(old(attempts), Signed) + (if k.Signed? then n else 0)
      && OfKind(attempts, Time) == OfKind(old(attempts), Time) + (if k.Time? then n else 0)
      && OfKind(attempts, Public) == OfKind(old(attempts), Public) + (if k.Public? then n else 0)
      && Transients(attempts) == Transients(old(attempts))
    }

    function Last(): Attempt
      requires attempts != []
      reads this`attempts
    {
      attempts[|attempts| - 1]
    }

    lemma LastAnswers()
      requires Ledger() && attempts != []
      ensures requests > 0 && Answers(Last(), world.server(requests - 1))
    {
    }

    // ---------- Clocks ----------

    method Now() returns (t: int)
      modifies this`wallReads
      ensures wallReads == old(wallReads) + 1 && t == world.wall(old(wallReads))
    {
      t := world.wall(wallReads);
      wallReads := wallReads + 1;
    }

    method Monotonic() returns (t: real)
      modifies this`monoReads
      ensures monoReads == old(monoReads) + 1 && t == world.mono(old(monoReads))
    {
      t := world.mono(monoReads);
      monoReads := monoReads + 1;
    }

    method Tracked() returns (names: set<string>)
      modifies this`trackedReads
      ensures trackedReads == old(trackedReads) + 1 && names == world.tracked(old(trackedReads))
    {
      names := world.tracked(trackedReads);
      trackedReads := trackedReads + 1;
    }

    // ---------- One request ----------

    /** The deadline is extended by the wait that the reply asks for, never shortened. */
    method RegisterCooldown(reply: Reply)
      requires reply.HttpError?
      modifies this`wallReads, this`monoReads, this`cooldownUntil
      ensures var seconds := Wait(reply, world.wall(old(wallReads)));
              cooldownUntil == if seconds > 0.0 then Max(old(cooldownUntil), world.mono(old(monoReads)) + seconds)
                               else old(cooldownUntil)
      ensures wallReads >= old(wallReads) && monoReads >= old(monoReads)
    {
      var now := world.wall(wallReads);
      if reply.bannedUntil.Some? {
        now := Now();
      }
      var seconds := Wait(reply, now);
      if seconds > 0.0 {
        var at := Monotonic();
        cooldownUntil := Max(cooldownUntil, at + seconds);
      }
    }

    /** The cooldown after a reply, by the readings of the clocks that follow it. */
    function CooldownAfter(reply: Reply, before: real, wallRead: nat, monoRead: nat): real {
      if IsLimit(reply) && Wait(reply, world.wall(wallRead)) > 0.0
      then Max(before, world.mono(monoRead) + Wait(reply, world.wall(wallRead)))
      else before
    }

    method NoteLimit(reply: Reply)
      modifies this`wallReads, this`monoReads, this`cooldownUntil
      ensures cooldownUntil == CooldownAfter(reply, old(cooldownUntil), old(wallReads), old(monoReads))
      ensures cooldownUntil >= old(cooldownUntil) && wallReads >= old(wallReads) && monoReads >= old(monoReads)
      ensures !IsLimit(reply) ==> wallReads == old(wallReads) && monoReads == old(monoReads)
    {
      if IsLimit(reply) {
        RegisterCooldown(reply);
      }
    }

    method LogAttempt(attempt: Attempt)
      requires requestCount == |attempts| && requests == requestsBefore + |attempts| + 1
      requires Recorded(attempts) && Matches(attempts, world.server, requestsBefore) && Unlimited(attempts)
      requires ClimbsBelow(signedAt, lastTimestamp + 1) && |signedAt| == signedBefore + OfKind(attempts, Signed)
      requires attempt.sequence == |attempts| + 1 && attempt.outcome != Retry && Answers(attempt, world.server(requests - 1))
      requires attempt.kind.Signed? ==> ClimbsBelow(signedAt, lastTimestamp)
      modifies this`requestCount, this`attempts, this`signedAt
      ensures Ledger()
      ensures attempts == old(attempts) + [attempt]
      ensures Grown(1, attempt.kind) && Stops(attempts, !Limited(attempt)) && Stops(attempts, false)
      ensures signedAt == old(signedAt) + if attempt.kind.Signed? then [lastTimestamp] else []
    {
      AttemptAppend(attempts, attempt);
      MatchesAppend(attempts, attempt, world.server, requestsBefore);
      ClimbsAppend(signedAt, lastTimestamp);
      hide OfKind, Recorded, Matches, ClimbsBelow, Unlimited, Transients, Answers;
      requestCount := requestCount + 1;
      attempts := attempts + [attempt];
      if attempt.kind.Signed? {
        signedAt := signedAt + [lastTimestamp];
      }
    }

    /** One use of the server is logged with the readings that its wait was registered with. */
    ghost method LogSent(was: real, wallRead: nat, monoRead: nat)
      requires requests > 0 && was == Deadline(world, history) && Respectful(world, history) && Sents(history) == requests - 1
      requires Open(history) == begin && WallUsed(history) <= wallRead <= wallReads && MonoUsed(history) <= monoRead <= monoReads
      requires cooldownUntil == CooldownAfter(world.server(requests - 1), was, wallRead, monoRead)
      modifies this`history
      ensures Underway() && history == old(history) + [Sent(begin, requests - 1, wallRead, monoRead)]
    {
      HistoryAppend(world, history, Sent(begin, requests - 1, wallRead, monoRead));
      history := history + [Sent(begin, requests - 1, wallRead, monoRead)];
    }

    method HttpOperation(endpoint: Endpoint, symbol: Option<string>, kind: Kind, number: nat, reason: Reason) returns (reply: Reply)
      requires Active() && Unlimited(attempts)
      requires kind.Signed? ==> ClimbsBelow(signedAt, lastTimestamp)
      modifies this`requests, this`requestCount, this`attempts, this`wallReads, this`monoReads, this`cooldownUntil, this`history, this`signedAt
      ensures Active() && Progressed()
      ensures requests == old(requests) + 1 && reply == world.server(old(requests))
      ensures attempts == old(attempts) + [Observed(|old(attempts)| + 1, endpoint, symbol, kind, number, reason, reply)]
      ensures Grown(1, kind) && Stops(attempts, !IsLimit(reply)) && Stops(attempts, false)
      ensures cooldownUntil == CooldownAfter(reply, old(cooldownUntil), old(wallReads), old(monoReads))
      ensures history == old(history) + [Sent(begin, old(requests), old(wallReads), old(monoReads))]
      ensures signedAt == old(signedAt) + if kind.Signed? then [lastTimestamp] else []
      ensures !IsLimit(reply) ==> wallReads == old(wallReads) && monoReads == old(monoReads)
    {
      hide OfKind, Recorded, Matches, ClimbsBelow, Deadline, Respectful, Unlimited, Open, WallUsed, MonoUsed, Transients, Sents,
           CooldownAfter, Answers, Limited, IsLimit;
      reply := world.server(requests);
      requests := requests + 1;
      LogAttempt(Observed(requestCount + 1, endpoint, symbol, kind, number, reason, reply));
      ghost var was, wallRead, monoRead := cooldownUntil, wallReads, monoReads;
      NoteLimit(reply);
      LogSent(was, wallRead, monoRead);
    }

    /** The last attempt becomes a retry, as the handlers rewrite it. */
    method AmendToRetry(reason: Reason, code: Option<int>)
      requires Active() && attempts != [] && Stops(attempts, false) && Last().outcome != Retry
      requires MayRetry(Last().(reason := reason, code := code))
      requires Answers(Last().(outcome := Retry, reason := reason, code := code), world.server(requests - 1))
      modifies this`attempts
      ensures Active() && Unlimited(attempts) && |attempts| == |old(attempts)|
      ensures attempts[..|attempts| - 1] == old(attempts)[..|attempts| - 1]
      ensures Last() == old(Last()).(outcome := Retry, reason := reason, code := code)
      ensures forall k :: OfKind(attempts, k) == OfKind(old(attempts), k)
      ensures Transients(attempts) == Transients(old(attempts)) + if reason == TransientFailure then 1 else 0
    {
      hide OfKind, Recorded, Matches, ClimbsBelow, Deadline, Respectful, Open, WallUsed, MonoUsed, Transients, Sents, Unlimited;
      var n := |attempts| - 1;
      var last := attempts[n];
      Amend(last.(outcome := Retry, reason := reason, code := code));
      AttemptAppend(attempts[..n], last);
      AttemptAppend(attempts[..n], last.(outcome := Retry, reason := reason, code := code));
      attempts := attempts[..n] + [last.(outcome := Retry, reason := reason, code := code)];
    }

    /** A body with an error code: the attempt failed after all. */
    method AmendToFail(code: int)
      requires Active() && attempts != [] && Unlimited(attempts) && Last().outcome == Pass && Last().status.None?
      modifies this`attempts
      ensures Active() && Unlimited(attempts) && |attempts| == |old(attempts)|
      ensures attempts[..|attempts| - 1] == old(attempts)[..|attempts| - 1]
      ensures Last() == old(Last()).(outcome := Fail, code := Some(code))
      ensures Grown(0, Signed)
    {
      hide OfKind, Recorded, Matches, ClimbsBelow, Deadline, Respectful, Open, WallUsed, MonoUsed, Transients, Sents, Unlimited;
      var n := |attempts| - 1;
      var last := attempts[n];
      LastAnswers();
      Amend(last.(outcome := Fail, code := Some(code)));
      AttemptAppend(attempts[..n], last);
      AttemptAppend(attempts[..n], last.(outcome := Fail, code := Some(code)));
      attempts := attempts[..n] + [last.(outcome := Fail, code := Some(code))];
    }

    /** The last attempt can be rewritten to one that still tells the same of its reply. */
    lemma Amend(last: Attempt)
      requires Ledger() && attempts != [] && Answers(last, world.server(requests - 1))
      ensures attempts == attempts[..|attempts| - 1] + [Last()]
      ensures Matches(attempts[..|attempts| - 1] + [last], world.server, requestsBefore)
    {
      var init := attempts[..|attempts| - 1];
      MatchesAppend(init, Last(), world.server, requestsBefore);
      MatchesAppend(init, last, world.server, requestsBefore);
    }

    /** One request for the server's time; a usable reply sets the offset to the difference of the clocks. */
    method RefreshServerTime() returns (r: Refresh)
      requires Active() && Unlimited(attempts)
      modifies this`requests, this`requestCount, this`attempts, this`wallReads, this`monoReads, this`cooldownUntil, this`history, this`signedAt, this`timeOffset
      ensures Active() && Progressed() && signedAt == old(signedAt)
      ensures requests == old(requests) + 1 && r == RefreshOf(world.server(old(requests)))
      ensures attempts == old(attempts) + [Observed(|old(attempts)| + 1, ServerTime, None, Time, 1, ClockSkew, world.server(old(requests)))]
      ensures Grown(1, Time) && Stops(attempts, r.Raised? ==> !IsLimit(r.reply)) && Stops(attempts, false)
      ensures r.Refreshed? ==> wallReads == old(wallReads) + 1
      ensures r.Refreshed? ==> timeOffset == IntOf(Field(world.server(old(requests)).payload, "serverTime")).value - world.wall(old(wallReads))
      ensures !r.Refreshed? ==> timeOffset == old(timeOffset)
    {
      hide OfKind, Recorded, Matches, ClimbsBelow, Deadline, Respectful, Unlimited, Open, WallUsed, MonoUsed, Transients, Sents, CooldownAfter;
      var reply := HttpOperation(ServerTime, None, Time, 1, ClockSkew);
      if !reply.Body? {
        return Raised(reply);
      }
      var time := IntOf(Field(reply.payload, "serverTime"));
      if time.None? {
        return BadPayload;
      }
      var now := Now();
      timeOffset := time.value - now;
      r := Refreshed;
    }

    // ---------- A signed call ----------

    /** The timestamp of the next signed request is the corrected clock, or one more than the last one when
        the clock went back. */
    method NextTimestamp()
      requires Active()
      modifies this`lastTimestamp, this`wallReads
      ensures Active() && ClimbsBelow(signedAt, lastTimestamp) && wallReads == old(wallReads) + 1
      ensures var now := world.wall(old(wallReads)) + timeOffset;
              lastTimestamp == if now > old(lastTimestamp) + 1 then now else old(lastTimestamp) + 1
    {
      hide OfKind, Recorded, Matches, Deadline, Respectful, Open, WallUsed, MonoUsed, Sents;
      var now := Now();
      lastTimestamp := if now + timeOffset > lastTimestamp + 1 then now + timeOffset else lastTimestamp + 1;
    }

    /** Signs and sends once. */
    method SendSigned(endpoint: Endpoint, symbol: Option<string>, number: nat) returns (reply: Reply)
      requires Active() && Unlimited(attempts)
      modifies this
      ensures Active() && Progressed() && trackedReads == old(trackedReads)
      ensures requests == old(requests) + 1 && reply == world.server(old(requests))
      ensures attempts == old(attempts) + [Observed(|old(attempts)| + 1, endpoint, symbol, Signed, number, NoReason, reply)]
      ensures Grown(1, Signed) && Stops(attempts, !IsLimit(reply)) && Stops(attempts, false)
      ensures var now := world.wall(old(wallReads)) + timeOffset;
              lastTimestamp == if now > old(lastTimestamp) + 1 then now else old(lastTimestamp) + 1
      ensures timeOffset == old(timeOffset) && signedAt == old(signedAt) + [lastTimestamp]
    {
      hide OfKind, Recorded, Matches, ClimbsBelow, Deadline, Respectful, Unlimited, Open, WallUsed, MonoUsed, Transients, Sents;
      NextTimestamp();
      reply := HttpOperation(endpoint, symbol, Signed, number, NoReason);
    }

    /** After a clock-skew error the attempt is marked and the server's time is read. */
    method Resync() returns (r: Refresh)
      requires Active() && attempts != [] && Stops(attempts, false) && Last().outcome != Retry
      requires Answers(Last().(outcome := Retry, code := Some(-1021)), world.server(requests - 1))
      modifies this
      ensures Active() && Progressed() && trackedReads == old(trackedReads)
      ensures requests == old(requests) + 1 && r == RefreshOf(world.server(old(requests)))
      ensures Amended(old(attempts)[..|old(attempts)| - 1] + [old(Last()).(code := Some(-1021))], attempts, true)
      ensures Last().kind.Time? && Last().outcome != Retry && (Last().outcome.Pass? <==> !r.Raised?)
      ensures Limited(Last()) <==> r.Raised? && IsLimit(r.reply)
      ensures Grown(1, Time) && Stops(attempts, r.Raised? ==> !IsLimit(r.reply)) && Stops(attempts, false)
    {
      hide OfKind, Recorded, Matches, ClimbsBelow, Deadline, Respectful, Open, WallUsed, MonoUsed, Transients, Sents,
           Amended, Unlimited;
      AmendToRetry(ClockSkew, Some(-1021));
      ghost var retried := attempts;
      r := RefreshServerTime();
      RetriedAndAsked(old(attempts), retried, ClockSkew, Some(-1021), Last());
    }

    /** The handlers of one failed operation, in the source's order: clock skew, rate limit, refused
        credentials, transient failures while retries remain, everything else. Another request is sent
        here exactly when the reply says that the clock is off and it was not resynchronized yet. */
    method HandleError(reply: Reply, transient: nat, resynced: bool) returns (step: Step)
      requires Active() && attempts != [] && Last().outcome != Retry && transient <= Retries(cfg)
      requires !reply.Body? && reply == world.server(requests - 1)
      requires Stops(attempts, !IsLimit(reply)) && Stops(attempts, false)
      modifies this
      ensures Active() && Progressed() && trackedReads == old(trackedReads)
      ensures requests == old(requests) + if SkewsClock(reply) && !resynced then 1 else 0
      ensures Amended(old(attempts), attempts, SkewsClock(reply) && !resynced) && attempts != []
      ensures step.Again? ==> transient < Retries(cfg) && IsTransient(reply) && !(SkewsClock(reply) && !resynced)
      ensures step.Resynced? ==> !resynced && PassedTime(Last())
      ensures step.Done? ==> step.fetch.Failed?
      ensures !step.Done? ==> !Limited(Last())
      ensures Handled(world.server, Retries(cfg), reply, old(requests), transient, resynced)
              == After(world.server, Retries(cfg), step, requests, transient, resynced)
      ensures OfKind(attempts, Signed) == OfKind(old(attempts), Signed) && OfKind(attempts, Public) == OfKind(old(attempts), Public)
      ensures OfKind(attempts, Time) <= OfKind(old(attempts), Time) + if resynced || step.Again? then 0 else 1
      ensures Transients(attempts) == Transients(old(attempts)) + if step.Again? then 1 else 0
      ensures Stops(attempts, !step.Done?)
    {
      hide OfKind, Recorded, Matches, ClimbsBelow, Deadline, Respectful, Unlimited, Open, WallUsed, MonoUsed, Transients, Sents, Follow;
      LastAnswers();
      if reply.OtherError? {
        return Done(Failed(RequestFailure));
      }
      if reply.HttpError? {
        if reply.code == Some(-1021) && !resynced {
          var refresh := Resync();
          return match refresh
            case Refreshed => Resynced
            case Raised(_) => Done(Failed(RequestFailure))
            case BadPayload => Done(Failed(PayloadFailure));
        }
        if RateLimited(reply.status, reply.code) {
          return Done(Failed(PayloadFailure));
        }
        if reply.status == 401 || reply.status == 403 {
          return Done(Failed(AuthFailure));
        }
        if !(500 <= reply.status < 600) || transient >= Retries(cfg) {
          return Done(Failed(PayloadFailure));
        }
      } else if transient >= Retries(cfg) {
        return Done(Failed(RequestFailure));
      }
      AmendToRetry(TransientFailure, Last().code);
      step := Again;
    }

    /** The guarded block of one turn: an accepted body, a failure, or an error for the handlers.
        Reading the server's time happens inside it, so its failures reach the same handlers. */
    method Exchange(endpoint: Endpoint, symbol: Option<string>, number: nat, ghost transient: nat, resynced: bool)
      returns (step: Option<Step>, reply: Reply)
      requires Active() && Unlimited(attempts) && transient <= Retries(cfg)
      modifies this
      ensures Active() && Progressed() && trackedReads == old(trackedReads)
      ensures Exchanged(old(attempts), attempts, resynced)
      ensures step.None? ==> !reply.Body? && requests > 0 && reply == world.server(requests - 1)
      ensures step.None? ==> Last().outcome != Retry && Stops(attempts, !IsLimit(reply)) && Stops(attempts, false)
      ensures step.None? ==> Follow(world.server, Retries(cfg), old(requests), transient, resynced)
                             == Handled(world.server, Retries(cfg), reply, requests, transient, resynced)
      ensures step.Some? ==> Unlimited(attempts) && !step.value.Again? && !Limited(Last())
      ensures step.Some? ==> Follow(world.server, Retries(cfg), old(requests), transient, resynced)
                             == After(world.server, Retries(cfg), step.value, requests, transient, resynced)
      ensures step.Some? && step.value.Resynced? ==> !resynced && PassedTime(Last())
      ensures step.Some? && step.value.Done? && step.value.fetch.Fetched? ==> PassedBy(Last(), endpoint, symbol)
      ensures OfKind(attempts, Signed) == OfKind(old(attempts), Signed) + 1 && OfKind(attempts, Public) == OfKind(old(attempts), Public)
      ensures OfKind(attempts, Time) <= OfKind(old(attempts), Time) + if resynced then 0 else 1
      ensures Transients(attempts) == Transients(old(attempts))
    {
      hide OfKind, Recorded, Matches, ClimbsBelow, Deadline, Respectful, Open, WallUsed, MonoUsed, Transients, Sents, Handled,
           Exchanged, Amended, Unlimited;
      reply := SendSigned(endpoint, symbol, number);
      SentOnce(old(attempts), attempts, resynced);
      ghost var sent := Last();
      if !reply.Body? {
        return None, reply;
      }
      var code := ErrorCode(reply.payload);
      if code.None? {
        return Some(Done(Fetched(reply.payload))), reply;
      }
      if code.value != -1021 || resynced {
        AmendToFail(code.value);
        SentOnce(old(attempts), attempts, resynced);
        return Some(Done(Failed(AuthFailure))), reply;
      }
      var refresh := Resync();
      SentAndAsked(old(attempts), sent.(code := Some(-1021)), attempts);
      match refresh
      case Refreshed => step := Some(Resynced);
      case BadPayload => step := Some(Done(Failed(PayloadFailure)));
      case Raised(raised) => step, reply := None, raised;
    }

    /** One turn of the call. Within it a rate limit is followed by another request exactly under the
        guard of the clock-skew handler. */
    method Turn(endpoint: Endpoint, symbol: Option<string>, transient: nat, resynced: bool) returns (step: Step)
      requires Active() && Unlimited(attempts) && transient <= Retries(cfg)
      modifies this
      ensures Active() && Progressed() && trackedReads == old(trackedReads)
      ensures OneTurn(old(attempts), attempts, step, resynced) && attempts != []
      ensures step.Resynced? ==> !resynced
      ensures step.Again? ==> transient < Retries(cfg)
      ensures Follow(world.server, Retries(cfg), old(requests), transient, resynced)
              == After(world.server, Retries(cfg), step, requests, transient, resynced)
      ensures step.Done? && step.fetch.Fetched? ==> PassedBy(Last(), endpoint, symbol)
      ensures Stops(attempts, !(step.Done? && step.fetch.Failed?))
    {
      hide Ledger, Paced, OfKind, Recorded, Matches, ClimbsBelow, Deadline, Respectful, Open, WallUsed, MonoUsed, Transients, Sents, Handled, Follow;
      hide TurnFollowedExactly, Amended;
      var first, reply := Exchange(endpoint, symbol, transient + (if resynced then 1 else 0) + 1, transient, resynced);
      if first.Some? {
        DecidedTurn(old(attempts), attempts, resynced);
        return first.value;
      }
      LastAnswers();
      ghost var exchanged := attempts;
      step := HandleError(reply, transient, resynced);
      HandledTurn(old(attempts), exchanged, attempts, reply, resynced);
    }

    /** One signed call. It does what the replies call for, sends at most `Retries(cfg) + 2` signed
        requests and as many requests for the server's time, and repeats a rate-limited request exactly
        under the guard of the clock-skew handler. */
    method SignedGet(endpoint: Endpoint, symbol: Option<string>) returns (r: Fetch)
      requires Active() && Unlimited(attempts)
      modifies this
      ensures Active() && Progressed() && trackedReads == old(trackedReads)
      ensures Call(r, requests) == Follow(world.server, Retries(cfg), old(requests), 0, false)
      ensures old(attempts) <= attempts && requests - old(requests) == |attempts| - |old(attempts)|
      ensures LimitsFollowedExactly(attempts, |old(attempts)|)
      ensures Stops(attempts, r.Fetched?)
      ensures r.Fetched? ==> HasPassed(attempts, endpoint, symbol)
      ensures OfKind(attempts, Signed) <= OfKind(old(attempts), Signed) + (Transients(attempts) - Transients(old(attempts))) + 2
      ensures Transients(attempts) - Transients(old(attempts)) <= Retries(cfg)
      ensures OfKind(attempts, Time) <= OfKind(old(attempts), Time) + Retries(cfg) + 2
      ensures OfKind(attempts, Public) == OfKind(old(attempts), Public)
    {
      var transient, resynced := 0, false;
      CallBegins(attempts);
      hide OfKind, Recorded, Matches, ClimbsBelow, Deadline, Respectful, Open, WallUsed, MonoUsed, Transients, Sents, Follow, Unlimited;
      hide LimitsFollowedExactly, InCall, OneTurn;
      while true
        invariant Active() && Progressed() && trackedReads == old(trackedReads) && Unlimited(attempts)
        invariant InCall(old(attempts), attempts, transient, resynced) && transient <= Retries(cfg)
        invariant Follow(world.server, Retries(cfg), requests, transient, resynced)
                  == Follow(world.server, Retries(cfg), old(requests), 0, false)
        decreases Retries(cfg) - transient + if resynced then 0 else 1
      {
        ghost var before := attempts;
        var step := Turn(endpoint, symbol, transient, resynced);
        TurnInCall(old(attempts), before, attempts, step, transient, resynced);
        match step
        case Done(fetch) => return fetch;
        case Resynced => resynced := true;
        case Again => transient := transient + 1;
      }
    }

    // ---------- Stages of a snapshot ----------

    function SignedBudget(): nat {
      Retries(cfg) + 2
    }

    /** What `n` signed calls can cost in signed requests, and again in server-time requests. */
    function Calls(n: nat): nat {
      if n == 0 then 0 else Calls(n - 1) + SignedBudget()
    }

    lemma CallsOf(n: nat)
      ensures Calls(0) == 0 && Calls(n + 1) == Calls(n) + Calls(1)
    {
    }

    lemma {:induction false} CallsIsProduct(n: nat)
      ensures Calls(n) == n * SignedBudget()
    {
      if n > 0 {
        CallsIsProduct(n - 1);
      }
    }

    lemma {:induction false} CallsMonotone(n: nat, m: nat)
      requires n <= m
      ensures Calls(n) <= Calls(m)
    {
      if n < m {
        CallsMonotone(n, m - 1);
      }
    }

    lemma {:induction false} CallsAdd(n: nat, m: nat)
      ensures Calls(n + m) == Calls(n) + Calls(m)
    {
      if n > 0 {
        CallsAdd(n - 1, m);
      }
    }

    /** The requests of a stage: `n` signed calls and `m` public ones. */
    twostate predicate Spent(n: nat, m: nat)
      reads this
    {
      && old(attempts) <= attempts
      && OfKind(attempts, Signed) <= OfKind(old(attempts), Signed) + Calls(n)
      && OfKind(attempts, Time) <= OfKind(old(attempts), Time) + Calls(n)
      && OfKind(attempts, Public) <= OfKind(old(attempts), Public) + m
    }

    /** One unsigned request, never repeated. */
    method PublicGet(endpoint: Endpoint) returns (r: Fetch)
      requires Active() && Unlimited(attempts)
      modifies this
      ensures Active() && Progressed() && trackedReads == old(trackedReads)
      ensures requests == old(requests) + 1 && old(attempts) <= attempts
      ensures Stops(attempts, r.Fetched?) && Grown(1, Public)
      ensures r == if world.server(old(requests)).Body? then Fetched(world.server(old(requests)).payload) else Failed(RequestFailure)
    {
      hide OfKind, Recorded, Matches, ClimbsBelow, Deadline, Respectful, Open, WallUsed, MonoUsed, Transients, Sents;
      var reply := HttpOperation(endpoint, None, Public, 1, NoReason);
      r := if reply.Body? then Fetched(reply.payload) else Failed(RequestFailure);
    }

    /** Exchange information is looked up only when a name outside the usual shape needs it. */
    method LookupExchange(e: Evidence, reportPayload: bool) returns (e': Evidence, failure: Option<Failure>)
      requires Active() && Unlimited(attempts)
      modifies this
      ensures Active() && Progressed() && trackedReads == old(trackedReads)
      ensures Stops(attempts, failure.None?) && Grown(1, Public) && old(attempts) <= attempts
      ensures requests == old(requests) + 1
      ensures failure.None? <==> ListedAt(cfg.rules, world.server(old(requests))).Some?
      ensures failure.None? ==> e'.exchange == ListedAt(cfg.rules, world.server(old(requests))) && e'.statuses.exchangeInfo.Passed?
      ensures e' == e.(exchange := e'.exchange, statuses := e.statuses.(exchangeInfo := e'.statuses.exchangeInfo))
    {
      hide OfKind, Recorded, Matches, ClimbsBelow, Deadline, Respectful, Open, WallUsed, MonoUsed, Transients, Sents, ListedSymbols;
      e' := e.(statuses := e.statuses.(exchangeInfo := RequestFailed));
      var fetch := PublicGet(ExchangeInfo);
      if fetch.Failed? {
        return e', Some(fetch.failure);
      }
      var symbols := ExchangeSymbols(cfg.rules, fetch.payload);
      if symbols.None? {
        if reportPayload {
          e' := e'.(statuses := e'.statuses.(exchangeInfo := ValidationFailed));
        }
        return e', Some(PayloadFailure);
      }
      return e'.(exchange := symbols, statuses := e'.statuses.(exchangeInfo := Passed)), None;
    }

    /** What a look at the exchange information behind a payload comes to. */
    function LookResult(payload: Json, e': Evidence, failure: Option<Failure>): Option<Reading>
      reads this`requests
    {
      if failure.None? then Some(Reading(payload, e'.exchange, requests)) else None
    }

    method PositionsLookup(e: Evidence, payload: Json) returns (e': Evidence, failure: Option<Failure>)
      requires Active() && Unlimited(attempts) && e.exchange.None?
      modifies this
      ensures Active() && Progressed()
      ensures trackedReads == old(trackedReads) + if SomeRowNeedsLookup(cfg.rules, payload) then 0 else 1
      ensures Stops(attempts, failure.None?) && old(attempts) <= attempts
      ensures var need := SomeRowNeedsLookup(cfg.rules, payload) || NamesNeedLookup(cfg.rules, world.tracked(old(trackedReads)));
              LookResult(payload, e', failure) == Looked(cfg.rules, world.server, payload, need, None, old(requests))
      ensures Grown(0, Public) || Grown(1, Public)
      ensures failure.None? && e'.exchange.None? ==> Grown(0, Public)
      ensures e' == e.(exchange := e'.exchange, statuses := e.statuses.(exchangeInfo := e'.statuses.exchangeInfo))
    {
      hide Ledger, Paced, OfKind, Recorded, Matches, ClimbsBelow, Deadline, Respectful, Open, WallUsed, MonoUsed, Transients, Sents, ListedAt, SomeRowNeedsLookup, NeedsLookup;
      var need := PositionsNeedLookup(cfg.rules, payload);
      if !need {
        var names := Tracked();
        need := exists name :: name in names && NeedsLookup(cfg.rules, Text(name));
      }
      if !need {
        return e, None;
      }
      e', failure := LookupExchange(e, true);
    }

    /** Positions are covered exactly when the replies hold usable ones, and then are those. */
    method PositionStage(e: Evidence) returns (e': Evidence, failure: Option<Failure>)
      requires Active() && Unlimited(attempts) && e == NO_EVIDENCE
      modifies this
      ensures Active() && Progressed()
      ensures Stops(attempts, failure.None?)
      ensures Spent(1, 1) && (failure.None? && e'.exchange.None? ==> Spent(1, 0))
      ensures var read := PositionsRead(cfg.rules, world.server, Retries(cfg), world.tracked(old(trackedReads)), old(requests));
              && (failure.None? <==> read.Some?)
              && (failure.None? ==>
                    && read == Some(Reading(read.value.payload, e'.exchange, requests))
                    && Normalized(cfg.rules, read.value.payload, e'.exchange, e'.positions)
                    && world.tracked(trackedReads) == NamesForFills(cfg, world, read.value.payload, old(trackedReads)))
      ensures failure.None? ==> HasPassed(attempts, PositionRisk, None) && e'.statuses.positionRisk.Passed?
      ensures e' == e.(positions := e'.positions, warnings := e'.warnings, exchange := e'.exchange,
                       positionsCovered := failure.None?, statuses := e'.statuses)
    {
      hide Ledger, Paced, OfKind, Recorded, Matches, ClimbsBelow, Deadline, Respectful, Open, WallUsed, MonoUsed, Transients, Sents, Follow,
           LimitsFollowedExactly, Looked, Normalized, PositionsUsable, SomeRowNeedsLookup, NamesNeedLookup, HasPassed;
      e' := e;
      var fetch := SignedGet(PositionRisk, None);
      if fetch.Failed? {
        return e', Some(fetch.failure);
      }
      e' := e'.(statuses := e'.statuses.(positionRisk := RequestSucceeded));
      ghost var called := attempts;
      e', failure := PositionsLookup(e', fetch.payload);
      PassedStays(called, attempts, PositionRisk, None);
      if failure.Some? {
        return;
      }
      var result := NormalizePositions(cfg.rules, fetch.payload, e'.exchange);
      match result
      case Positions(rows, warnings) =>
        e' := e'.(positions := rows, warnings := warnings, positionsCovered := true,
                  statuses := e'.statuses.(positionRisk := Passed));
      case PositionsFailed(cause, kept) =>
        if !cause.RequestFailure? {
          e' := e'.(statuses := e'.statuses.(positionRisk := ValidationFailed));
        }
        if cause.ExposureFailure? {
          e' := e'.(positions := kept);
        }
        failure := Some(cause);
    }

    method OrdersLookup(e: Evidence, payload: Json) returns (e': Evidence, failure: Option<Failure>)
      requires Active() && Unlimited(attempts)
      modifies this
      ensures Active() && Progressed() && trackedReads == old(trackedReads)
      ensures Stops(attempts, failure.None?) && old(attempts) <= attempts
      ensures var need := e.exchange.None? && OrdersNeedLookup(cfg.rules, payload);
              LookResult(payload, e', failure) == Looked(cfg.rules, world.server, payload, need, e.exchange, old(requests))
      ensures Grown(0, Public) || (e.exchange.None? && Grown(1, Public))
      ensures e' == e.(exchange := e'.exchange, statuses := e.statuses.(exchangeInfo := e'.statuses.exchangeInfo))
    {
      hide Ledger, Paced, OfKind, Recorded, Matches, ClimbsBelow, Deadline, Respectful, Open, WallUsed, MonoUsed, Transients, Sents, ListedAt;
      if e.exchange.Some? || !OrdersNeedLookup(cfg.rules, payload) {
        return e, None;
      }
      e', failure := LookupExchange(e, false);
    }

    /** Open orders are covered exactly when the replies hold usable ones, and then are those. */
    method OrderStage(e: Evidence) returns (e': Evidence, failure: Option<Failure>)
      requires Active() && Unlimited(attempts) && !e.ordersCovered
      modifies this
      ensures Active() && Progressed() && trackedReads == old(trackedReads)
      ensures Stops(attempts, failure.None?)
      ensures Spent(1, if e.exchange.None? then 1 else 0)
      ensures var read := OrdersRead(cfg.rules, world.server, Retries(cfg), e.exchange, old(requests));
              && (failure.None? <==> read.Some?)
              && (failure.None? ==>
                    && read == Some(Reading(read.value.payload, e'.exchange, requests)) && read.value.payload.Array?
                    && e'.orders == Payloads.OpenOrders(cfg.rules, read.value.payload.items, e'.exchange))
      ensures failure.None? ==> HasPassed(attempts, OpenOrders, None) && e'.statuses.openOrders.Passed?
      ensures e' == e.(orders := e'.orders, exchange := e'.exchange, ordersCovered := failure.None?,
                       statuses := e'.statuses.(positionRisk := e.statuses.positionRisk))
    {
      hide Ledger, Paced, OfKind, Recorded, Matches, ClimbsBelow, Deadline, Respectful, Open, WallUsed, MonoUsed, Transients, Sents, Follow,
           LimitsFollowedExactly, Looked, OrdersNeedLookup, HasPassed, Payloads.OpenOrders;
      e' := e.(statuses := e.statuses.(openOrders := RequestFailed));
      var fetch := SignedGet(OpenOrders, None);
      if fetch.Failed? {
        return e', Some(fetch.failure);
      }
      ghost var called := attempts;
      e', failure := OrdersLookup(e', fetch.payload);
      PassedStays(called, attempts, OpenOrders, None);
      if failure.Some? {
        return;
      }
      var result := NormalizeOrders(cfg.rules, fetch.payload, e'.exchange);
      match result
      case Orders(orders) =>
        e' := e'.(orders := orders, ordersCovered := true, statuses := e'.statuses.(openOrders := Passed));
      case OrdersFailed(cause) =>
        if cause.PayloadFailure? {
          e' := e'.(statuses := e'.statuses.(openOrders := ValidationFailed));
        }
        failure := Some(cause);
    }

    /** The symbols whose trades are read: exactly those tracked, with an open order or with an active
        position; none when a tracked symbol is unusable. */
    method SymbolsForFills(e: Evidence) returns (selected: Option<seq<string>>)
      modifies this`trackedReads
      ensures trackedReads == old(trackedReads) + 1
      ensures var names := world.tracked(old(trackedReads));
              match selected
              case None => exists name :: name in names && ValidSymbol(cfg.rules, Text(name), e.exchange).None?
              case Some(s) => Selects(s, e, cfg.rules, names)
    {
      hide Symbols.Less, ValidSymbol;
      var names := Tracked();
      if exists name :: name in names && ValidSymbol(cfg.rules, Text(name), e.exchange).None? {
        return None;
      }
      var keys := (set name | name in names && ValidSymbol(cfg.rules, Text(name), e.exchange).Some?
                     :: ValidSymbol(cfg.rules, Text(name), e.exchange).value)
                  + (set i | 0 <= i < |e.orders| :: e.orders[i].symbol)
                  + (set i | 0 <= i < |e.positions| && e.positions[i].active :: e.positions[i].symbol);
      Symbols.LessIsStrictOrder();
      hide Sorting.Sorted, Sorting.StrictOrder;
      var s := Sorting.SortSet(keys, Symbols.Less);
      assert forall name :: name in names ==> ValidSymbol(cfg.rules, Text(name), e.exchange).value in keys;
      selected := Some(s);
    }

    method FetchFills(e: Evidence, symbol: string) returns (e': Evidence, failure: Option<Failure>)
      requires Active() && Unlimited(attempts)
      modifies this
      ensures Active() && Progressed() && trackedReads == old(trackedReads)
      ensures Stops(attempts, failure.None?) && Spent(1, 0)
      ensures var trades := TradesRead(cfg.rules, world.server, Retries(cfg), old(requests));
              && (failure.None? <==> trades.Some?)
              && (failure.None? ==> trades == Some(Fills(trades.value.rows, requests)) && e'.fills == e.fills + trades.value.rows)
      ensures failure.None? ==> HasPassed(attempts, UserTrades, Some(symbol))
      ensures e' == e.(fills := e'.fills, covered := e.covered + (if failure.None? then [symbol] else []),
                       statuses := e.statuses.(userTrades := e'.statuses.userTrades))
    {
      hide OfKind, Recorded, Matches, ClimbsBelow, Deadline, Respectful, Open, WallUsed, MonoUsed, Transients, Sents, Follow,
           LimitsFollowedExactly, HasPassed;
      e' := e;
      var _ := Now();
      var fetch := SignedGet(UserTrades, Some(symbol));
      if fetch.Failed? {
        return e', Some(fetch.failure);
      }
      failure := FillsFailure(cfg.rules, fetch.payload);
      if failure.Some? {
        if failure.value.PayloadFailure? {
          e' := e'.(statuses := e'.statuses.(userTrades := ValidationFailed));
        }
        return;
      }
      e' := e'.(fills := e'.fills + fetch.payload.items, covered := e'.covered + [symbol]);
    }

    function SymbolLimit(): nat {
      if cfg.maxSymbols < 0 then 0 else cfg.maxSymbols
    }

    /** As many symbols as configured, and none when that is negative. */
    lemma SymbolLimitExactly()
      ensures SymbolLimit() >= cfg.maxSymbols && SymbolLimit() in {0, cfg.maxSymbols}
    {
    }

    /** The trades of each selected symbol in turn, up to the first failure. */
    method FetchAll(e: Evidence) returns (e': Evidence, failure: Option<Failure>)
      requires Active() && Unlimited(attempts)
      requires e.covered == [] && e.fills == [] && |e.selected| <= SymbolLimit()
      modifies this
      ensures Active() && Progressed() && trackedReads == old(trackedReads)
      ensures Stops(attempts, failure.None?) && Spent(SymbolLimit(), 0)
      ensures |e'.covered| <= |e.selected| && e'.covered == e.selected[..|e'.covered|]
      ensures failure.None? ==> e'.covered == e.selected && AllPassed(attempts, e.selected)
      ensures failure.None? ==> FillsRead(cfg.rules, world.server, Retries(cfg), |e.selected|, old(requests)) == Some(Fills(e'.fills, requests))
      ensures failure.Some? ==> FillsRead(cfg.rules, world.server, Retries(cfg), |e.selected|, old(requests)).None?
      ensures e' == e.(covered := e'.covered, fills := e'.fills, statuses := e.statuses.(userTrades := e'.statuses.userTrades))
    {
      hide Ledger, Paced, OfKind, Recorded, Matches, ClimbsBelow, Deadline, Respectful, Unlimited, Open, WallUsed, MonoUsed, Transients, Sents, TradesRead, HasPassed,
           FillsRead, AllPassed, Calls;
      e' := e;
      CallsOf(0);
      FillsReadStep(cfg.rules, world.server, Retries(cfg), 0, old(requests));
      NothingPassed(attempts);
      for k := 0 to |e.selected|
        invariant Active() && Progressed() && Unlimited(attempts) && Spent(k, 0)
        invariant trackedReads == old(trackedReads) && AllPassed(attempts, e.selected[..k])
        invariant FillsRead(cfg.rules, world.server, Retries(cfg), k, old(requests)) == Some(Fills(e'.fills, requests))
        invariant e' == e.(covered := e.selected[..k], fills := e'.fills, statuses := e.statuses.(userTrades := e'.statuses.userTrades))
      {
        ghost var before := attempts;
        CallsOf(k);
        FillsReadStep(cfg.rules, world.server, Retries(cfg), k, old(requests));
        e', failure := FetchFills(e', e.selected[k]);
        if failure.Some? {
          CallsMonotone(k + 1, SymbolLimit());
          FillsReadFails(cfg.rules, world.server, Retries(cfg), k + 1, |e.selected|, old(requests));
          return;
        }
        AllPassedMore(before, attempts, e.selected, k);
      }
      CallsMonotone(|e.selected|, SymbolLimit());
      assert e.selected[..|e.selected|] == e.selected;
      failure := None;
    }

    /** The selection, refused when a tracked symbol is unusable or it is above the maximum. */
    method ScopeFills(e: Evidence) returns (selected: seq<string>, failure: Option<Failure>)
      modifies this`trackedReads
      ensures trackedReads == old(trackedReads) + 1 && Symbols.Sorted(selected)
      ensures |selected| > cfg.maxSymbols ==> failure.Some?
      ensures failure.None? ==> |selected| <= SymbolLimit() && Selects(selected, e, cfg.rules, world.tracked(old(trackedReads)))
      ensures failure.Some? ==> forall k :: NoFills(cfg, world, k, world.tracked(old(trackedReads)), e)
    {
      hide Selects, NoFills, Symbols.Sorted, ValidSymbol;
      NothingSelected();
      var choice := SymbolsForFills(e);
      ghost var names := world.tracked(old(trackedReads));
      if choice.None? {
        forall k ensures NoFills(cfg, world, k, names, e) {
          UnusableNameNoFills(cfg, world, k, names, e);
        }
        return [], Some(ScopeFailure);
      }
      selected := choice.value;
      SelectsSorted(selected, e, cfg.rules, names);
      if |selected| <= cfg.maxSymbols {
        return selected, None;
      }
      forall k ensures NoFills(cfg, world, k, names, e) {
        UnreadSelectionNoFills(cfg, world, k, names, e, selected);
      }
      failure := Some(ScopeFailure);
    }

    /** Trades are covered exactly when the replies hold usable ones for the whole selection; a selection
        above the maximum sends no request. */
    method FillStage(e: Evidence) returns (e': Evidence, failure: Option<Failure>)
      requires Active() && Unlimited(attempts)
      requires e.covered == [] && e.selected == [] && e.fills == []
      modifies this
      ensures Active() && Progressed()
      ensures Stops(attempts, failure.None?) && Spent(SymbolLimit(), 0)
      ensures e' == e.(selected := e'.selected, covered := e'.covered, fills := e'.fills,
                       statuses := e.statuses.(userTrades := e'.statuses.userTrades))
      ensures Symbols.Sorted(e'.selected) && |e'.covered| <= |e'.selected| && e'.covered == e'.selected[..|e'.covered|]
      ensures |e'.selected| > cfg.maxSymbols ==> failure.Some? && requests == old(requests) && attempts == old(attempts)
      ensures failure.None? ==> |e'.selected| <= SymbolLimit() && e'.statuses.userTrades.Passed? && AllPassed(attempts, e'.selected)
      ensures failure.None? ==> GathersFills(cfg, world, old(requests), world.tracked(old(trackedReads)), e', requests)
      ensures failure.Some? ==> NoFills(cfg, world, old(requests), world.tracked(old(trackedReads)), e)
    {
      hide Ledger, Paced, OfKind, Recorded, Matches, ClimbsBelow, Deadline, Respectful, Open, WallUsed, MonoUsed, Transients, Sents,
           TradesRead, HasPassed, FillsRead, AllPassed, Selects, GathersFills, NoFills, Symbols.Sorted, Calls, Unlimited;
      UnlimitedStops(attempts);
      e' := e;
      var selected;
      selected, failure := ScopeFills(e);
      ghost var names := world.tracked(old(trackedReads));
      e' := e'.(selected := selected);
      if failure.Some? {
        return;
      }
      e' := e'.(statuses := e'.statuses.(userTrades := if selected == [] then Passed else RequestFailed));
      e', failure := FetchAll(e');
      if failure.Some? {
        UnreadSelectionNoFills(cfg, world, old(requests), names, e, selected);
        return;
      }
      e' := e'.(statuses := e'.statuses.(userTrades := Passed));
      FillsGathered(cfg, world, old(requests), names, e, e', requests);
    }

    // ---------- Snapshots ----------

    predicate Complete(e: Evidence) {
      && e.positionsCovered && e.ordersCovered && e.covered == e.selected && |e.selected| <= SymbolLimit()
      && ExposureNamed(e.positions)
      && e.statuses.positionRisk.Passed? && e.statuses.openOrders.Passed? && e.statuses.userTrades.Passed?
    }

    /** The attempts hold a passed request for every part of the evidence. */
    predicate Evidenced(e: Evidence)
      reads this`attempts
    {
      HasPassed(attempts, PositionRisk, None) && HasPassed(attempts, OpenOrders, None) && AllPassed(attempts, e.selected)
    }

    /** Positions, then open orders. */
    method CollectExposure() returns (e: Evidence, failure: Option<Failure>)
      requires Active() && attempts == []
      modifies this
      ensures Active() && Progressed()
      ensures Stops(attempts, failure.None?) && Spent(2, 1)
      ensures e.selected == [] && e.covered == [] && e.fills == []
      ensures failure.None? ==> HasPassed(attempts, PositionRisk, None) && HasPassed(attempts, OpenOrders, None)
      ensures failure.None? ==> e.positionsCovered && e.ordersCovered && ExposureNamed(e.positions)
                                && e.statuses.positionRisk.Passed? && e.statuses.openOrders.Passed?
      ensures failure.None? ==> LeftToFills(cfg, world, old(requests), old(trackedReads), e, requests, world.tracked(trackedReads))
      ensures failure.Some? ==> forall x, end :: !Gathers(cfg, world, old(requests), old(trackedReads), x, end)
    {
      hide Ledger, Paced, OfKind, Recorded, Matches, ClimbsBelow, Deadline, Respectful, Open, WallUsed, MonoUsed, Transients, Sents, HasPassed,
           PositionsRead, OrdersRead, Normalized, GathersFills, Gathers, LeftToFills, NamesForFills, Calls, Payloads.OpenOrders, ExposureNamed;
      CallsAdd(1, 1);
      e, failure := PositionStage(NO_EVIDENCE);
      ghost var first, p := attempts, PositionsRead(cfg.rules, world.server, Retries(cfg), world.tracked(old(trackedReads)), old(requests));
      if failure.Some? {
        UnreadExposureNoEvidence(cfg, world, old(requests), old(trackedReads));
        return;
      }
      NormalizedIsNamed(cfg.rules, p.value.payload, e.exchange, e.positions);
      ghost var o := OrdersRead(cfg.rules, world.server, Retries(cfg), e.exchange, requests);
      e, failure := OrderStage(e);
      PassedStays(first, attempts, PositionRisk, None);
      if failure.Some? {
        UnreadExposureNoEvidence(cfg, world, old(requests), old(trackedReads));
        return;
      }
      ExposureLeavesFills(cfg, world, old(requests), old(trackedReads), p.value, o.value, e);
    }

    /** Then the trades of every selected symbol: complete exactly when the replies amount to evidence, and
        then with that evidence. */
    method Collect() returns (e: Evidence, failure: Option<Failure>)
      requires Active() && attempts == []
      modifies this
      ensures Active() && Progressed()
      ensures Stops(attempts, failure.None?) && Spent(2 + SymbolLimit(), 1)
      ensures Symbols.Sorted(e.selected) && |e.covered| <= |e.selected| && e.covered == e.selected[..|e.covered|]
      ensures failure.None? ==> Complete(e) && Evidenced(e)
      ensures failure.None? ==> Gathers(cfg, world, old(requests), old(trackedReads), e, requests)
      ensures failure.Some? ==> forall x, end :: !Gathers(cfg, world, old(requests), old(trackedReads), x, end)
    {
      hide Ledger, Paced, OfKind, Recorded, Matches, ClimbsBelow, Deadline, Respectful, Open, WallUsed, MonoUsed, Transients, Sents, HasPassed, AllPassed,
           Gathers, GathersFills, NoFills, LeftToFills, Symbols.Sorted, Calls, ExposureNamed, Unlimited;
      NothingSelected();
      CallsAdd(2, SymbolLimit());
      e, failure := CollectExposure();
      if failure.Some? {
        return;
      }
      ghost var before, exposure, next, names := attempts, e, requests, world.tracked(trackedReads);
      e, failure := FillStage(e);
      if failure.Some? {
        NoFillsNoEvidence(cfg, world, old(requests), old(trackedReads), exposure, next, names);
        return;
      }
      PassedStays(before, attempts, PositionRisk, None);
      PassedStays(before, attempts, OpenOrders, None);
      FillsDecide(cfg, world, old(requests), old(trackedReads), exposure, next, names, e, requests);
    }

    lemma NothingSelected()
      ensures Symbols.Sorted([])
    {
    }

    /** A snapshot may begin once the cooldown has elapsed. */
    method Admit() returns (admitted: bool)
      requires Valid()
      modifies this
      ensures Valid() && attempts == [] && requestCount == 0 && requests == old(requests) && trackedReads == old(trackedReads)
      ensures signedAt == old(signedAt) && cooldownUntil == old(cooldownUntil)
      ensures admitted <==> old(cooldownUntil) <= world.mono(old(monoReads))
      ensures admitted ==> Active() && begin == |old(history)|
      ensures history == old(history) + if admitted then [Begun(old(monoReads))] else []
    {
      hide OfKind, Recorded, Matches, ClimbsBelow, Deadline, Respectful, Sents;
      EmptyLedger();
      attempts, requestCount := [], 0;
      signedBefore, requestsBefore := |signedAt|, requests;
      ghost var read := monoReads;
      var clock := Monotonic();
      admitted := cooldownUntil - clock <= 0.0;
      if admitted {
        begin := |history|;
        HistoryAppend(world, history, Begun(read));
        history := history + [Begun(read)];
      }
    }

    lemma EmptyLedger()
      ensures Recorded([]) && OfKind([], Signed) == 0 && forall base :: Matches([], world.server, base)
    {
    }

    method ClearCooldown()
      requires Valid()
      modifies this`cooldownUntil, this`history
      ensures Valid() && cooldownUntil == 0.0 && history == old(history) + [Completed]
    {
      hide OfKind, Recorded, Matches, ClimbsBelow, Deadline, Respectful, Sents;
      HistoryAppend(world, history, Completed);
      history := history + [Completed];
      cooldownUntil := 0.0;
    }

    lemma Commute(a: int, b: int)
      ensures a * b == b * a
    {
    }

    lemma Bounded()
      requires Ledger()
      requires OfKind(attempts, Signed) <= Calls(2 + SymbolLimit()) && OfKind(attempts, Time) <= Calls(2 + SymbolLimit())
      requires OfKind(attempts, Public) <= 1
      ensures requests - requestsBefore == |attempts| <= 2 * ((Retries(cfg) + 2) * (2 + SymbolLimit())) + 1
    {
      hide OfKind, Recorded, Matches, ClimbsBelow;
      KindsAddUp(attempts);
      CallsIsProduct(2 + SymbolLimit());
      Commute(2 + SymbolLimit(), Retries(cfg) + 2);
    }

    lemma NothingSent()
      ensures Calls(2 + SymbolLimit()) >= 0 && OfKind([], Signed) == OfKind([], Time) == OfKind([], Public) == 0
    {
    }

    /** Over the whole life: when the reply to request `k` was a rate limit that asks for a wait, and request
        `m` belongs to a later snapshot, with no complete snapshot in between, then that snapshot
        read the monotonic clock after the wait had elapsed. */
    lemma CooldownIsKept(k: nat, m: nat)
      requires Valid() && k < requests && m < requests
      requires IsLimit(world.server(k)) && Wait(world.server(k), world.wall(history[IndexOf(history, k)].wallRead)) > 0.0
      requires history[IndexOf(history, k)].begin < history[IndexOf(history, m)].begin
      requires forall n :: IndexOf(history, k) < n < history[IndexOf(history, m)].begin && n < |history| ==> !history[n].Completed?
      ensures var i, b := IndexOf(history, k), history[IndexOf(history, m)].begin;
              && history[i].request == k && history[IndexOf(history, m)].request == m
              && i < b < IndexOf(history, m) && history[b].Begun? && history[i].monoRead <= history[b].read
              && world.mono(history[b].read) - world.mono(history[i].monoRead) >= Wait(world.server(k), world.wall(history[i].wallRead))
    {
      LoggedAt(world, history, k);
      LoggedAt(world, history, m);
      NothingSentDuringCooldown(world, history, k, m);
    }

    /** One snapshot. It is complete exactly when no cooldown is active and the replies amount to full
        evidence, and then reports that evidence; it sends nothing inside a cooldown, stops at a rate
        limit, and its uses of the server are bounded. */
    method Snapshot() returns (report: Report)
      requires Valid()
      modifies this
      ensures Valid() && old(signedAt) <= signedAt && old(history) <= history
      ensures report.attempts == attempts && report.requestCount == |attempts| == requests - old(requests)
      ensures requests - old(requests) <= 2 * ((Retries(cfg) + 2) * (2 + SymbolLimit())) + 1
      ensures Stops(attempts, report.complete)
      ensures report.cooldownActive <==> old(cooldownUntil) > world.mono(old(monoReads))
      ensures report.cooldownActive ==> requests == old(requests) && history == old(history)
      ensures !report.cooldownActive ==> Episode(old(history), history, old(monoReads), report.complete)
      ensures if report.complete then cooldownUntil == 0.0 else cooldownUntil >= old(cooldownUntil)
      ensures report.complete <==> report.failure.None? && !report.cooldownActive
      ensures report.complete <==> !report.cooldownActive
                                   && exists e, end :: Gathers(cfg, world, old(requests), old(trackedReads), e, end)
      ensures report.complete ==> Gathers(cfg, world, old(requests), old(trackedReads), report.evidence, requests)
      ensures report.complete ==> Complete(report.evidence) && Evidenced(report.evidence) && report.unknown == []
      ensures !report.complete ==> report.evidence.covered + report.unknown == report.evidence.selected
    {
      hide OfKind, Recorded, Matches, ClimbsBelow, Deadline, Respectful, WallUsed, MonoUsed, Transients, Sents, HasPassed, AllPassed,
           Gathers, Calls, Unlimited, Complete, Evidenced, Symbols.Sorted;
      var admitted := Admit();
      NothingSent();
      if !admitted {
        Bounded();
        return Report(false, NO_EVIDENCE, [], None, true, 0, []);
      }
      var e, failure := Collect();
      Bounded();
      if failure.Some? {
        MissingIsRest(e.selected, |e.covered|, 0);
        assert e.selected[0..] == e.selected;
        return Report(false, e, Missing(e.selected, e.covered), failure, false, requestCount, attempts);
      }
      ClearCooldown();
      report := Report(true, e, [], None, false, requestCount, attempts);
    }

    /** Two snapshots in a row: when a rate limit asked the first for a wait and the first did not complete, the
        second sends nothing unless it began after that wait. */
    method SnapshotTwice() returns (first: Report, second: Report)
      requires Valid()
      modifies this
      ensures Valid() && requests == old(requests) + first.requestCount + second.requestCount
      ensures !first.complete ==>
                forall k, m :: old(requests) <= k < old(requests) + first.requestCount <= m < requests
                               && WaitAsked(world, history[IndexOf(history, k)]) > 0.0
                               ==> WaitedFor(world, history, k, m)
    {
      hide Ledger, Deadline, Respectful, Sents, Open, WallUsed, MonoUsed, Gathers, Complete, Evidenced, Stops, Symbols.Sorted,
           Episode, WaitedFor, WaitAsked;
      ghost var h0 := history;
      first := Snapshot();
      ghost var h1, between, read := history, requests, monoReads;
      second := Snapshot();
      if !first.complete {
        forall k, m | old(requests) <= k < between <= m < requests && WaitAsked(world, history[IndexOf(history, k)]) > 0.0
          ensures WaitedFor(world, history, k, m)
        {
          SecondSnapshotWaits(world, h0, h1, history, old(monoReads), read, second.complete, k, m);
        }
      }
    }
  }

  // ---------- The exception to stopping at a rate limit ----------

  /** A server that answers the first request with a rate limit whose code says that the clock is off, and
      then serves its time and empty lists. */
  function SkewedServer(k: nat): Reply {
    if k == 0 then HttpError(429, Some(-1021), Some(60.0), None, false)
    else if k == 1 then Body(Object(map["serverTime" := Int(0)]))
    else Body(Array([]))
  }

  function NoNames(k: nat): set<string> {
    {}
  }

  lemma SkewedCalls(limit: nat)
    ensures Follow(SkewedServer, limit, 0, 0, false) == Call(Fetched(Array([])), 3)
    ensures Follow(SkewedServer, limit, 3, 0, false) == Call(Fetched(Array([])), 4)
  {
    var time := SkewedServer(1).payload;
    assert Field(time, "serverTime") == Int(0);
    assert RefreshOf(SkewedServer(1)) == Refreshed;
    assert Follow(SkewedServer, limit, 2, 0, true) == Call(Fetched(Array([])), 3);
  }

  lemma SkewedRepliesGather(cfg: Config, w: World)
    requires cfg.maxSymbols >= 0 && w.server == SkewedServer && w.tracked == NoNames
    ensures Gathers(cfg, w, 0, 0, NO_EVIDENCE, 4)
    ensures forall x, end :: Gathers(cfg, w, 0, 0, x, end) ==> end == 4
  {
    SkewedCalls(Retries(cfg));
    assert NoNames(0) == NoNames(1) == {};
    forall x, end | Gathers(cfg, w, 0, 0, x, end) ensures end == 4 {
      SelectionIsUnique(x.selected, [], x, cfg.rules, {});
    }
  }

  /** Its rate limit asks for a minute's wait, yet three more requests follow at once, and the snapshot,
      which completes, clears the cooldown. */
  method SkewedRateLimitIsCleared(cfg: Config, wall: nat -> int, mono: nat -> real) returns (client: Client, report: Report)
    requires cfg.maxSymbols >= 0 && mono(0) >= 0.0
    ensures fresh(client) && client.Valid() && client.world.server == SkewedServer
    ensures IsLimit(SkewedServer(0)) && Sents(client.history) == 4
    ensures WaitAsked(client.world, client.history[IndexOf(client.history, 0)]) == 60.0
    ensures report.complete && client.requests == 4 && client.cooldownUntil == 0.0
  {
    client := new Client(cfg, World(SkewedServer, wall, mono, NoNames));
    SkewedRepliesGather(cfg, client.world);
    report := client.Snapshot();
    LoggedAt(client.world, client.history, 0);
  }
}
