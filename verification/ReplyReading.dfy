/** What a signed call makes of the replies and what is written down of them, told by bodies, statuses and codes. */
module ReplyReading {
  import opened Options
  import opened Payloads
  import opened Protocol

  // ---------- Replies ----------

  predicate HasCode(payload: Json, code: int) {
    payload.Object? && "code" in payload.fields && payload.fields["code"] == Int(code)
  }

  /** A body without a negative error code. */
  ghost predicate Usable(reply: Reply) {
    reply.Body? && forall code :: code < 0 ==> !HasCode(reply.payload, code)
  }

  /** An error code in a body other than that of a clock that is off. */
  ghost predicate Refused(reply: Reply) {
    reply.Body? && exists code :: code < 0 && code != -1021 && HasCode(reply.payload, code)
  }

  predicate Skewed(reply: Reply) {
    (reply.Body? && HasCode(reply.payload, -1021)) || (reply.HttpError? && reply.code == Some(-1021))
  }

  /** HTTP's own status for it, or the exchange's. */
  predicate RateLimiting(reply: Reply) {
    reply.HttpError? && (reply.status == 429 || (reply.status == 418 && reply.code == Some(-1003)))
  }

  /** What may pass: a failure of the transport or of the server. */
  predicate Fleeting(reply: Reply) {
    reply.TransportError? || (reply.HttpError? && 500 <= reply.status && reply.status <= 599)
  }

  predicate TellsTime(reply: Reply) {
    && reply.Body? && reply.payload.Object? && "serverTime" in reply.payload.fields
    && (reply.payload.fields["serverTime"].Int? || reply.payload.fields["serverTime"].Bool?)
  }

  lemma CodesExactly(payload: Json, code: int)
    ensures ErrorCode(payload) == Some(code) <==> code < 0 && HasCode(payload, code)
  {
  }

  lemma UsableExactly(reply: Reply)
    ensures Usable(reply) <==> reply.Body? && ErrorCode(reply.payload) == None
    ensures Refused(reply) <==> reply.Body? && ErrorCode(reply.payload).Some? && ErrorCode(reply.payload) != Some(-1021)
    ensures Skewed(reply) && reply.Body? <==> reply.Body? && ErrorCode(reply.payload) == Some(-1021)
  {
    if reply.Body? {
      var found := ErrorCode(reply.payload);
      if found.Some? {
        CodesExactly(reply.payload, found.value);
      }
      CodesExactly(reply.payload, -1021);
      forall code | code < 0 && HasCode(reply.payload, code) ensures found == Some(code) {
        CodesExactly(reply.payload, code);
      }
    }
    hide ErrorCode, HasCode;
  }

  // ---------- One turn of a signed call ----------

  /** The call ends behind request `k`, well exactly when the reply is a usable body. */
  lemma UsableEndsCall(server: nat -> Reply, limit: nat, k: nat, transient: nat, resynced: bool)
    requires transient <= limit
    ensures Usable(server(k)) ==> Follow(server, limit, k, transient, resynced) == Call(Fetched(server(k).payload), k + 1)
    ensures Refused(server(k)) ==> Follow(server, limit, k, transient, resynced) == Call(Failed(AuthFailure), k + 1)
    ensures Skewed(server(k)) && server(k).Body? && resynced ==>
              Follow(server, limit, k, transient, resynced) == Call(Failed(AuthFailure), k + 1)
  {
    UsableExactly(server(k));
    hide ErrorCode, Usable, Refused, Skewed;
  }

  /** A clock that is off is asked for once: with the time told the call goes on, otherwise it fails. */
  lemma SkewIsCorrectedOnce(server: nat -> Reply, limit: nat, k: nat, transient: nat)
    requires transient <= limit && Skewed(server(k))
    ensures TellsTime(server(k + 1)) ==> Follow(server, limit, k, transient, false) == Follow(server, limit, k + 2, transient, true)
    ensures server(k + 1).Body? && !TellsTime(server(k + 1)) ==>
              Follow(server, limit, k, transient, false) == Call(Failed(PayloadFailure), k + 2)
    ensures server(k).HttpError? && !server(k + 1).Body? ==> Follow(server, limit, k, transient, false) == Call(Failed(RequestFailure), k + 2)
  {
    UsableExactly(server(k));
    TimeExactly(server(k + 1));
    hide ErrorCode, RefreshOf, TellsTime;
  }

  /** When the request for the time that an error code in a body led to fails itself, its reply is treated like that of
      a signed request, the clock being as far off as before. */
  lemma TimeFailureIsHandled(server: nat -> Reply, limit: nat, k: nat, transient: nat)
    requires transient <= limit && server(k).Body? && Skewed(server(k)) && !server(k + 1).Body?
    ensures var call, reply := Follow(server, limit, k, transient, false), server(k + 1);
            if Skewed(reply) then
              && (TellsTime(server(k + 2)) ==> call == Follow(server, limit, k + 3, transient, true))
              && (!TellsTime(server(k + 2)) ==> call.fetch.Failed? && call.next == k + 3)
            else if Fleeting(reply) && transient < limit then call == Follow(server, limit, k + 2, transient + 1, false)
            else call.fetch.Failed? && call.next == k + 2
  {
    UsableExactly(server(k));
    TimeExactly(server(k + 1));
    TimeExactly(server(k + 2));
    hide ErrorCode, RefreshOf, TellsTime;
  }

  lemma TimeExactly(reply: Reply)
    ensures RefreshOf(reply) == Refreshed <==> TellsTime(reply)
    ensures RefreshOf(reply) == BadPayload <==> reply.Body? && !TellsTime(reply)
    ensures !reply.Body? ==> RefreshOf(reply) == Raised(reply)
  {
  }

  /** A rate limit ends the call, unless its code says that the clock is off and it was not asked for yet. */
  lemma LimitEndsCall(server: nat -> Reply, limit: nat, k: nat, transient: nat, resynced: bool)
    requires transient <= limit && RateLimiting(server(k)) && (resynced || !Skewed(server(k)))
    ensures Follow(server, limit, k, transient, resynced) == Call(Failed(PayloadFailure), k + 1)
  {
  }

  /** What may pass is asked again while there are retries left; every other error ends the call. */
  lemma OnlyFleetingIsRepeated(server: nat -> Reply, limit: nat, k: nat, transient: nat, resynced: bool)
    requires transient <= limit && !server(k).Body? && (resynced || !Skewed(server(k)))
    ensures Fleeting(server(k)) && transient < limit ==>
              Follow(server, limit, k, transient, resynced) == Follow(server, limit, k + 1, transient + 1, resynced)
    ensures !Fleeting(server(k)) || transient == limit ==>
              Follow(server, limit, k, transient, resynced)
              == Call(Failed(if !server(k).HttpError? then RequestFailure
                             else if server(k).status == 401 || server(k).status == 403 then AuthFailure
                             else PayloadFailure), k + 1)
  {
  }

  // ---------- A call over many replies ----------

  /** A call lives through as many passing failures in a row as there are retries, and returns the first usable body
      behind them; ... */
  lemma {:induction false} RetriesReach(server: nat -> Reply, limit: nat, k: nat, transient: nat, resynced: bool, n: nat)
    requires transient + n <= limit && Usable(server(k + n))
    requires forall i :: k <= i < k + n ==> Fleeting(server(i)) && !Skewed(server(i))
    ensures Follow(server, limit, k, transient, resynced) == Call(Fetched(server(k + n).payload), k + n + 1)
    decreases n
  {
    hide Usable, Fleeting, Skewed, Follow;
    if n == 0 {
      UsableEndsCall(server, limit, k, transient, resynced);
    } else {
      FleetingHasNoBody(server(k));
      OnlyFleetingIsRepeated(server, limit, k, transient, resynced);
      RetriesReach(server, limit, k + 1, transient + 1, resynced, n - 1);
    }
  }

  lemma FleetingHasNoBody(reply: Reply)
    requires Fleeting(reply)
    ensures !reply.Body?
  {
  }

  /** ... one more ends it without another request. */
  lemma {:induction false} RetriesEnd(server: nat -> Reply, limit: nat, k: nat, transient: nat, resynced: bool)
    requires transient <= limit
    requires forall i :: k <= i <= k + limit - transient ==> Fleeting(server(i)) && !Skewed(server(i))
    ensures var call := Follow(server, limit, k, transient, resynced);
            call.fetch.Failed? && call.next == k + limit - transient + 1
    decreases limit - transient
  {
    hide Fleeting, Skewed, Follow;
    FleetingHasNoBody(server(k));
    OnlyFleetingIsRepeated(server, limit, k, transient, resynced);
    if transient < limit {
      RetriesEnd(server, limit, k + 1, transient + 1, resynced);
    }
  }

  // ---------- Attempts ----------

  /** An attempt tells the status and the code of its reply, and names a rate limit as its reason exactly for one. */
  lemma ObservedExactly(sequence: nat, endpoint: Endpoint, symbol: Option<string>, kind: Kind, number: nat, reason: Reason, reply: Reply)
    requires reason != RateLimit
    ensures var a := Observed(sequence, endpoint, symbol, kind, number, reason, reply);
            && (a.outcome == Pass <==> reply.Body?) && (a.outcome == Fail <==> !reply.Body?)
            && (a.reason == RateLimit <==> RateLimiting(reply)) && (!RateLimiting(reply) ==> a.reason == reason)
            && (a.status == None <==> !reply.HttpError?) && (reply.HttpError? ==> a.status == Some(reply.status) && a.code == reply.code)
            && a.endpoint == endpoint && a.symbol == symbol && a.number == number
  {
  }

  /** An attempt that was sent again gave one of two reasons: a clock that is off, with that code, or a failure that may
      pass. */
  lemma RepeatedFor(s: seq<Attempt>, server: nat -> Reply, base: nat, i: nat)
    requires Matches(s, server, base) && Recorded(s) && i < |s| && s[i].outcome == Retry
    ensures s[i].reason == ClockSkew || s[i].reason == TransientFailure
    ensures s[i].reason == ClockSkew ==> s[i].code == Some(-1021)
    ensures s[i].reason == TransientFailure ==> !server(base + i).HttpError? || Fleeting(server(base + i))
  {
    MatchesAt(s, server, base, i);
    RecordedAt(s, i);
  }

  predicate Repeated(a: Attempt) {
    a.outcome == Retry && a.reason == TransientFailure
  }

  function RepeatedAt(s: seq<Attempt>): set<int> {
    set i | 0 <= i < |s| && Repeated(s[i])
  }

  lemma RepeatedMore(s: seq<Attempt>, a: Attempt)
    ensures |RepeatedAt(s + [a])| == |RepeatedAt(s)| + if Repeated(a) then 1 else 0
  {
    hide Repeated;
    var t := s + [a];
    forall i ensures i in RepeatedAt(t) <==> i in RepeatedAt(s) || (i == |s| && Repeated(a)) {
      assert 0 <= i < |s| ==> t[i] == s[i];
    }
    assert RepeatedAt(t) == RepeatedAt(s) + if Repeated(a) then {|s|} else {};
  }

  /** The retries that the budget counts are the attempts that were sent again for a failure that may pass. */
  lemma {:induction false} TransientsExactly(s: seq<Attempt>)
    ensures Transients(s) == |RepeatedAt(s)|
  {
    if s != [] {
      var init, last := s[..|s| - 1], s[|s| - 1];
      TransientsExactly(init);
      RepeatedMore(init, last);
      hide RepeatedAt;
      assert s == init + [last];
    }
  }

  // ---------- Cooldown ----------

  /** How long a reply asks to wait, in seconds: what Retry-After says, or else what is left of a ban, whose end is
      given in milliseconds or, when that would be a small number, in seconds, or else a minute. */
  predicate AsksFor(reply: Reply, now: int, seconds: real) {
    && reply.HttpError? && seconds > 0.0
    && if reply.retryAfter.Some? && reply.retryAfter.value > 0.0 then seconds == reply.retryAfter.value
       else if reply.bannedUntil.Some? then
         1000.0 * seconds == ((if reply.bannedUntil.value > 9999999999 then reply.bannedUntil.value
                               else 1000 * reply.bannedUntil.value) - now) as real
       else reply.status == 429 && reply.perMinute && seconds == 60.0
  }

  lemma WaitExactly(reply: Reply, now: int, seconds: real)
    requires reply.HttpError?
    ensures Wait(reply, now) == seconds && seconds > 0.0 <==> AsksFor(reply, now, seconds)
    ensures Wait(reply, now) >= 0.0
  {
  }

  /** In every run: after a rate limit that asks for so many seconds, no request is sent for a later snapshot that began
      before they had elapsed, unless a snapshot completed in between. */
  lemma AskedWaitIsKept(w: World, h: seq<Event>, k: nat, m: nat, seconds: real)
    requires Respectful(w, h) && k < Sents(h) && m < Sents(h)
    requires RateLimiting(w.server(k)) && AsksFor(w.server(k), w.wall(h[IndexOf(h, k)].wallRead), seconds)
    requires h[IndexOf(h, k)].begin < h[IndexOf(h, m)].begin
    requires forall n :: IndexOf(h, k) < n < h[IndexOf(h, m)].begin && n < |h| ==> !h[n].Completed?
    ensures var i, b := IndexOf(h, k), h[IndexOf(h, m)].begin;
            i < b < IndexOf(h, m) && h[b].Begun? && w.mono(h[b].read) >= w.mono(h[i].monoRead) + seconds
  {
    WaitExactly(w.server(k), w.wall(h[IndexOf(h, k)].wallRead), seconds);
    NothingSentDuringCooldown(w, h, k, m);
  }
}
