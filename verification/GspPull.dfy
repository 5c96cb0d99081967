/** The GSTR-2B pull of gsp/service.py and gsp/retry.py: a bounded retry loop over an error taxonomy
    that drives an attempt row, the call log and the session ledger. */
module GspPull {
  import opened Wrappers
  import opened GspLedger
  import OtpLockout
  import Cooldown
  import GspConsent

  datatype Kind = OtpInvalid | OtpExpired | SessionGone | GstnUnavailable | RateLimited | ConsentGone | Unknown

  /** What one vendor call does. */
  datatype Reply = Payload(body: string) | Failure(kind: Kind, retryAfter: Option<int>)

  datatype Policy = Policy(maxAttempts: nat, backoff: seq<nat>, rateLimitedDefault: nat)

  /** `max(1, max_attempts)`. */
  function Limit(p: Policy): nat { if p.maxAttempts < 1 then 1 else p.maxAttempts }

  predicate Retryable(r: Reply) { r.Failure? && (r.kind == GstnUnavailable || r.kind == RateLimited) }

  /** `_wait_seconds`: the vendor's header wins for a rate limit; otherwise the backoff table, whose
      last entry repeats. */
  function WaitSeconds(p: Policy, r: Reply, attempt: nat): nat
    requires Retryable(r)
  {
    if r.kind == RateLimited then
      if r.retryAfter.Some? && r.retryAfter.value > 0 then r.retryAfter.value else p.rateLimitedDefault
    else if p.backoff == [] then 30
    else p.backoff[if attempt < |p.backoff| then attempt else |p.backoff| - 1]
  }

  // ----- which call decides -----

  /** A script covers every call the policy can make. */
  predicate Covers(script: seq<Reply>, p: Policy) { |script| >= Limit(p) }

  /** Call `k` ends the loop: a payload, an error that is never retried, or the last attempt. */
  predicate Ends(script: seq<Reply>, p: Policy, k: nat)
    requires k < |script|
  {
    !Retryable(script[k]) || k + 1 >= Limit(p)
  }

  function Decisive(script: seq<Reply>, p: Policy, k: nat := 0): (d: nat)
    requires Covers(script, p) && k < Limit(p)
    ensures k <= d < Limit(p) && Ends(script, p, d)
    ensures forall i :: k <= i < d ==> !Ends(script, p, i)
    decreases Limit(p) - k
  {
    if Ends(script, p, k) then k else Decisive(script, p, k + 1)
  }

  /** The calls of a pull, by the taxonomy: outages and rate limits are retried within the limit; a payload, any
      other error, or the last attempt is the last call. */
  lemma CallsExactly(script: seq<Reply>, p: Policy)
    requires Covers(script, p)
    ensures var d := Decisive(script, p);
      (d == 0 || d < p.maxAttempts) &&
      (forall i :: 0 <= i < d ==>
        script[i].Failure? && (script[i].kind == GstnUnavailable || script[i].kind == RateLimited)) &&
      (script[d].Failure? && (script[d].kind == GstnUnavailable || script[d].kind == RateLimited) ==>
        d + 1 >= p.maxAttempts)
  {
    forall i | 0 <= i < Decisive(script, p)
      ensures Retryable(script[i])
    {
      assert !Ends(script, p, i);
    }
  }

  /** A pull succeeds exactly when some call within the limit returns a payload and every call before it was an
      outage or a rate limit. */
  lemma SucceedsExactly(script: seq<Reply>, p: Policy)
    requires Covers(script, p)
    ensures script[Decisive(script, p)].Payload? <==>
      exists j :: 0 <= j < |script| && (j == 0 || j < p.maxAttempts) && script[j].Payload? &&
        forall i :: 0 <= i < j ==>
          script[i].Failure? && (script[i].kind == GstnUnavailable || script[i].kind == RateLimited)
  {
    var d := Decisive(script, p);
    CallsExactly(script, p);
    if j :| 0 <= j < |script| && (j == 0 || j < p.maxAttempts) && script[j].Payload? &&
            forall i :: 0 <= i < j ==>
              script[i].Failure? && (script[i].kind == GstnUnavailable || script[i].kind == RateLimited)
    {
      assert Ends(script, p, j);
      assert d <= j;
    }
  }

  // ----- the attempt row -----

  datatype Status = Running | RetryScheduled | Succeeded | Failed
  datatype Trouble = SessionDead | Vendor(kind: Kind)

  datatype Attempt = Attempt(
    profile: nat, period: string, scheduled: bool, status: Status, count: nat,
    trouble: Option<Trouble>, nextRetryAt: Option<int>, finishedAt: Option<int>, pullId: Option<nat>)

  function Opened(profile: nat, period: string, scheduled: bool): Attempt {
    Attempt(profile, period, scheduled, Running, 1, None, None, None, None)
  }

  /** `_mark_retry(attempt_no, err, wait)`. */
  function Retried(a: Attempt, attemptNo: nat, kind: Kind, retryAt: int): Attempt {
    a.(status := RetryScheduled, count := attemptNo + 1, trouble := Some(Vendor(kind)), nextRetryAt := Some(retryAt))
  }

  function FailedWith(a: Attempt, why: Trouble, now: int): Attempt {
    a.(status := Failed, finishedAt := Some(now), trouble := Some(why))
  }

  function SucceededWith(a: Attempt, calls: nat, pullId: nat, now: int): Attempt {
    a.(status := Succeeded, finishedAt := Some(now), count := calls, pullId := Some(pullId),
       trouble := None, nextRetryAt := None)
  }

  /** The clock after `k` waits. */
  function ClockAt(script: seq<Reply>, p: Policy, start: int, k: nat): int
    requires Covers(script, p) && k <= Decisive(script, p)
  {
    if k == 0 then start
    else
      assert !Ends(script, p, k - 1);
      ClockAt(script, p, start, k - 1) + WaitSeconds(p, script[k - 1], k - 1)
  }

  /** Between two calls: after a rate limit the vendor's header if it is positive, the default otherwise; after an
      outage the backoff entry of that attempt, the last one repeating, and half a minute without a table. */
  lemma WaitsExactly(script: seq<Reply>, p: Policy, start: int, k: nat)
    requires Covers(script, p) && k < Decisive(script, p)
    ensures ClockAt(script, p, start, 0) == start
    ensures var wait := ClockAt(script, p, start, k + 1) - ClockAt(script, p, start, k);
      var reply := script[k];
      reply.Failure? &&
      (reply.kind == RateLimited && reply.retryAfter.Some? && reply.retryAfter.value > 0 ==>
        wait == reply.retryAfter.value) &&
      (reply.kind == RateLimited && (reply.retryAfter.None? || reply.retryAfter.value <= 0) ==>
        wait == p.rateLimitedDefault) &&
      (reply.kind == GstnUnavailable && p.backoff == [] ==> wait == 30) &&
      (reply.kind == GstnUnavailable && k < |p.backoff| ==> wait == p.backoff[k]) &&
      (reply.kind == GstnUnavailable && 0 < |p.backoff| <= k ==> wait == p.backoff[|p.backoff| - 1])
  {
    CallsExactly(script, p);
  }

  /** The attempt row after `k` retries were scheduled. */
  function RowAt(script: seq<Reply>, p: Policy, start: int, row: Attempt, k: nat): Attempt
    requires Covers(script, p) && k <= Decisive(script, p)
  {
    if k == 0 then row
    else
      assert !Ends(script, p, k - 1);
      Retried(RowAt(script, p, start, row, k - 1), k, script[k - 1].kind, ClockAt(script, p, start, k))
  }

  /** The row the pull leaves behind. */
  function FinalRow(script: seq<Reply>, p: Policy, start: int, row: Attempt, pullId: nat): Attempt
    requires Covers(script, p)
  {
    var d := Decisive(script, p);
    var before := RowAt(script, p, start, row, d);
    match script[d]
    case Payload(_) => SucceededWith(before, d + 1, pullId, ClockAt(script, p, start, d))
    case Failure(kind, _) => FailedWith(before, Vendor(kind), ClockAt(script, p, start, d))
  }

  /** While the loop runs the row is `running`, then `retry_scheduled` with the attempt about to be made,
      the error that caused it, and a retry time that is exactly when the next call happens. */
  lemma {:induction false} RowAtIs(script: seq<Reply>, p: Policy, start: int, row: Attempt, k: nat)
    requires Covers(script, p) && k <= Decisive(script, p)
    requires row == Opened(row.profile, row.period, row.scheduled)
    ensures var r := RowAt(script, p, start, row, k);
      r.status == (if k == 0 then Running else RetryScheduled) && r.count == k + 1 &&
      r.finishedAt == None && r.pullId == None &&
      r.profile == row.profile && r.period == row.period && r.scheduled == row.scheduled &&
      (k > 0 ==> script[k - 1].Failure? && r.trouble == Some(Vendor(script[k - 1].kind)) &&
                 r.nextRetryAt == Some(ClockAt(script, p, start, k))) &&
      (k == 0 ==> r.trouble == None && r.nextRetryAt == None)
  {
    if k > 0 {
      assert !Ends(script, p, k - 1);
      RowAtIs(script, p, start, row, k - 1);
    }
  }

  /** The finished row: its status is the decisive call's, its count the calls made, its error the last
      one; a success clears the retry time, a failure leaves the last one standing. */
  lemma FinalRowIs(script: seq<Reply>, p: Policy, start: int, row: Attempt, pullId: nat)
    requires Covers(script, p) && row == Opened(row.profile, row.period, row.scheduled)
    ensures var d, r := Decisive(script, p), FinalRow(script, p, start, row, pullId);
      r.profile == row.profile && r.period == row.period && r.scheduled == row.scheduled &&
      (r.status == Succeeded <==> script[d].Payload?) && (r.status == Failed <==> script[d].Failure?) &&
      r.count == d + 1 && 1 <= r.count <= Limit(p) && r.finishedAt == Some(ClockAt(script, p, start, d)) &&
      (r.status == Succeeded ==> r.trouble == None && r.nextRetryAt == None && r.pullId == Some(pullId)) &&
      (r.status == Failed ==> r.trouble == Some(Vendor(script[d].kind)) && r.pullId == None) &&
      (r.status == Failed ==> r.nextRetryAt == if d == 0 then None else Some(ClockAt(script, p, start, d)))
  {
    RowAtIs(script, p, start, row, Decisive(script, p));
  }

  // ----- the call log -----

  datatype Endpoint = ConsentCall | ConfirmCall | FetchCall

  datatype CallError = FromVendor(kind: Kind) | InitiateCooldown

  datatype Call = Call(profile: nat, endpoint: Endpoint, succeeded: bool, error: Option<CallError>)

  function FetchRow(profile: nat, r: Reply): Call {
    if r.Payload? then Call(profile, FetchCall, true, None)
    else Call(profile, FetchCall, false, Some(FromVendor(r.kind)))
  }

  /** One row per call made, in order. */
  function FetchRows(profile: nat, script: seq<Reply>): seq<Call> {
    seq(|script|, i requires 0 <= i < |script| => FetchRow(profile, script[i]))
  }

  /** Of the rows a pull logs, at most the last is a success, and their number is the attempt count. */
  lemma LoggedCalls(script: seq<Reply>, p: Policy, start: int, row: Attempt, pullId: nat)
    requires Covers(script, p) && row == Opened(row.profile, row.period, row.scheduled)
    ensures var logged := FetchRows(row.profile, script[..Decisive(script, p) + 1]);
      |logged| == FinalRow(script, p, start, row, pullId).count &&
      (forall i :: 0 <= i < |logged| - 1 ==> !logged[i].succeeded) &&
      (forall i :: 0 <= i < |logged| ==> logged[i].profile == row.profile && logged[i].endpoint == FetchCall) &&
      (forall i :: 0 <= i < |logged| ==>
        logged[i].error == if script[i].Payload? then None else Some(FromVendor(script[i].kind))) &&
      (logged[|logged| - 1].succeeded <==> FinalRow(script, p, start, row, pullId).status == Succeeded)
  {
    FinalRowIs(script, p, start, row, pullId);
    CallsExactly(script, p);
  }

  // ----- the service -----

  datatype Profile = Profile(firm: nat, gstin: string)
  datatype InitiateResult = Initiated(id: nat) | NotInFirm | CoolingDown(retryAfter: int) | InitiateFailed(kind: Kind)
  datatype Vouched = Vouched(expiresAt: int) | Refused(kind: Kind)
  datatype ConfirmResult = Confirmed | RequestUnknown | LockedOut(retryAfter: int) | VendorError(kind: Kind)
  datatype PullResult = Pulled(pullId: nat, calls: nat) | NoLiveSession | PullFailed(kind: Kind)
  datatype Pull = Pull(profile: nat, period: string, body: string)

  predicate WrongOtp(reply: Vouched) { reply.Refused? && (reply.kind == OtpInvalid || reply.kind == OtpExpired) }

  /** What a judged reply does to the pair's lockout: only a success and a wrong OTP touch it. */
  function LockoutAfter(s: OtpLockout.State, reply: Vouched, now: int): OtpLockout.State {
    if reply.Vouched? then OtpLockout.Step(s, OtpLockout.RightOtp(now))
    else if WrongOtp(reply) then OtpLockout.Step(s, OtpLockout.WrongOtp(now))
    else s
  }

  /** On an unlocked pair: a success forgets every failure, an invalid or expired OTP is one more, and any other
      vendor error is none. */
  lemma LockoutAfterExactly(s: OtpLockout.State, reply: Vouched, now: int)
    requires !OtpLockout.Locked(s, now)
    ensures reply.Vouched? ==> LockoutAfter(s, reply, now) == OtpLockout.CLEAR
    ensures reply.Refused? && (reply.kind == OtpInvalid || reply.kind == OtpExpired) ==>
      LockoutAfter(s, reply, now) == OtpLockout.RecordFailure(s, now)
    ensures reply.Refused? && reply.kind != OtpInvalid && reply.kind != OtpExpired ==> LockoutAfter(s, reply, now) == s
  {
  }

  function DeadOp(profile: nat, r: Reply): Option<Op> {
    if r.Failure? && r.kind == SessionGone then Some(Dead(profile, false))
    else if r.Failure? && r.kind == ConsentGone then Some(Dead(profile, true))
    else None
  }

  /** The ledger after a pull that reached the vendor. */
  function LedgerAfter(l: Ledger, profile: nat, r: Reply): Ledger {
    if DeadOp(profile, r).Some? then Step(l, DeadOp(profile, r).value) else l
  }

  /** A pull ends its session exactly when its last call says that the session is gone or the consent was revoked,
      and the audit trail tells the two apart. */
  lemma PullKillsExactly(l: Ledger, profile: nat, r: Reply)
    requires Inv(l) && HasLive(l.rows, profile)
    ensures var after := LedgerAfter(l, profile, r);
      (HasLive(after.rows, profile) <==> r.Payload? || (r.kind != SessionGone && r.kind != ConsentGone)) &&
      (r.Failure? && r.kind == SessionGone ==> after.audit == l.audit + [Audit(profile, MarkedExpired)]) &&
      (r.Failure? && r.kind == ConsentGone ==> after.audit == l.audit + [Audit(profile, MarkedRevoked)]) &&
      (HasLive(after.rows, profile) ==> after == l)
  {
    if DeadOp(profile, r).Some? {
      StepLiveness(l, DeadOp(profile, r).value, profile);
    }
  }

  predicate Settled(attempts: seq<Attempt>) {
    forall i :: 0 <= i < |attempts| ==> attempts[i].status == Succeeded || attempts[i].status == Failed
  }

  lemma LedgerAfterKeeps(l: Ledger, profile: nat, r: Reply)
    requires Inv(l)
    ensures Inv(LedgerAfter(l, profile, r))
  {
    if DeadOp(profile, r).Some? {
      StepKeepsInv(l, DeadOp(profile, r).value);
    }
  }

  class Service {
    var ledger: Ledger
    var attempts: seq<Attempt>
    var calls: seq<Call>
    var pulls: seq<Pull>
    var inflight: map<nat, GspConsent.InFlight>
    var nextId: nat
    var lockoutAudit: seq<OtpLockout.Pair>
    var clock: nat
    const profiles: map<nat, Profile>
    const cooldown: Cooldown.Store
    const lockout: OtpLockout.Lockout

    /** Between requests: a consistent ledger and cooldown, and no attempt left unfinished. */
    ghost predicate Valid()
      reads this, cooldown
    {
      Inv(ledger) && Settled(attempts) && cooldown.Valid(clock)
    }

    constructor (profiles: map<nat, Profile>, clock: nat)
      ensures Valid() && ledger == EMPTY && attempts == [] && calls == [] && pulls == [] && lockoutAudit == []
      ensures Desk() == GspConsent.EMPTY
      ensures fresh(cooldown) && fresh(lockout) && forall p :: lockout.Contents(p) == OtpLockout.CLEAR
      ensures this.profiles == profiles && this.clock == clock
    {
      ledger, attempts, calls, pulls, lockoutAudit := EMPTY, [], [], [], [];
      inflight, nextId := map[], 0;
      this.clock := clock;
      this.profiles := profiles;
      cooldown := new Cooldown.Store();
      lockout := new OtpLockout.Lockout();
      new;
      RunInv([]);
    }

    predicate InFirm(firm: nat, profile: nat) { profile in profiles && profiles[profile].firm == firm }

    /** The requests in flight. */
    function Desk(): GspConsent.Desk
      reads this
    {
      GspConsent.Desk(inflight, nextId)
    }

    method CollectInFlight()
      modifies this`inflight
      ensures inflight == GspConsent.Collect(old(inflight), clock)
    {
      inflight := GspConsent.Collect(inflight, clock);
    }

    /** Ask the vendor for an OTP. The in-flight requests are swept first, whatever comes next; the cooldown of the
        GSTIN is asked before the vendor; and only a request the vendor accepted goes in flight, under a new id. */
    method InitiateConsent(firm: nat, user: nat, profile: nat, error: Option<Kind>) returns (r: InitiateResult)
      requires Valid()
      modifies this`calls, this`inflight, this`nextId, cooldown
      ensures Valid()
      ensures r.NotInFirm? <==> !(profile in profiles && profiles[profile].firm == firm)
      ensures r.NotInFirm? ==>
        calls == old(calls) &&
        Desk() == GspConsent.Step(old(Desk()), GspConsent.Initiate(clock, Request(firm, user, profile), false))
      ensures !r.NotInFirm? ==>
        var key := OtpLockout.NormGstin(profiles[profile].gstin);
        var reserved := Cooldown.ValueOf(old(cooldown.KeyAt(key, clock))) < Cooldown.MAX_PER_HOUR;
        (r.CoolingDown? <==> !reserved) && (r.Initiated? <==> reserved && error.None?) &&
        (r.Initiated? ==> r.id == old(nextId) && r.id in inflight) &&
        (r.InitiateFailed? ==> error == Some(r.kind))
      ensures r.Initiated? ==>
        inflight[r.id] == GspConsent.InFlight(firm, user, profile, profiles[profile].gstin, clock)
      ensures !r.NotInFirm? ==>
        Desk() == GspConsent.Step(old(Desk()), GspConsent.Initiate(clock, Request(firm, user, profile), r.Initiated?))
      ensures !r.NotInFirm? ==>
        calls == old(calls) + [Call(profile, ConsentCall, r.Initiated?,
          if r.Initiated? then None else if r.CoolingDown? then Some(InitiateCooldown) else Some(FromVendor(r.kind)))]
    {
      CollectInFlight();
      if !InFirm(firm, profile) {
        return NotInFirm;
      }
      var gstin := profiles[profile].gstin;
      var reserved, retryAfter := cooldown.TryReserveInitiate(OtpLockout.NormGstin(gstin), clock);
      if !reserved {
        calls := calls + [Call(profile, ConsentCall, false, Some(InitiateCooldown))];
        return CoolingDown(retryAfter);
      }
      if error.Some? {
        calls := calls + [Call(profile, ConsentCall, false, Some(FromVendor(error.value)))];
        return InitiateFailed(error.value);
      }
      calls := calls + [Call(profile, ConsentCall, true, None)];
      r := Initiated(nextId);
      inflight := inflight[nextId := GspConsent.InFlight(firm, user, profile, gstin, clock)];
      nextId := nextId + 1;
    }

    /** The request an initiate now would put in flight. */
    function Request(firm: nat, user: nat, profile: nat): GspConsent.InFlight
      reads this
    {
      GspConsent.InFlight(firm, user, profile, if profile in profiles then profiles[profile].gstin else "", clock)
    }

    /** Exchange an OTP. A locked pair is refused before the vendor is asked; a success consumes the request,
        clears the pair's lockout, and can never violate the one-live-row index; a wrong OTP counts against the
        pair, and the failure that locks it is audited. */
    method ConfirmConsent(firm: nat, user: nat, id: nat, reply: Vouched) returns (r: ConfirmResult)
      requires Valid()
      modifies this`ledger, this`calls, this`inflight, this`lockoutAudit, lockout
      ensures Valid()
      ensures r.RequestUnknown? <==> !GspConsent.Known(old(Desk()), firm, user, id)
      ensures Desk() == GspConsent.Step(old(Desk()), GspConsent.Exchange(firm, user, id, r.Confirmed?))
      ensures r.RequestUnknown? ==>
        ledger == old(ledger) && calls == old(calls) && lockoutAudit == old(lockoutAudit) &&
        forall p :: lockout.Contents(p) == old(lockout.Contents(p))
      ensures !r.RequestUnknown? ==>
        var profile := old(inflight)[id].profile;
        var pair := OtpLockout.PairOf(user, old(inflight)[id].gstin);
        var lock := old(lockout.Contents(OtpLockout.PairOf(user, inflight[id].gstin)));
        (forall p :: p != pair ==> lockout.Contents(p) == old(lockout.Contents(p))) &&
        if OtpLockout.Locked(lock, clock) then
          r == LockedOut(lock.lockedUntil.value - clock) && 1 <= r.retryAfter &&
          ledger == old(ledger) && calls == old(calls) && lockoutAudit == old(lockoutAudit) &&
          lockout.Contents(pair) == lock
        else
          lockout.Contents(pair) == LockoutAfter(lock, reply, clock) &&
          lockoutAudit == old(lockoutAudit)
            + (if OtpLockout.Locked(lockout.Contents(pair), clock) then [pair] else []) &&
          match reply
          case Vouched(expiresAt) =>
            r == Confirmed && ledger == Step(old(ledger), Confirm(profile, expiresAt)) &&
            HasLive(ledger.rows, profile) && calls == old(calls) + [Call(profile, ConfirmCall, true, None)]
          case Refused(kind) =>
            r == VendorError(kind) && ledger == old(ledger) &&
            calls == old(calls) + [Call(profile, ConfirmCall, false, Some(FromVendor(kind)))]
    {
      if id !in inflight {
        return RequestUnknown;
      }
      var req := inflight[id];
      if req.firm != firm || req.user != user {
        return RequestUnknown;
      }
      var pair := OtpLockout.PairOf(user, req.gstin);
      var locked := lockout.IsLocked(pair, clock);
      if locked {
        var ttl := lockout.TtlSeconds(pair, clock);
        return LockedOut(AtLeastOne(ttl));
      }
      var confirmed := Judge(pair, req.profile, reply);
      if !confirmed {
        return VendorError(reply.kind);
      }
      inflight := inflight - {id};
      r := Confirmed;
    }

    /** The vendor's answer on an unlocked pair: logged, counted or cleared, and a session stored on success. */
    method Judge(pair: OtpLockout.Pair, profile: nat, reply: Vouched) returns (confirmed: bool)
      requires Inv(ledger) && !OtpLockout.Locked(lockout.Contents(pair), clock)
      modifies this`ledger, this`calls, this`lockoutAudit, lockout
      ensures Inv(ledger) && confirmed == reply.Vouched?
      ensures lockout.Contents(pair) == LockoutAfter(old(lockout.Contents(pair)), reply, clock)
      ensures forall p :: p != pair ==> lockout.Contents(p) == old(lockout.Contents(p))
      ensures lockoutAudit == old(lockoutAudit)
        + (if OtpLockout.Locked(lockout.Contents(pair), clock) then [pair] else [])
      ensures match reply
        case Vouched(expiresAt) =>
          ledger == Step(old(ledger), Confirm(profile, expiresAt)) && HasLive(ledger.rows, profile) &&
          calls == old(calls) + [Call(profile, ConfirmCall, true, None)]
        case Refused(kind) =>
          ledger == old(ledger) && calls == old(calls) + [Call(profile, ConfirmCall, false, Some(FromVendor(kind)))]
    {
      confirmed := reply.Vouched?;
      if reply.Refused? {
        calls := calls + [Call(profile, ConfirmCall, false, Some(FromVendor(reply.kind)))];
        CountFailure(pair, reply);
        return;
      }
      lockout.Clear(pair);
      calls := calls + [Call(profile, ConfirmCall, true, None)];
      StoreSession(profile, reply.expiresAt);
    }

    /** A wrong OTP counts against the pair, and the failure that locks it is audited. */
    method CountFailure(pair: OtpLockout.Pair, reply: Vouched)
      requires reply.Refused? && !OtpLockout.Locked(lockout.Contents(pair), clock)
      modifies this`lockoutAudit, lockout
      ensures lockout.Contents(pair) == LockoutAfter(old(lockout.Contents(pair)), reply, clock)
      ensures forall p :: p != pair ==> lockout.Contents(p) == old(lockout.Contents(p))
      ensures lockoutAudit == old(lockoutAudit)
        + (if OtpLockout.Locked(lockout.Contents(pair), clock) then [pair] else [])
    {
      if WrongOtp(reply) {
        var count := lockout.Record(pair, clock);
        if count >= OtpLockout.MAX_ATTEMPTS {
          lockoutAudit := lockoutAudit + [pair];
        }
      }
    }

    /** Revoke the prior live row, if any, and insert the new one. */
    method StoreSession(profile: nat, expiresAt: int)
      requires Inv(ledger)
      modifies this`ledger
      ensures Inv(ledger) && HasLive(ledger.rows, profile)
      ensures ledger == Step(old(ledger), Confirm(profile, expiresAt))
    {
      ConfirmIs(ledger, profile, expiresAt);
      ledger := ConfirmStep(ledger, profile, expiresAt).value;
    }

    /** False when the profile is not in the firm. */
    method CutOff(firm: nat, profile: nat) returns (found: bool)
      requires Valid()
      modifies this`ledger
      ensures Valid()
      ensures found <==> profile in profiles && profiles[profile].firm == firm
      ensures ledger == if found then Step(old(ledger), Cut(profile)) else old(ledger)
    {
      if !InFirm(firm, profile) {
        return false;
      }
      StepKeepsInv(ledger, Cut(profile));
      ledger := CutStep(ledger, profile);
      found := true;
    }

    method MarkSessionDead(profile: nat, revoked: bool)
      modifies this`ledger
      ensures ledger == Step(old(ledger), Dead(profile, revoked))
    {
      ledger := DeadStep(ledger, profile, revoked);
    }

    /** `pull_period`: the attempt row, the call log, the ledger, the stored pull and the clock, for every
        script of vendor replies. */
    method PullPeriod(profile: nat, period: string, scheduled: bool, policy: Policy, script: seq<Reply>)
      returns (r: PullResult)
      requires Valid() && Covers(script, policy)
      modifies this`ledger, this`attempts, this`calls, this`pulls, this`clock
      ensures Valid()
      ensures r.NoLiveSession? <==> LoadLive(old(ledger), profile, old(clock)).None?
      ensures r.NoLiveSession? ==>
        attempts == old(attempts) + [FailedWith(Opened(profile, period, scheduled), SessionDead, old(clock))] &&
        ledger == old(ledger) && calls == old(calls) && pulls == old(pulls) && clock == old(clock)
      ensures !r.NoLiveSession? ==>
        var d := Decisive(script, policy);
        attempts == old(attempts)
          + [FinalRow(script, policy, old(clock), Opened(profile, period, scheduled), |old(pulls)|)] &&
        calls == old(calls) + FetchRows(profile, script[..d + 1]) &&
        ledger == LedgerAfter(old(ledger), profile, script[d]) &&
        clock == ClockAt(script, policy, old(clock), d) &&
        match script[d]
        case Payload(body) => r == Pulled(|old(pulls)|, d + 1) && pulls == old(pulls) + [Pull(profile, period, body)]
        case Failure(kind, _) => r == PullFailed(kind) && pulls == old(pulls)
    {
      var id := |attempts|;
      var row := Opened(profile, period, scheduled);
      attempts := attempts + [row];
      if LoadLive(ledger, profile, clock).None? {
        attempts := attempts[id := FailedWith(row, SessionDead, clock)];
        return NoLiveSession;
      }
      var k := RunWithRetry(id, profile, policy, script);
      var reply := script[k];
      FinalRowIs(script, policy, old(clock), row, |old(pulls)|);
      LedgerAfterKeeps(ledger, profile, reply);
      if reply.Failure? {
        ConcludeFailure(id, profile, reply);
        return PullFailed(reply.kind);
      }
      pulls := pulls + [Pull(profile, period, reply.body)];
      attempts := attempts[id := SucceededWith(attempts[id], k + 1, |pulls| - 1, clock)];
      r := Pulled(|pulls| - 1, k + 1);
    }

    /** The two `except` branches: a dead session is marked first, then the row fails with the error. */
    method ConcludeFailure(id: nat, profile: nat, reply: Reply)
      requires reply.Failure? && id < |attempts|
      modifies this`ledger, this`attempts
      ensures ledger == LedgerAfter(old(ledger), profile, reply)
      ensures attempts == old(attempts)[id := FailedWith(old(attempts)[id], Vendor(reply.kind), clock)]
    {
      if reply.kind == SessionGone || reply.kind == ConsentGone {
        MarkSessionDead(profile, reply.kind == ConsentGone);
      }
      attempts := attempts[id := FailedWith(attempts[id], Vendor(reply.kind), clock)];
    }

    /** `run_with_retry` around the logged vendor call: stops at the decisive call, having logged every
        call and rewritten only its own attempt row. */
    method RunWithRetry(id: nat, profile: nat, policy: Policy, script: seq<Reply>) returns (k: nat)
      requires Covers(script, policy) && id < |attempts|
      modifies this`attempts, this`calls, this`clock
      ensures k == Decisive(script, policy)
      ensures attempts == old(attempts)[id := RowAt(script, policy, old(clock), old(attempts)[id], k)]
      ensures calls == old(calls) + FetchRows(profile, script[..k + 1])
      ensures clock == ClockAt(script, policy, old(clock), k) && clock >= old(clock)
    {
      k := 0;
      while true
        invariant k <= Decisive(script, policy)
        invariant attempts == old(attempts)[id := RowAt(script, policy, old(clock), old(attempts)[id], k)]
        invariant calls == old(calls) + FetchRows(profile, script[..k])
        invariant clock == ClockAt(script, policy, old(clock), k) && clock >= old(clock)
        decreases Limit(policy) - k
      {
        var reply := script[k];
        assert FetchRows(profile, script[..k + 1]) == FetchRows(profile, script[..k]) + [FetchRow(profile, reply)];
        calls := calls + [FetchRow(profile, reply)];
        if !Retryable(reply) || k + 1 >= Limit(policy) {
          assert Ends(script, policy, k);
          return;
        }
        var wait := WaitSeconds(policy, reply, k);
        attempts := attempts[id := Retried(attempts[id], k + 1, reply.kind, clock + wait)];
        clock := clock + wait;
        k := k + 1;
      }
    }
  }

  /** After the vendor reports a session dead, the next pull of that profile makes no vendor call at any
      later time, whatever else happened meanwhile short of a new confirm. */
  lemma NoCallOnDeadSession(ops: seq<Op>, more: seq<Op>, profile: nat, r: Reply, now: int)
    requires DeadOp(profile, r).Some?
    requires forall k :: 0 <= k < |more| ==> !Revives(more[k], profile)
    ensures LedgerAfter(Run(ops), profile, r) == Run(ops + [DeadOp(profile, r).value])
    ensures LoadLive(Run(ops + [DeadOp(profile, r).value] + more), profile, now).None?
  {
    var all := ops + [DeadOp(profile, r).value];
    assert all[..|all| - 1] == ops;
    DeadStaysDead(all, more, profile, now);
  }
}
