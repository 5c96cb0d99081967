/** The OTP lockout of gsp/lockout.py for one (user, gstin) pair: a fixed-window failure counter and a lock
    marker, both expiring, consulted before every guess. Times are seconds; a Redis key is gone from its
    expiry instant on. */
module OtpLockout {
  import opened Wrappers
  import opened Timeline
  import Canonical

  const MAX_ATTEMPTS: nat := 5
  const WINDOW: nat := 900

  datatype Counter = Counter(count: nat, expireAt: int)

  /** The two keys; and the failures since the last success, those the counter counts (`batch`) after the
      earlier ones. */
  datatype State = State(attempts: Option<Counter>, lockedUntil: Option<int>, earlier: seq<int>, batch: seq<int>)

  const CLEAR := State(None, None, [], [])

  function Failures(s: State): seq<int> { s.earlier + s.batch }

  predicate Locked(s: State, now: int) { s.lockedUntil.Some? && now < s.lockedUntil.value }

  predicate Counting(s: State, now: int) { s.attempts.Some? && now < s.attempts.value.expireAt }

  /** `record_failure`: INCR, EXPIRE on the first, and the lock marker from the fifth on. */
  function RecordFailure(s: State, now: int): State {
    var count := if Counting(s, now) then s.attempts.value.count + 1 else 1;
    State(Some(Counter(count, if count == 1 then now + WINDOW else s.attempts.value.expireAt)),
          if count >= MAX_ATTEMPTS then Some(now + WINDOW) else s.lockedUntil,
          if Counting(s, now) then s.earlier else Failures(s),
          if Counting(s, now) then s.batch + [now] else [now])
  }

  datatype Event = WrongOtp(now: int) | RightOtp(now: int)

  /** One confirm: refused while locked, otherwise judged; a success clears both keys. */
  function Step(s: State, e: Event): State {
    if Locked(s, e.now) then s else if e.WrongOtp? then RecordFailure(s, e.now) else CLEAR
  }

  predicate Clocked(events: seq<Event>) {
    forall i, j :: 0 <= i < j < |events| ==> events[i].now <= events[j].now
  }

  function Run(events: seq<Event>): State {
    if events == [] then CLEAR else Step(Run(events[..|events| - 1]), events[|events| - 1])
  }

  // ----- the keys -----

  /** What the two keys are named after: a user, and a GSTIN stripped and upper-cased. */
  datatype Pair = Pair(user: nat, gstin: string)

  function NormGstin(gstin: string): string { Canonical.ToUpper(Canonical.Strip(gstin)) }

  function PairOf(user: nat, gstin: string): Pair { Pair(user, NormGstin(gstin)) }

  class Lockout {
    var attempts: map<Pair, Counter>
    var lockedUntil: map<Pair, int>
    ghost var earlier: map<Pair, seq<int>>
    ghost var batch: map<Pair, seq<int>>

    ghost function Contents(p: Pair): State
      reads this
    {
      State(if p in attempts then Some(attempts[p]) else None, if p in lockedUntil then Some(lockedUntil[p]) else None,
            if p in earlier then earlier[p] else [], if p in batch then batch[p] else [])
    }

    constructor ()
      ensures forall p :: Contents(p) == CLEAR
    {
      attempts, lockedUntil, earlier, batch := map[], map[], map[], map[];
    }

    method IsLocked(p: Pair, now: int) returns (r: bool)
      ensures r <==> Locked(Contents(p), now)
    {
      r := p in lockedUntil && now < lockedUntil[p];
    }

    method TtlSeconds(p: Pair, now: int) returns (ttl: int)
      ensures ttl == if Locked(Contents(p), now) then Contents(p).lockedUntil.value - now else -1
    {
      if p in lockedUntil && now < lockedUntil[p] {
        return lockedUntil[p] - now;
      }
      ttl := -1;
    }

    method Record(p: Pair, now: int) returns (count: nat)
      modifies this
      ensures Contents(p) == RecordFailure(old(Contents(p)), now)
      ensures Contents(p).attempts == Some(Counter(count, Contents(p).attempts.value.expireAt))
      ensures forall q :: q != p ==> Contents(q) == old(Contents(q))
    {
      ghost var s := Contents(p);
      if p in attempts && now < attempts[p].expireAt {
        count := attempts[p].count + 1;
        attempts := attempts[p := Counter(count, attempts[p].expireAt)];
      } else {
        count := 1;
        attempts := attempts[p := Counter(1, now)];
      }
      if count == 1 {
        attempts := attempts[p := Counter(count, now + WINDOW)];
      }
      if count >= MAX_ATTEMPTS {
        lockedUntil := lockedUntil[p := now + WINDOW];
      }
      earlier := earlier[p := RecordFailure(s, now).earlier];
      batch := batch[p := RecordFailure(s, now).batch];
    }

    method Clear(p: Pair)
      modifies this
      ensures Contents(p) == CLEAR
      ensures forall q :: q != p ==> Contents(q) == old(Contents(q))
    {
      attempts, lockedUntil, earlier, batch := attempts - {p}, lockedUntil - {p}, earlier - {p}, batch - {p};
    }
  }

  // ----- what was judged -----

  /** Every wrong guess that was judged in a run; a success forgets none of these. */
  function Judged(events: seq<Event>): seq<int> {
    if events == [] then []
    else
      var front, e := events[..|events| - 1], events[|events| - 1];
      Judged(front) + if e.WrongOtp? && !Locked(Run(front), e.now) then [e.now] else []
  }

  // ----- the invariant -----

  const MOST: nat := 8

  function WindowCount(s: seq<int>, from: int): nat { CountIn(s, from, from + WINDOW) }

  /** The counter counts the batch, which its first failure opened; the lock runs a full window from the
      fifth; and at most three earlier failures are within a window of the batch's start. */
  ghost predicate Inv(s: State, now: int) {
    && |s.batch| <= MAX_ATTEMPTS && Sorted(s.batch) && AtMost(s.batch, now)
    && (s.batch == [] ==> s == CLEAR)
    && (s.batch != [] ==>
        s.attempts == Some(Counter(|s.batch|, s.batch[0] + WINDOW)) &&
        AtMost(s.earlier, s.batch[0]) && |Trim(s.earlier, s.batch[0] - WINDOW)| <= 3)
    && (|s.batch| == MAX_ATTEMPTS ==> s.lockedUntil == Some(s.batch[4] + WINDOW))
    && (forall from :: WindowCount(s.earlier, from) <= MOST)
  }

  lemma {:induction false} FirstIsLeast(s: seq<int>)
    requires Sorted(s) && s != []
    ensures forall i :: 0 <= i < |s| ==> s[i] >= s[0]
  {
  }

  /** No window holds more than eight failures: three of an earlier batch and five of this one. */
  lemma WindowHoldsEight(s: State, now: int, from: int)
    requires Inv(s, now)
    ensures WindowCount(Failures(s), from) <= MOST
  {
    var to := from + WINDOW;
    CountConcat(s.earlier, s.batch, from, to);
    assert WindowCount(s.earlier, from) <= MOST;
    if s.batch != [] {
      FirstIsLeast(s.batch);
      if to <= s.batch[0] {
        CountBefore(s.batch, from, to);
      } else {
        CountWithinTrim(s.earlier, s.batch[0] - WINDOW, from, to);
        CountAtMostLength(s.batch, from, to);
      }
    }
  }

  /** A failure that the live counter counts. */
  lemma CountedFailureKeeps(s: State, last: int, now: int)
    requires Inv(s, last) && last <= now && !Locked(s, now) && Counting(s, now)
    ensures Inv(RecordFailure(s, now), now)
  {
    assert (s.batch + [now])[0] == s.batch[0];
  }

  /** When the counter has expired unlocked, or a lock has run out, at most three failures still matter. */
  lemma FewStillMatter(s: State, last: int, now: int)
    requires Inv(s, last) && last <= now && !Locked(s, now) && !Counting(s, now)
    ensures |Trim(Failures(s), now - WINDOW)| <= 3
  {
    var c := now - WINDOW;
    TrimConcat(s.earlier, s.batch, c);
    if s.batch != [] {
      TrimAll(s.earlier, c);
      BatchRemainder(s.batch, c);
    }
  }

  lemma BatchRemainder(batch: seq<int>, c: int)
    requires batch != [] && |batch| <= MAX_ATTEMPTS && Sorted(batch) && batch[0] <= c
    requires |batch| == MAX_ATTEMPTS ==> batch[4] <= c
    ensures |Trim(batch, c)| <= 3
  {
    if |batch| == MAX_ATTEMPTS {
      TrimAll(batch, c);
    } else {
      TrimShrinks(batch[1..], c);
    }
  }

  /** A failure that finds the counter expired opens a batch. */
  lemma FreshFailureKeeps(s: State, last: int, now: int)
    requires Inv(s, last) && last <= now && !Locked(s, now) && !Counting(s, now)
    ensures Inv(RecordFailure(s, now), now)
  {
    FewStillMatter(s, last, now);
    forall from
      ensures WindowCount(Failures(s), from) <= MOST
    {
      WindowHoldsEight(s, last, from);
    }
    assert AtMost(Failures(s), now);
  }

  lemma StepKeeps(s: State, last: int, e: Event)
    requires Inv(s, last) && last <= e.now
    ensures Inv(Step(s, e), e.now)
  {
    if Locked(s, e.now) {
    } else if e.RightOtp? {
      assert Trim([], 0) == [];
    } else if Counting(s, e.now) {
      CountedFailureKeeps(s, last, e.now);
    } else {
      FreshFailureKeeps(s, last, e.now);
    }
  }

  lemma {:induction false} RunInv(events: seq<Event>, now: int)
    requires Clocked(events) && (events != [] ==> events[|events| - 1].now <= now)
    ensures Inv(Run(events), now)
  {
    if events != [] {
      var e := events[|events| - 1];
      RunInv(events[..|events| - 1], e.now);
      StepKeeps(Run(events[..|events| - 1]), e.now, e);
    }
  }

  /** In every run, since the last success no half-open window of 900 seconds holds more than eight judged
      wrong guesses. */
  lemma AtMostEightGuesses(events: seq<Event>, from: int)
    requires Clocked(events)
    ensures WindowCount(Failures(Run(events)), from) <= MOST
  {
    var now := if events == [] then 0 else events[|events| - 1].now;
    RunInv(events, now);
    WindowHoldsEight(Run(events), now, from);
  }

  lemma Snoc(events: seq<Event>, e: Event)
    ensures Run(events + [e]) == Step(Run(events), e)
  {
    assert (events + [e])[..|events|] == events;
  }

  /** `n` wrong guesses at one instant. */
  function Burst(now: int, n: nat): seq<Event> { if n == 0 then [] else Burst(now, n - 1) + [WrongOtp(now)] }

  function Times(now: int, n: nat): seq<int> { if n == 0 then [] else Times(now, n - 1) + [now] }

  /** Unlocked, with a live counter that counts the batch. */
  predicate Open(s: State, now: int) {
    s.lockedUntil == None && s.batch != [] && Counting(s, now) && s.attempts.value.count == |s.batch|
  }

  lemma CountedOnce(s: State, now: int)
    requires Open(s, now) && |s.batch| < MAX_ATTEMPTS
    ensures var t := Step(s, WrongOtp(now));
      t.earlier == s.earlier && t.batch == s.batch + [now] && t.attempts.Some? &&
      t.attempts.value.expireAt == s.attempts.value.expireAt && (|t.batch| < MAX_ATTEMPTS ==> Open(t, now))
  {
  }

  function AfterBurst(s: State, now: int, n: nat): State {
    if n == 0 then s else Step(AfterBurst(s, now, n - 1), WrongOtp(now))
  }

  lemma {:induction false} RunBurst(events: seq<Event>, now: int, n: nat)
    ensures Run(events + Burst(now, n)) == AfterBurst(Run(events), now, n)
  {
    if n == 0 {
      assert events + [] == events;
    } else {
      RunBurst(events, now, n - 1);
      Assoc3(events, Burst(now, n - 1), WrongOtp(now));
      Snoc(events + Burst(now, n - 1), WrongOtp(now));
    }
  }

  lemma Assoc3<T>(a: seq<T>, b: seq<T>, x: T)
    ensures a + (b + [x]) == (a + b) + [x]
  {
  }

  /** A burst that stays within the limit only lengthens the live batch. */
  lemma {:induction false} BurstCounts(s: State, now: int, n: nat)
    requires Open(s, now) && |s.batch| + n <= MAX_ATTEMPTS
    ensures var t := AfterBurst(s, now, n);
      t.earlier == s.earlier && t.batch == s.batch + Times(now, n) && |t.batch| == |s.batch| + n && t.attempts.Some? &&
      t.attempts.value.expireAt == s.attempts.value.expireAt && (|t.batch| < MAX_ATTEMPTS ==> Open(t, now))
  {
    if n > 0 {
      BurstCounts(s, now, n - 1);
      CountedOnce(AfterBurst(s, now, n - 1), now);
      Assoc3(s.batch, Times(now, n - 1), now);
    } else {
      assert s.batch + [] == s.batch;
    }
  }

  lemma FirstGuess(events: seq<Event>)
    requires events == [WrongOtp(0)]
    ensures Run(events) == State(Some(Counter(1, 900)), None, [], [0])
  {
    assert events[..0] == [] && Failures(CLEAR) == [];
  }

  lemma ThreeMore(s: State)
    requires s == State(Some(Counter(1, 900)), None, [], [0])
    ensures var t := AfterBurst(s, 899, 3);
      t.attempts == Some(Counter(4, 900)) && t.lockedUntil == None && t.earlier == [] && t.batch == [0] + Times(899, 3)
  {
    BurstCounts(s, 899, 3);
  }

  lemma FourByTheEnd() returns (events: seq<Event>)
    ensures Clocked(events) && events != [] && events[|events| - 1].now <= 900
    ensures var s := Run(events);
      Failures(s) == [0] + Times(899, 3) && s.attempts == Some(Counter(4, 900)) && s.lockedUntil == None
  {
    var first := [WrongOtp(0)];
    FirstGuess(first);
    ThreeMore(Run(first));
    RunBurst(first, 899, 3);
    events := first + Burst(899, 3);
    BurstIs(899, 3);
    assert [] + ([0] + Times(899, 3)) == [0] + Times(899, 3);
  }

  lemma {:induction false} BurstIs(now: int, n: nat)
    ensures |Burst(now, n)| == |Times(now, n)| == n
    ensures forall i :: 0 <= i < n ==> Burst(now, n)[i] == WrongOtp(now) && Times(now, n)[i] == now
  {
    if n > 0 {
      BurstIs(now, n - 1);
    }
  }

  /** The documented five per window is not a sliding bound: eight are reached across a window's end. */
  lemma EightAreReached() returns (events: seq<Event>)
    ensures Clocked(events) && WindowCount(Failures(Run(events)), 899) == MOST
  {
    var four := FourByTheEnd();
    Snoc(four, WrongOtp(900));
    RunBurst(four + [WrongOtp(900)], 900, 4);
    BurstCounts(Run(four + [WrongOtp(900)]), 900, 4);
    BurstIs(900, 4);
    events := four + [WrongOtp(900)] + Burst(900, 4);
    CountAcross(Run(events));
  }

  lemma CountAcross(s: State)
    requires s.earlier == [0] + Times(899, 3) && s.batch == [900] + Times(900, 4)
    ensures WindowCount(Failures(s), 899) == 8
  {
    BurstIs(899, 3);
    BurstIs(900, 4);
    CountInside(Failures(s)[1..], 899, 1799);
  }

  /** The fifth counted failure locks for a full window: every confirm in it is refused unjudged, and the
      next one judged finds a fresh counter. */
  lemma LockHoldsForAWindow(events: seq<Event>, e: Event)
    requires Clocked(events + [e]) && |Run(events).batch| == MAX_ATTEMPTS
    ensures e.now < Run(events).batch[4] + WINDOW ==> Step(Run(events), e) == Run(events)
    ensures e.now >= Run(events).batch[4] + WINDOW ==> !Locked(Run(events), e.now) && !Counting(Run(events), e.now)
  {
    assert forall i :: 0 <= i < |events| ==> (events + [e])[i] == events[i];
    assert (events + [e])[|events|] == e;
    RunInv(events, e.now);
  }
  // ----- exactly when five can be exceeded -----

  /** The guesses of the last 15 minutes. */
  function Recent(events: seq<Event>, now: int): seq<int> { Trim(Judged(events), now - WINDOW) }

  /** How many guesses the live counter counts. */
  function Counted(s: State, now: int): nat { if Counting(s, now) then s.attempts.value.count else 0 }

  lemma JudgedSnoc(events: seq<Event>, e: Event)
    ensures Judged(events + [e]) ==
      Judged(events) + if e.WrongOtp? && !Locked(Run(events), e.now) then [e.now] else []
  {
    assert (events + [e])[..|events|] == events;
  }

  /** `recent` judged guesses in the last 15 minutes, `counted` of them by the live counter. */
  datatype Standing = Standing(recent: nat, counted: nat)

  function StandingOf(events: seq<Event>, now: int): Standing {
    Standing(|Recent(events, now)|, Counted(Run(events), now))
  }

  /** The live counter locks at five. */
  ghost predicate StandsAt(events: seq<Event>, now: int, s: Standing) {
    StandingOf(events, now) == s && (Locked(Run(events), now) <==> s.counted >= MAX_ATTEMPTS)
  }

  /** One more wrong guess is judged until the counter reads five. */
  function Bump(s: Standing): Standing {
    if s.counted < MAX_ATTEMPTS then Standing(s.recent + 1, s.counted + 1) else s
  }

  lemma RecentOneMore(events: seq<Event>, now: int)
    requires !Locked(Run(events), now)
    ensures |Recent(events + [WrongOtp(now)], now)| == |Recent(events, now)| + 1
  {
    JudgedSnoc(events, WrongOtp(now));
    TrimAppend(Judged(events), now, now - WINDOW);
  }

  lemma CountedOneMore(s: State, now: int)
    requires !Locked(s, now)
    ensures var t := Step(s, WrongOtp(now));
      Counted(t, now) == Counted(s, now) + 1 && (Locked(t, now) <==> Counted(t, now) >= MAX_ATTEMPTS)
  {
  }

  lemma LockedUnjudged(events: seq<Event>, now: int)
    requires Locked(Run(events), now)
    ensures Judged(events + [WrongOtp(now)]) == Judged(events)
  {
    JudgedSnoc(events, WrongOtp(now));
    assert Judged(events) + [] == Judged(events);
  }

  lemma OneMore(events: seq<Event>, now: int, s: Standing)
    requires StandsAt(events, now, s)
    ensures StandsAt(events + [WrongOtp(now)], now, Bump(s))
  {
    Snoc(events, WrongOtp(now));
    if Locked(Run(events), now) {
      LockedUnjudged(events, now);
    } else {
      RecentOneMore(events, now);
      CountedOneMore(Run(events), now);
    }
  }

  lemma BurstStep(events: seq<Event>, now: int, n: nat, s: Standing)
    requires StandsAt(events + Burst(now, n), now, s)
    ensures StandsAt(events + Burst(now, n + 1), now, Bump(s))
  {
    OneMore(events + Burst(now, n), now, s);
    Assoc3(events, Burst(now, n), WrongOtp(now));
  }

  function Bumped(s: Standing, n: nat): Standing { if n == 0 then s else Bump(Bumped(s, n - 1)) }

  function Least(a: nat, b: nat): nat { if a < b then a else b }

  lemma {:induction false} BumpedIs(s: Standing, n: nat)
    requires s.counted < MAX_ATTEMPTS
    ensures var judged := Least(n, MAX_ATTEMPTS - s.counted);
      Bumped(s, n) == Standing(s.recent + judged, s.counted + judged)
  {
    if n > 0 {
      BumpedIs(s, n - 1);
    }
  }

  lemma {:induction false} BurstStands(events: seq<Event>, now: int, n: nat, s: Standing)
    requires StandsAt(events, now, s)
    ensures StandsAt(events + Burst(now, n), now, Bumped(s, n))
  {
    if n == 0 {
      assert events + [] == events;
    } else {
      BurstStands(events, now, n - 1, s);
      BurstStep(events, now, n - 1, Bumped(s, n - 1));
    }
  }

  /** `n` wrong guesses at once. */
  lemma BurstIsJudged(events: seq<Event>, now: int, n: nat, s: Standing)
    requires StandsAt(events, now, s) && s.counted < MAX_ATTEMPTS
    ensures var judged := Least(n, MAX_ATTEMPTS - s.counted);
      StandsAt(events + Burst(now, n), now, Standing(s.recent + judged, s.counted + judged))
  {
    BurstStands(events, now, n, s);
    BumpedIs(s, n);
  }

  lemma UnlockedIsShort(events: seq<Event>, now: int)
    requires Clocked(events) && (events != [] ==> events[|events| - 1].now <= now)
    requires !Locked(Run(events), now)
    ensures Counted(Run(events), now) < MAX_ATTEMPTS
  {
    RunInv(events, now);
    var s := Run(events);
    if |s.batch| == MAX_ATTEMPTS {
      assert s.batch[0] <= s.batch[4];
    }
  }

  /** At any unlocked instant of any run, wrong guesses at once can take the last 15 minutes past five exactly
      when those minutes already hold more judged wrong guesses than the live counter counts: guesses of an
      expired counter, or from before a success. */
  lemma FiveExceededExactly(events: seq<Event>, now: int)
    requires Clocked(events) && (events != [] ==> events[|events| - 1].now <= now)
    requires !Locked(Run(events), now)
    ensures (exists n: nat :: |Recent(events + Burst(now, n), now)| > MAX_ATTEMPTS)
      <==> |Recent(events, now)| > Counted(Run(events), now)
  {
    UnlockedIsShort(events, now);
    var s := StandingOf(events, now);
    forall n: nat
      ensures |Recent(events + Burst(now, n), now)| <= s.recent + (MAX_ATTEMPTS - s.counted)
    {
      BurstIsJudged(events, now, n, s);
    }
    BurstIsJudged(events, now, MAX_ATTEMPTS, s);
    assert |Recent(events + Burst(now, MAX_ATTEMPTS), now)| == s.recent + (MAX_ATTEMPTS - s.counted);
  }

  // ----- what a success does -----

  /** The judged guesses are those `Failures` holds, after others that a success wiped from it: none if there
      was no success. */
  lemma {:induction false} FailuresAreLatest(events: seq<Event>) returns (wiped: seq<int>)
    ensures Judged(events) == wiped + Failures(Run(events))
    ensures (forall i :: 0 <= i < |events| ==> events[i].WrongOtp?) ==> wiped == []
  {
    if events == [] {
      wiped := [];
    } else {
      var front, e := events[..|events| - 1], events[|events| - 1];
      wiped := FailuresAreLatest(front);
      var s := Run(front);
      if !Locked(s, e.now) {
        if e.RightOtp? {
          wiped := Judged(events);
        } else {
          Assoc3(wiped, Failures(s), e.now);
          FailuresStep(s, e.now);
        }
      }
    }
  }

  lemma FailuresStep(s: State, now: int)
    ensures Failures(Step(s, WrongOtp(now))) == if Locked(s, now) then Failures(s) else Failures(s) + [now]
  {
    Assoc3(s.earlier, s.batch, now);
  }

  lemma {:induction false} WithoutSuccess(events: seq<Event>)
    requires forall i :: 0 <= i < |events| ==> events[i].WrongOtp?
    ensures Judged(events) == Failures(Run(events))
  {
    if events == [] {
      assert Failures(CLEAR) == [];
    } else {
      var front, e := events[..|events| - 1], events[|events| - 1];
      WithoutSuccess(front);
      FailuresStep(Run(front), e.now);
      assert Failures(Run(front)) + [] == Failures(Run(front));
    }
  }

  /** So eight is the most in any 15 minutes of a run without a success. */
  lemma AtMostEightWithoutSuccess(events: seq<Event>, from: int)
    requires Clocked(events) && forall i :: 0 <= i < |events| ==> events[i].WrongOtp?
    ensures WindowCount(Judged(events), from) <= MOST
  {
    WithoutSuccess(events);
    AtMostEightGuesses(events, from);
  }

  function Rounds(now: int, n: nat): seq<Event> {
    if n == 0 then [] else Rounds(now, n - 1) + Burst(now, 4) + [RightOtp(now)]
  }

  lemma SuccessClears(events: seq<Event>, now: int, s: Standing)
    requires StandsAt(events, now, s) && s.counted < MAX_ATTEMPTS
    ensures StandsAt(events + [RightOtp(now)], now, Standing(s.recent, 0))
  {
    Snoc(events, RightOtp(now));
    JudgedSnoc(events, RightOtp(now));
    assert Judged(events) + [] == Judged(events);
  }

  lemma OneRound(events: seq<Event>, now: int, recent: nat)
    requires StandsAt(events, now, Standing(recent, 0))
    ensures StandsAt(events + Burst(now, 4) + [RightOtp(now)], now, Standing(recent + 4, 0))
  {
    BurstIsJudged(events, now, 4, Standing(recent, 0));
    SuccessClears(events + Burst(now, 4), now, Standing(recent + 4, 4));
  }

  lemma {:induction false} RoundsAreNow(now: int, n: nat)
    ensures forall i :: 0 <= i < |Rounds(now, n)| ==> Rounds(now, n)[i].now == now
  {
    if n > 0 {
      RoundsAreNow(now, n - 1);
      BurstIs(now, 4);
    }
  }

  lemma {:induction false} RoundsStand(now: int, n: nat)
    ensures StandsAt(Rounds(now, n), now, Standing(4 * n, 0))
  {
    if n > 0 {
      RoundsStand(now, n - 1);
      OneRound(Rounds(now, n - 1), now, 4 * (n - 1));
    }
  }

  /** A success starts the count afresh, so guesses around successes are not bounded: four wrong and one right,
      `n` times at one instant, are all judged. */
  lemma SuccessesLiftTheBound(now: int, n: nat)
    ensures |Recent(Rounds(now, n), now)| == 4 * n
    ensures forall i :: 0 <= i < |Rounds(now, n)| ==> Rounds(now, n)[i].now == now
  {
    RoundsStand(now, n);
    RoundsAreNow(now, n);
  }
}
