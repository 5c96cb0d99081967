/** The Redis sliding-window limiter of auth/rate_limit.py. Times are milliseconds; a Redis key is
    gone from its expiry instant on. */
module RateLimit {
  import opened Timeline

  datatype Policy = Policy(maxHits: nat, windowS: nat) {
    predicate Ok() { maxHits > 0 && windowS > 0 }
    function WindowMs(): nat { windowS * 1000 }
  }

  const POLICIES: map<string, Policy> := map[
    "login_ip" := Policy(10, 60), "login_email" := Policy(5, 60), "register_ip" := Policy(5, 3600),
    "forgot_email" := Policy(3, 3600), "forgot_ip" := Policy(5, 3600)]

  lemma PoliciesOk(name: string)
    requires name in POLICIES
    ensures POLICIES[name].Ok()
  {
  }

  function Lower(c: char): char { if 'A' <= c <= 'Z' then (c as int + 32) as char else c }

  function ToLower(s: string): string { seq(|s|, i requires 0 <= i < |s| => Lower(s[i])) }

  /** The pair that `_key` renders as one string: identifiers are compared case-insensitively. */
  datatype Key = Key(policy: string, identifier: string)

  function KeyOf(policy: string, identifier: string): Key { Key(policy, ToLower(identifier)) }

  // ----- Redis -----

  /** A sorted set: its scores in ascending order, and the instant its key expires. */
  datatype Bucket = Bucket(scores: seq<int>, expireAt: int)

  /** ZADD of a fresh member. */
  function Insert(scores: seq<int>, x: int): seq<int> {
    if scores == [] || scores[|scores| - 1] <= x then scores + [x]
    else Insert(scores[..|scores| - 1], x) + [scores[|scores| - 1]]
  }

  /** The limiter's store, and for every key the instants it admitted so far. */
  datatype Limiter = Limiter(buckets: map<Key, Bucket>, hits: map<Key, seq<int>>)

  function HitsOf(l: Limiter, k: Key): seq<int> { if k in l.hits then l.hits[k] else [] }

  function Visible(l: Limiter, k: Key, now: int): seq<int> {
    if k in l.buckets && now < l.buckets[k].expireAt then l.buckets[k].scores else []
  }

  function Live(l: Limiter, k: Key, p: Policy, now: int): seq<int> {
    Trim(Visible(l, k, now), now - p.WindowMs())
  }

  // ----- one check -----

  datatype Decision = Allowed | Denied(retryAfter: int)

  /** Python's `int(a / 1000)`: truncation toward zero. */
  function Truncate(a: int): int { if a >= 0 then a / 1000 else -(-a / 1000) }

  function RetryAfter(p: Policy, oldest: int, now: int): int {
    var r := Truncate(oldest + p.WindowMs() - now) + 1;
    if r < 1 then 1 else r
  }

  function Decide(p: Policy, live: seq<int>, now: int): Decision {
    if |live| >= p.maxHits && live != [] then Denied(RetryAfter(p, live[0], now)) else Allowed
  }

  function Trimmed(l: Limiter, k: Key, live: seq<int>): map<Key, Bucket> {
    if live == [] || k !in l.buckets then l.buckets - {k}
    else l.buckets[k := Bucket(live, l.buckets[k].expireAt)]
  }

  function Step(l: Limiter, k: Key, p: Policy, now: int): Limiter {
    var live := Live(l, k, p, now);
    if |live| >= p.maxHits then l.(buckets := Trimmed(l, k, live))
    else Limiter(l.buckets[k := Bucket(Insert(live, now), now + (p.windowS + 5) * 1000)],
                 l.hits[k := HitsOf(l, k) + [now]])
  }

  class RateLimiter {
    var buckets: map<Key, Bucket>
    ghost var hits: map<Key, seq<int>>

    ghost function State(): Limiter
      reads this
    {
      Limiter(buckets, hits)
    }

    constructor ()
      ensures State() == Limiter(map[], map[])
    {
      buckets := map[];
      hits := map[];
    }

    method Check(policy: string, identifier: string, nowMs: int) returns (allowed: bool, retryAfter: int)
      requires policy in POLICIES
      modifies this
      ensures var p, k := POLICIES[policy], KeyOf(policy, identifier);
        State() == Step(old(State()), k, p, nowMs) &&
        (match Decide(p, Live(old(State()), k, p, nowMs), nowMs)
         case Allowed => allowed && retryAfter == 0
         case Denied(r) => !allowed && retryAfter == r)
    {
      var p, k := POLICIES[policy], KeyOf(policy, identifier);
      var cutoff := nowMs - p.WindowMs();
      var scores := if k in buckets && nowMs < buckets[k].expireAt then buckets[k].scores else [];
      var live := Trim(scores, cutoff);
      assert live == Live(old(State()), k, p, nowMs);
      buckets := if live == [] || k !in buckets then buckets - {k} else buckets[k := Bucket(live, buckets[k].expireAt)];
      if |live| >= p.maxHits {
        if live == [] {
          return true, 0;
        }
        var r := Truncate(live[0] + p.WindowMs() - nowMs) + 1;
        return false, if r < 1 then 1 else r;
      }
      assert (old(buckets) - {k})[k := Bucket(Insert(live, nowMs), nowMs + (p.windowS + 5) * 1000)]
        == old(buckets)[k := Bucket(Insert(live, nowMs), nowMs + (p.windowS + 5) * 1000)];
      buckets := buckets[k := Bucket(Insert(live, nowMs), nowMs + (p.windowS + 5) * 1000)];
      hits := hits[k := HitsOf(old(State()), k) + [nowMs]];
      return true, 0;
    }
  }

  // ----- one key on its own -----

  /** How many admissions fall in the window that starts at `from`. */
  function WindowCount(p: Policy, hits: seq<int>, from: int): nat { CountIn(hits, from, from + p.WindowMs()) }

  /** What the limiter holds about one key. */
  datatype Slot = Slot(scores: seq<int>, expireAt: int, hits: seq<int>)

  function SlotOf(l: Limiter, k: Key): Slot {
    Slot(if k in l.buckets then l.buckets[k].scores else [],
         if k in l.buckets then l.buckets[k].expireAt else 0, HitsOf(l, k))
  }

  function LiveIn(p: Policy, s: Slot, now: int): seq<int> {
    Trim(if now < s.expireAt then s.scores else [], now - p.WindowMs())
  }

  /** From `last` on, trimming the stored scores gives what trimming every admission would; the key cannot
      expire while an admission still counts; and no window is over-full. */
  ghost predicate Tracks(p: Policy, s: Slot, last: int) {
    && Sorted(s.hits) && AtMost(s.hits, last)
    && (forall c :: c >= last - p.WindowMs() ==> Trim(s.scores, c) == Trim(s.hits, c))
    && (s.scores != [] ==> AtMost(s.hits, s.expireAt - p.WindowMs()))
    && (forall from :: WindowCount(p, s.hits, from) <= p.maxHits)
  }

  /** What a check sees is exactly the admissions still inside the window: neither trimming nor the
      key's expiry ever drops one that counts. */
  lemma LiveIsWindow(p: Policy, s: Slot, last: int, now: int)
    requires Tracks(p, s, last) && last <= now
    ensures LiveIn(p, s, now) == Trim(s.hits, now - p.WindowMs())
    ensures |LiveIn(p, s, now)| == CountIn(s.hits, now - p.WindowMs() + 1, now + 1) <= p.maxHits
  {
    var c := now - p.WindowMs();
    assert Trim(s.scores, c) == Trim(s.hits, c);
    if now >= s.expireAt && s.scores != [] {
      assert AtMost(s.hits, c);
      TrimAll(s.hits, c);
    }
    TrimIsCount(s.hits, c, now);
    assert WindowCount(p, s.hits, c + 1) <= p.maxHits;
  }

  /** One check of the key: what it stores, and when it expires. */
  function SlotStep(p: Policy, s: Slot, now: int): Slot {
    var live := LiveIn(p, s, now);
    if |live| >= p.maxHits then Slot(live, if live == [] then 0 else s.expireAt, s.hits)
    else Slot(Insert(live, now), now + (p.windowS + 5) * 1000, s.hits + [now])
  }

  lemma InsertLast(s: seq<int>, x: int)
    requires AtMost(s, x)
    ensures Insert(s, x) == s + [x]
  {
  }

  /** A check that denies only trims. */
  lemma DenialKeeps(p: Policy, s: Slot, last: int, now: int)
    requires Tracks(p, s, last) && last <= now && |LiveIn(p, s, now)| >= p.maxHits
    ensures Tracks(p, SlotStep(p, s, now), now)
  {
    LiveIsWindow(p, s, last, now);
    var a := now - p.WindowMs();
    forall c | c >= a
      ensures Trim(SlotStep(p, s, now).scores, c) == Trim(s.hits, c)
    {
      TrimTwice(s.hits, a, c);
    }
    assert LiveIn(p, s, now) != [] ==> s.scores != [];
  }

  /** A check that admits appends; the window it joins still had room. */
  lemma AdmissionKeeps(p: Policy, s: Slot, last: int, now: int)
    requires Tracks(p, s, last) && last <= now && |LiveIn(p, s, now)| < p.maxHits
    ensures Tracks(p, SlotStep(p, s, now), now)
  {
    LiveIsWindow(p, s, last, now);
    var a := now - p.WindowMs();
    var live := Trim(s.hits, a);
    TrimAtMost(s.hits, now, a);
    InsertLast(live, now);
    forall c | c >= a
      ensures Trim(live + [now], c) == Trim(s.hits + [now], c)
    {
      TrimTwice(s.hits, a, c);
      TrimAppend(live, now, c);
      TrimAppend(s.hits, now, c);
    }
    forall from
      ensures WindowCount(p, s.hits + [now], from) <= p.maxHits
    {
      CountAppend(s.hits, now, from, from + p.WindowMs());
      if from <= now < from + p.WindowMs() {
        CountWithinTrim(s.hits, a, from, from + p.WindowMs());
      }
      assert WindowCount(p, s.hits, from) <= p.maxHits;
    }
  }

  /** A check at a later instant keeps the invariant. */
  lemma SlotStepKeeps(p: Policy, s: Slot, last: int, now: int)
    requires Tracks(p, s, last) && last <= now
    ensures Tracks(p, SlotStep(p, s, now), now)
  {
    if |LiveIn(p, s, now)| >= p.maxHits {
      DenialKeeps(p, s, last, now);
    } else {
      AdmissionKeeps(p, s, last, now);
    }
  }

  lemma StepIsSlotStep(l: Limiter, k: Key, p: Policy, now: int)
    requires p.Ok()
    ensures SlotOf(Step(l, k, p, now), k) == SlotStep(p, SlotOf(l, k), now)
    ensures Live(l, k, p, now) == LiveIn(p, SlotOf(l, k), now)
  {
  }

  // ----- whole runs -----

  datatype Event = Event(policy: string, identifier: string, now: int)

  predicate Clocked(events: seq<Event>) {
    (forall i :: 0 <= i < |events| ==> events[i].policy in POLICIES) &&
    forall i, j :: 0 <= i < j < |events| ==> events[i].now <= events[j].now
  }

  function StepEvent(l: Limiter, e: Event): Limiter
    requires e.policy in POLICIES
  {
    Step(l, KeyOf(e.policy, e.identifier), POLICIES[e.policy], e.now)
  }

  function Run(events: seq<Event>): Limiter
    requires Clocked(events)
  {
    if events == [] then Limiter(map[], map[])
    else StepEvent(Run(events[..|events| - 1]), events[|events| - 1])
  }

  /** Every key is tracked after every run. */
  lemma {:induction false} RunTracks(events: seq<Event>, k: Key, now: int)
    requires Clocked(events) && k.policy in POLICIES
    requires events != [] ==> events[|events| - 1].now <= now
    ensures Tracks(POLICIES[k.policy], SlotOf(Run(events), k), now)
  {
    if events != [] {
      var front, e := events[..|events| - 1], events[|events| - 1];
      RunTracks(front, k, e.now);
      EventTracks(Run(front), k, e);
      TracksLater(POLICIES[k.policy], SlotOf(Run(events), k), e.now, now);
    }
  }

  /** An event keeps every key tracked: it is a slot's step, or does not touch the slot. */
  lemma EventTracks(l: Limiter, k: Key, e: Event)
    requires e.policy in POLICIES && k.policy in POLICIES
    requires Tracks(POLICIES[k.policy], SlotOf(l, k), e.now)
    ensures Tracks(POLICIES[k.policy], SlotOf(StepEvent(l, e), k), e.now)
  {
    var p := POLICIES[k.policy];
    PoliciesOk(k.policy);
    if KeyOf(e.policy, e.identifier) == k {
      StepIsSlotStep(l, k, p, e.now);
      SlotStepKeeps(p, SlotOf(l, k), e.now, e.now);
    } else {
      assert SlotOf(StepEvent(l, e), k) == SlotOf(l, k);
    }
  }

  lemma TracksLater(p: Policy, s: Slot, last: int, now: int)
    requires Tracks(p, s, last) && last <= now
    ensures Tracks(p, s, now)
  {
  }

  /** The limiter's promise: in every run, no half-open window of the policy's length holds more than
      `max_hits` admissions of one key. */
  lemma WindowBound(events: seq<Event>, k: Key, from: int)
    requires Clocked(events) && k.policy in POLICIES
    ensures var p := POLICIES[k.policy];
      WindowCount(p, HitsOf(Run(events), k), from) <= p.maxHits
  {
    RunTracks(events, k, if events == [] then 0 else events[|events| - 1].now);
  }

  /** The five policies by name: what one identifier can get through in any half-open minute or hour. */
  lemma NamedBounds(events: seq<Event>, id: string, from: int)
    requires Clocked(events)
    ensures CountIn(HitsOf(Run(events), KeyOf("login_ip", id)), from, from + 60_000) <= 10
    ensures CountIn(HitsOf(Run(events), KeyOf("login_email", id)), from, from + 60_000) <= 5
    ensures CountIn(HitsOf(Run(events), KeyOf("register_ip", id)), from, from + 3_600_000) <= 5
    ensures CountIn(HitsOf(Run(events), KeyOf("forgot_email", id)), from, from + 3_600_000) <= 3
    ensures CountIn(HitsOf(Run(events), KeyOf("forgot_ip", id)), from, from + 3_600_000) <= 5
  {
    WindowBound(events, KeyOf("login_ip", id), from);
    WindowBound(events, KeyOf("login_email", id), from);
    WindowBound(events, KeyOf("register_ip", id), from);
    WindowBound(events, KeyOf("forgot_email", id), from);
    WindowBound(events, KeyOf("forgot_ip", id), from);
  }

  /** Two identifiers share a bucket exactly when they differ in letter case only. */
  lemma SharedBucketExactly(policy: string, a: string, b: string)
    ensures KeyOf(policy, a) == KeyOf(policy, b) <==>
      |a| == |b| && forall i :: 0 <= i < |a| ==>
        a[i] == b[i] || ('A' <= a[i] <= 'Z' && b[i] as int == a[i] as int + 32)
        || ('A' <= b[i] <= 'Z' && a[i] as int == b[i] as int + 32)
  {
    if KeyOf(policy, a) == KeyOf(policy, b) {
      assert |ToLower(a)| == |ToLower(b)|;
      forall i | 0 <= i < |a|
        ensures Lower(a[i]) == Lower(b[i])
      {
        assert ToLower(a)[i] == ToLower(b)[i];
      }
    } else if |a| == |b| {
      assert exists i :: 0 <= i < |a| && ToLower(a)[i] != ToLower(b)[i];
    }
  }

  /** Nobody is refused early: a check is denied exactly when `max_hits` admissions of its key lie in the
      window that ends now. */
  lemma DeniedExactlyWhenFull(events: seq<Event>, k: Key, now: int)
    requires Clocked(events) && k.policy in POLICIES
    requires events != [] ==> events[|events| - 1].now <= now
    ensures var p, l := POLICIES[k.policy], Run(events);
      Decide(p, Live(l, k, p, now), now).Denied? <==>
      CountIn(HitsOf(l, k), now - p.WindowMs() + 1, now + 1) == p.maxHits
  {
    var p := POLICIES[k.policy];
    PoliciesOk(k.policy);
    RunTracks(events, k, now);
    StepIsSlotStep(Run(events), k, p, now);
    LiveIsWindow(p, SlotOf(Run(events), k), now, now);
  }

  /** The instant the oldest counted admission leaves the window decides the retry. */
  lemma SlotRetry(p: Policy, s: Slot, now: int, later: int)
    requires p.Ok() && Tracks(p, s, now) && now <= later && |LiveIn(p, s, now)| >= p.maxHits
    ensures var oldest := LiveIn(p, s, now)[0];
      now - p.WindowMs() < oldest <= now &&
      (|LiveIn(p, SlotStep(p, s, now), later)| < p.maxHits <==> later >= oldest + p.WindowMs())
  {
    LiveIsWindow(p, s, now, now);
    DenialKeeps(p, s, now, now);
    LiveIsWindow(p, SlotStep(p, s, now), now, later);
    TrimPastFirst(s.hits, now - p.WindowMs(), later - p.WindowMs());
    TrimAtMost(s.hits, now, now - p.WindowMs());
  }

  /** `Retry-After` is honest: between 1 and `window_s + 1`; waiting that long with no other hit on the
      key admits the caller; and any wait shorter by more than a second does not. */
  lemma RetryAfterIsExact(events: seq<Event>, k: Key, now: int, later: int)
    requires Clocked(events) && k.policy in POLICIES && now <= later
    requires events != [] ==> events[|events| - 1].now <= now
    requires var p := POLICIES[k.policy]; Decide(p, Live(Run(events), k, p, now), now).Denied?
    ensures var p, l := POLICIES[k.policy], Run(events);
      var r := Decide(p, Live(l, k, p, now), now).retryAfter;
      var again := Decide(p, Live(Step(l, k, p, now), k, p, later), later);
      1 <= r <= p.windowS + 1 &&
      (later >= now + 1000 * r ==> again.Allowed?) &&
      (later < now + 1000 * (r - 1) ==> again.Denied?)
  {
    var p, l := POLICIES[k.policy], Run(events);
    PoliciesOk(k.policy);
    RunTracks(events, k, now);
    StepIsSlotStep(l, k, p, now);
    StepIsSlotStep(Step(l, k, p, now), k, p, later);
    SlotRetry(p, SlotOf(l, k), now, later);
  }
}
