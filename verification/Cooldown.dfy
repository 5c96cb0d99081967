/** The per-GSTIN consent cooldown of gsp/lockout.py: a Redis counter that any number of callers
    drive through INCR, EXPIRE, DECR and TTL, one command at a time, in any order. */
module Cooldown {
  import opened Wrappers

  const MAX_PER_HOUR: int := 3
  const WINDOW_SECONDS: nat := 3600

  // ----- the Redis commands -----

  /** A counter key: its value, and the second at which it expires (none: it lives for ever). */
  datatype Counter = Counter(value: int, expireAt: Option<nat>)

  function ValueOf(key: Option<Counter>): int { if key.Some? then key.value.value else 0 }

  /** INCR by 1 or -1: an absent key counts as zero and is created without an expiry. */
  function Add(key: Option<Counter>, d: int): Option<Counter> {
    Some(Counter(ValueOf(key) + d, if key.Some? then key.value.expireAt else None))
  }

  /** EXPIRE: no effect on an absent key. */
  function SetExpiry(key: Option<Counter>, now: nat): Option<Counter> {
    if key.Some? then Some(Counter(key.value.value, Some(now + WINDOW_SECONDS))) else None
  }

  /** TTL: -2 for an absent key, -1 for one without expiry. */
  function Ttl(key: Option<Counter>, now: nat): int {
    if key.None? then -2 else if key.value.expireAt.None? then -1 else key.value.expireAt.value - now
  }

  predicate Due(key: Option<Counter>, now: nat) {
    key.Some? && key.value.expireAt.Some? && key.value.expireAt.value <= now
  }

  // ----- callers -----

  /** Where a caller stands between two commands. `epoch` is the window its INCR fell into. */
  datatype Caller = NeedExpire | NeedDecr(epoch: nat) | NeedTtl | Granted | Refused(retryAfter: int)

  /** The shared key, the clock, the callers; for the window now open (its epoch), when it granted its
      reservations and how many DECRs of an earlier window landed in it; and the grants of past windows.
      A window is one life of the key. */
  datatype State = State(now: nat, key: Option<Counter>, callers: map<nat, Caller>,
                         epoch: nat, grants: seq<int>, strays: nat, past: seq<int>)

  datatype Step = Incr(id: nat) | Expire(id: nat) | Decr(id: nat) | AskTtl(id: nat) | Tick(seconds: nat)

  const INITIAL := State(0, None, map[], 0, [], 0, [])

  predicate Enabled(s: State, a: Step) {
    match a
    case Incr(id) => id !in s.callers
    case Expire(id) => id in s.callers && s.callers[id].NeedExpire?
    case Decr(id) => id in s.callers && s.callers[id].NeedDecr?
    case AskTtl(id) => id in s.callers && s.callers[id].NeedTtl?
    case Tick(_) => true
  }

  function AfterIncr(count: int, epoch: nat): Caller {
    if count == 1 then NeedExpire else if count > MAX_PER_HOUR then NeedDecr(epoch) else Granted
  }

  function Next(s: State, a: Step): State
    requires Enabled(s, a)
  {
    match a
    case Incr(id) =>
      var key := Add(s.key, 1);
      var count := key.value.value;
      s.(key := key, callers := s.callers[id := AfterIncr(count, s.epoch)],
         grants := if count <= MAX_PER_HOUR then s.grants + [s.now] else s.grants)
    case Expire(id) => s.(key := SetExpiry(s.key, s.now), callers := s.callers[id := Granted])
    case Decr(id) =>
      s.(key := Add(s.key, -1), callers := s.callers[id := NeedTtl],
         strays := if s.callers[id].epoch == s.epoch then s.strays else s.strays + 1)
    case AskTtl(id) => s.(callers := s.callers[id := Refused(AtLeastOne(Ttl(s.key, s.now)))])
    case Tick(d) =>
      var now := s.now + d;
      if Due(s.key, now) then State(now, None, s.callers, s.epoch + 1, [], 0, s.past + s.grants)
      else s.(now := now)
  }

  /** Runs a schedule; a step that is not enabled is skipped. */
  function Run(steps: seq<Step>): State {
    if steps == [] then INITIAL
    else
      var s := Run(steps[..|steps| - 1]);
      var a := steps[|steps| - 1];
      if Enabled(s, a) then Next(s, a) else s
  }

  // ----- the invariant -----

  /** Callers of the open window that over-incremented and have not rolled back yet. */
  function Overs(s: State): set<nat> {
    set id | id in s.callers && s.callers[id] == NeedDecr(s.epoch)
  }

  ghost predicate Inv(s: State) {
    && ValueOf(s.key) == |s.grants| - s.strays + |Overs(s)|
    && |s.grants| <= MAX_PER_HOUR + s.strays
    && (Overs(s) != {} ==> |s.grants| >= MAX_PER_HOUR)
    && (forall id :: id in s.callers && s.callers[id].NeedDecr? ==> s.callers[id].epoch <= s.epoch)
  }

  lemma OversAfter(s: State, s': State, id: nat)
    requires s'.epoch == s.epoch
    requires id in s'.callers && s'.callers == s.callers[id := s'.callers[id]]
    ensures Overs(s') == if s'.callers[id] == NeedDecr(s.epoch) then Overs(s) + {id} else Overs(s) - {id}
  {
  }

  lemma IncrKeepsInv(s: State, id: nat)
    requires Inv(s) && Enabled(s, Incr(id))
    ensures Inv(Next(s, Incr(id)))
  {
    OversAfter(s, Next(s, Incr(id)), id);
    assert id !in Overs(s);
  }

  lemma DecrKeepsInv(s: State, id: nat)
    requires Inv(s) && Enabled(s, Decr(id))
    ensures Inv(Next(s, Decr(id)))
  {
    OversAfter(s, Next(s, Decr(id)), id);
    assert id in Overs(s) <==> s.callers[id].epoch == s.epoch;
  }

  lemma NextKeepsInv(s: State, a: Step)
    requires Inv(s) && Enabled(s, a)
    ensures Inv(Next(s, a))
  {
    match a
    case Incr(id) => IncrKeepsInv(s, id);
    case Decr(id) => DecrKeepsInv(s, id);
    case Tick(_) => TickKeepsInv(s, a);
    case Expire(id) => BystanderKeepsInv(s, a, id);
    case AskTtl(id) => BystanderKeepsInv(s, a, id);
  }

  lemma TickKeepsInv(s: State, a: Step)
    requires Inv(s) && a.Tick?
    ensures Inv(Next(s, a))
  {
    var s' := Next(s, a);
    if Due(s.key, s'.now) {
      assert Overs(s') == {};
    } else {
      assert Overs(s') == Overs(s);
    }
  }

  /** EXPIRE and TTL change neither the count nor who owes a roll-back. */
  lemma BystanderKeepsInv(s: State, a: Step, id: nat)
    requires Inv(s) && Enabled(s, a) && (a == Expire(id) || a == AskTtl(id))
    ensures Inv(Next(s, a))
  {
    OversAfter(s, Next(s, a), id);
    assert id !in Overs(s);
  }

  lemma {:induction false} RunInv(steps: seq<Step>)
    ensures Inv(Run(steps))
  {
    if steps == [] {
      assert Overs(INITIAL) == {};
    } else {
      RunInv(steps[..|steps| - 1]);
      var s, a := Run(steps[..|steps| - 1]), steps[|steps| - 1];
      if Enabled(s, a) {
        NextKeepsInv(s, a);
      }
    }
  }

  /** Each command moves its own caller one step on, and no other caller: the first of a window goes on to EXPIRE, the
      next two are granted, later ones roll back, ask for the TTL, and are refused. */
  lemma CallersAdvance(s: State, a: Step)
    requires Enabled(s, a) && !a.Tick?
    ensures var t := Next(s, a);
      a.id in t.callers && t.callers - {a.id} == s.callers - {a.id} &&
      match a
      case Incr(id) =>
        t.callers[id] == if ValueOf(s.key) == 0 then NeedExpire else if ValueOf(s.key) < 3 then Granted
                         else NeedDecr(s.epoch)
      case Expire(id) => t.callers[id] == Granted && t.key == SetExpiry(s.key, s.now)
      case Decr(id) => t.callers[id] == NeedTtl && ValueOf(t.key) == ValueOf(s.key) - 1
      case AskTtl(id) => t.callers[id].Refused? && t.key == s.key
  {
  }

  // ----- safety -----

  /** In every interleaving a window grants at most three reservations, plus one for every DECR of an
      earlier window that landed in it. */
  lemma GrantBound(steps: seq<Step>)
    ensures |Run(steps).grants| <= MAX_PER_HOUR + Run(steps).strays
  {
    RunInv(steps);
  }

  /** A caller is turned away only when its window has already granted three. */
  lemma RefusedOnlyWhenFull(steps: seq<Step>, id: nat)
    requires Enabled(Run(steps), Incr(id))
    ensures Next(Run(steps), Incr(id)).callers[id].NeedDecr? ==> |Run(steps).grants| >= MAX_PER_HOUR
  {
    RunInv(steps);
  }

  /** Once no roll-back is pending in the window, the counter is the grants less the strays. */
  lemma QuiescentCount(steps: seq<Step>)
    requires forall id :: id in Run(steps).callers ==> !Run(steps).callers[id].NeedDecr?
    ensures ValueOf(Run(steps).key) == |Run(steps).grants| - Run(steps).strays
  {
    RunInv(steps);
    assert Overs(Run(steps)) == {};
  }

  // ----- when a window keeps to three -----

  /** The key expires in this step while some caller stands between its INCR and its DECR. */
  predicate ExpiresMidCall(s: State, a: Step) {
    a.Tick? && Due(s.key, s.now + a.seconds) && exists id :: id in s.callers && s.callers[id].NeedDecr?
  }

  /** No window ever closes on a caller that still owes its DECR. */
  predicate NoExpiryMidCall(steps: seq<Step>) {
    steps == [] ||
    (NoExpiryMidCall(steps[..|steps| - 1]) && !ExpiresMidCall(Run(steps[..|steps| - 1]), steps[|steps| - 1]))
  }

  lemma {:induction false} NoStrays(steps: seq<Step>)
    requires NoExpiryMidCall(steps)
    ensures Run(steps).strays == 0
    ensures forall id :: id in Run(steps).callers && Run(steps).callers[id].NeedDecr? ==>
      Run(steps).callers[id].epoch == Run(steps).epoch
  {
    if steps != [] {
      NoStrays(steps[..|steps| - 1]);
    }
  }

  /** Three in one life of the key, for every interleaving in which no window closes mid-call; and then the
      settled counter equals the reservations granted. */
  lemma AtMostThreePerWindow(steps: seq<Step>)
    requires NoExpiryMidCall(steps)
    ensures |Run(steps).grants| <= MAX_PER_HOUR
    ensures (forall id :: id in Run(steps).callers ==> !Run(steps).callers[id].NeedDecr?) ==>
      ValueOf(Run(steps).key) == |Run(steps).grants|
  {
    GrantBound(steps);
    NoStrays(steps);
    if forall id :: id in Run(steps).callers ==> !Run(steps).callers[id].NeedDecr? {
      QuiescentCount(steps);
    }
  }

  lemma Extend(steps: seq<Step>, a: Step)
    ensures Run(steps + [a]) == if Enabled(Run(steps), a) then Next(Run(steps), a) else Run(steps)
  {
    assert (steps + [a])[..|steps|] == steps;
  }

  /** A caller not seen before takes a slot of the open window. */
  lemma IncrTakes(steps: seq<Step>, id: nat)
    requires id !in Run(steps).callers
    ensures var s, t := Run(steps), Run(steps + [Incr(id)]);
      t.key == Add(s.key, 1) && t.callers == s.callers[id := AfterIncr(ValueOf(s.key) + 1, s.epoch)] &&
      t.now == s.now && t.epoch == s.epoch && t.strays == s.strays && t.past == s.past &&
      t.grants == if ValueOf(s.key) + 1 <= MAX_PER_HOUR then s.grants + [s.now] else s.grants
  {
    Extend(steps, Incr(id));
  }

  /** Only callers numbered up to `n` have been seen. */
  predicate SeenUpTo(s: State, n: nat) { forall id :: id in s.callers ==> id <= n }

  lemma FullWindow() returns (steps: seq<Step>)
    ensures var s := Run(steps);
      s.now == 0 && s.epoch == 0 && s.key == Some(Counter(3, Some(WINDOW_SECONDS))) && SeenUpTo(s, 3)
  {
    steps := [];
    IncrTakes(steps, 1);
    steps := steps + [Incr(1)];
    Extend(steps, Expire(1));
    steps := steps + [Expire(1)];
    IncrTakes(steps, 2);
    steps := steps + [Incr(2)];
    IncrTakes(steps, 3);
    steps := steps + [Incr(3)];
  }

  /** A fourth caller over-increments, and the hour ends before its DECR. */
  lemma StrayDecr() returns (steps: seq<Step>)
    ensures var s := Run(steps);
      s.key == Some(Counter(-1, None)) && s.grants == [] && SeenUpTo(s, 4)
  {
    steps := FullWindow();
    IncrTakes(steps, 4);
    steps := steps + [Incr(4)];
    Extend(steps, Tick(WINDOW_SECONDS));
    steps := steps + [Tick(WINDOW_SECONDS)];
    Extend(steps, Decr(4));
    steps := steps + [Decr(4)];
  }

  lemma NextCaller(steps: seq<Step>, n: nat)
    requires SeenUpTo(Run(steps), n) && ValueOf(Run(steps).key) < MAX_PER_HOUR
    ensures var s, t := Run(steps), Run(steps + [Incr(n + 1)]);
      ValueOf(t.key) == ValueOf(s.key) + 1 && |t.grants| == |s.grants| + 1 && SeenUpTo(t, n + 1)
  {
    IncrTakes(steps, n + 1);
  }

  /** Without that proviso a window can exceed three: a schedule that grants four. */
  lemma CapFailsAfterStrayDecr() returns (steps: seq<Step>)
    ensures |Run(steps).grants| == MAX_PER_HOUR + 1
  {
    steps := StrayDecr();
    NextCaller(steps, 4);
    steps := steps + [Incr(5)];
    NextCaller(steps, 5);
    steps := steps + [Incr(6)];
    NextCaller(steps, 6);
    steps := steps + [Incr(7)];
    NextCaller(steps, 7);
    steps := steps + [Incr(8)];
  }

  // ----- the block always lifts -----

  /** A positive counter has an expiry, or a caller is about to give it one; and no expiry is more than
      an hour away. */
  ghost predicate Lifts(s: State) {
    && (s.key.Some? && s.key.value.value >= 1 && s.key.value.expireAt.None? ==>
        exists id :: id in s.callers && s.callers[id].NeedExpire?)
    && (s.key.Some? && s.key.value.expireAt.Some? ==>
        s.now < s.key.value.expireAt.value <= s.now + WINDOW_SECONDS)
  }

  lemma NextKeepsLifts(s: State, a: Step)
    requires Lifts(s) && Enabled(s, a)
    ensures Lifts(Next(s, a))
  {
    var s' := Next(s, a);
    if s'.key.Some? && s'.key.value.value >= 1 && s'.key.value.expireAt.None? {
      if a.Incr? && s'.key.value.value == 1 {
        assert s'.callers[a.id].NeedExpire?;
      } else {
        var id :| id in s.callers && s.callers[id].NeedExpire?;
        assert id in s'.callers && s'.callers[id].NeedExpire?;
      }
    }
  }

  lemma {:induction false} RunLifts(steps: seq<Step>)
    ensures Lifts(Run(steps))
  {
    if steps != [] {
      RunLifts(steps[..|steps| - 1]);
      var s, a := Run(steps[..|steps| - 1]), steps[|steps| - 1];
      if Enabled(s, a) {
        NextKeepsLifts(s, a);
      }
    }
  }

  /** A refused caller is told a wait between one second and an hour, and once no EXPIRE is pending the
      counter that refuses callers is due to vanish within the hour. */
  lemma BlockLiftsWithinAnHour(steps: seq<Step>, id: nat)
    ensures Enabled(Run(steps), AskTtl(id)) ==>
      1 <= Next(Run(steps), AskTtl(id)).callers[id].retryAfter <= WINDOW_SECONDS
    ensures (forall c :: c in Run(steps).callers ==> !Run(steps).callers[c].NeedExpire?) ==>
      ValueOf(Run(steps).key) < 1 || Due(Run(steps).key, Run(steps).now + WINDOW_SECONDS)
  {
    RunLifts(steps);
  }

  // ----- callers one at a time -----

  /** The counters, by GSTIN, as uninterrupted callers find and leave them. */
  class Store {
    var keys: map<string, Counter>

    /** The key at a time, gone from its expiry on. */
    function KeyAt(gstin: string, now: nat): Option<Counter>
      reads this
    {
      if gstin in keys && !Due(Some(keys[gstin]), now) then Some(keys[gstin]) else None
    }

    predicate Valid(now: nat)
      reads this
    {
      forall g :: g in keys ==>
        1 <= keys[g].value <= MAX_PER_HOUR && keys[g].expireAt.Some? && keys[g].expireAt.value <= now + WINDOW_SECONDS
    }

    constructor ()
      ensures forall now :: Valid(now)
      ensures keys == map[]
    {
      keys := map[];
    }

    /** Three reservations a window, then refusal until it rolls off; a refusal changes nothing, nor does any
        reservation for another GSTIN. */
    method TryReserveInitiate(gstin: string, now: nat) returns (reserved: bool, retryAfter: int)
      requires Valid(now)
      modifies this
      ensures Valid(now)
      ensures reserved <==> ValueOf(old(KeyAt(gstin, now))) < MAX_PER_HOUR
      ensures reserved ==>
        var before := old(KeyAt(gstin, now));
        retryAfter == 0 && KeyAt(gstin, now) == Some(Counter(ValueOf(before) + 1,
          if before.None? then Some(now + WINDOW_SECONDS) else before.value.expireAt))
      ensures !reserved ==>
        KeyAt(gstin, now) == old(KeyAt(gstin, now)) &&
        1 <= retryAfter == KeyAt(gstin, now).value.expireAt.value - now <= WINDOW_SECONDS
      ensures forall g, t :: g != gstin ==> KeyAt(g, t) == old(KeyAt(g, t))
    {
      var key := Add(KeyAt(gstin, now), 1);
      var count := key.value.value;
      if count == 1 {
        key := SetExpiry(key, now);
      }
      if count > MAX_PER_HOUR {
        key := Add(key, -1);
        keys := keys[gstin := key.value];
        var ttl := Ttl(key, now);
        return false, AtLeastOne(ttl);
      }
      keys := keys[gstin := key.value];
      return true, 0;
    }
  }
}
