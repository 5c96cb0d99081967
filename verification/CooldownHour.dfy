/** The cooldown of gsp/lockout.py against the clock: how many reservations an hour can hold, and exactly
    when the documented three can be exceeded. */
module CooldownHour {
  import opened Wrappers
  import opened Timeline
  import Digits
  import opened Cooldown

  /** When every reservation so far was granted: the instant of its INCR. */
  function AllGrants(s: State): seq<int> { s.past + s.grants }

  /** The reservations of the hour that ends now. */
  function LastHour(s: State): seq<int> { Trim(AllGrants(s), s.now - WINDOW_SECONDS) }

  /** Callers that have not rolled back yet, and those among them that belong to an earlier window. */
  function Pending(s: State): set<nat> { set id | id in s.callers && s.callers[id].NeedDecr? }

  function Owed(s: State): set<nat> { set id | id in Pending(s) && s.callers[id].epoch != s.epoch }

  predicate TickFree(steps: seq<Step>) { forall i :: 0 <= i < |steps| ==> !steps[i].Tick? }

  // ----- what no command changes before the next tick -----

  /** The DECRs of earlier windows, landed here or still owed. */
  function Debt(s: State): nat { s.strays + |Owed(s)| }

  lemma OwedAfter(s: State, s': State, id: nat)
    requires s'.epoch == s.epoch
    requires id in s'.callers && s'.callers == s.callers[id := s'.callers[id]]
    ensures var c := s'.callers[id];
      Owed(s') == if c.NeedDecr? && c.epoch != s.epoch then Owed(s) + {id} else Owed(s) - {id}
  {
  }

  lemma StepKeepsDebt(s: State, a: Step)
    requires Enabled(s, a) && !a.Tick?
    ensures Debt(Next(s, a)) == Debt(s)
  {
    var t := Next(s, a);
    OwedAfter(s, t, a.id);
    assert a.id in Owed(s) <==> a.Decr? && s.callers[a.id].epoch != s.epoch;
  }

  lemma StepGrants(s: State, a: Step)
    requires Enabled(s, a) && !a.Tick?
    ensures var t := Next(s, a);
      t.now == s.now && t.epoch == s.epoch && t.past == s.past &&
      |LastHour(t)| - |LastHour(s)| == |t.grants| - |s.grants|
  {
    var t := Next(s, a);
    if t.grants != s.grants {
      assert AllGrants(t) == AllGrants(s) + [s.now];
      TrimAppend(AllGrants(s), s.now, s.now - WINDOW_SECONDS);
    }
  }

  /** Between two ticks: what the hour holds beyond the window's own count, and the debt, are constant. */
  lemma {:induction false} Within(steps: seq<Step>, more: seq<Step>)
    requires TickFree(more)
    ensures var s, t := Run(steps), Run(steps + more);
      t.now == s.now && t.epoch == s.epoch && Debt(t) == Debt(s) &&
      |LastHour(t)| - |LastHour(s)| == |t.grants| - |s.grants|
  {
    if more == [] {
      assert steps + more == steps;
    } else {
      var front, a := more[..|more| - 1], more[|more| - 1];
      Within(steps, front);
      assert steps + more == (steps + front) + [a];
      Extend(steps + front, a);
      if Enabled(Run(steps + front), a) {
        StepKeepsDebt(Run(steps + front), a);
        StepGrants(Run(steps + front), a);
      }
    }
  }

  // ----- filling a window -----

  lemma PendingAfter(s: State, id: nat)
    requires Enabled(s, Decr(id))
    ensures Pending(Next(s, Decr(id))) == Pending(s) - {id} && id in Pending(s)
  {
  }

  lemma Chain(steps: seq<Step>, a: Step, more: seq<Step>)
    ensures steps + ([a] + more) == (steps + [a]) + more
    ensures TickFree(more) && !a.Tick? ==> TickFree([a] + more)
  {
  }

  /** Let every caller that owes a DECR send it. */
  lemma {:induction false} Settle(steps: seq<Step>) returns (more: seq<Step>)
    ensures TickFree(more) && Pending(Run(steps + more)) == {}
    decreases |Pending(Run(steps))|
  {
    if Pending(Run(steps)) == {} {
      more := [];
      assert steps + more == steps;
    } else {
      var id :| id in Pending(Run(steps));
      Extend(steps, Decr(id));
      PendingAfter(Run(steps), id);
      var rest := Settle(steps + [Decr(id)]);
      Chain(steps, Decr(id), rest);
      more := [Decr(id)] + rest;
    }
  }

  /** With no DECR pending, one more caller is granted while the grants fall short of three and the strays. */
  lemma TakeOne(steps: seq<Step>) returns (a: Step)
    requires Pending(Run(steps)) == {} && |Run(steps).grants| < MAX_PER_HOUR + Run(steps).strays
    ensures !a.Tick? && Pending(Run(steps + [a])) == {} && Run(steps + [a]).strays == Run(steps).strays
    ensures |Run(steps + [a]).grants| == |Run(steps).grants| + 1
  {
    var s := Run(steps);
    var id := FreshId(s.callers.Keys);
    RunInv(steps);
    assert Overs(s) <= Pending(s);
    IncrTakes(steps, id);
    a := Incr(id);
    var t := Run(steps + [a]);
    assert forall c :: c in t.callers && c != id ==> c in s.callers && t.callers[c] == s.callers[c];
    assert forall c :: c in s.callers && s.callers[c].NeedDecr? ==> c in Pending(s);
  }

  lemma {:induction false} Take(steps: seq<Step>, n: nat) returns (more: seq<Step>)
    requires Pending(Run(steps)) == {} && |Run(steps).grants| + n <= MAX_PER_HOUR + Run(steps).strays
    ensures TickFree(more) && |Run(steps + more).grants| == |Run(steps).grants| + n
    decreases n
  {
    if n == 0 {
      more := [];
      assert steps + more == steps;
    } else {
      var a := TakeOne(steps);
      var rest := Take(steps + [a], n - 1);
      Chain(steps, a, rest);
      more := [a] + rest;
    }
  }

  lemma FillBound(steps: seq<Step>, more: seq<Step>)
    requires TickFree(more)
    ensures |Run(steps + more).grants| <= MAX_PER_HOUR + Debt(Run(steps))
  {
    Within(steps, more);
    GrantBound(steps + more);
  }

  lemma SettledDebt(steps: seq<Step>)
    requires Pending(Run(steps)) == {}
    ensures Debt(Run(steps)) == Run(steps).strays && |Run(steps).grants| <= MAX_PER_HOUR + Run(steps).strays
  {
    assert Owed(Run(steps)) <= Pending(Run(steps));
    GrantBound(steps);
  }

  lemma Fill(steps: seq<Step>) returns (more: seq<Step>)
    ensures TickFree(more) && |Run(steps + more).grants| == MAX_PER_HOUR + Debt(Run(steps))
  {
    var settle := Settle(steps);
    Within(steps, settle);
    SettledDebt(steps + settle);
    var s := Run(steps + settle);
    var take := Take(steps + settle, MAX_PER_HOUR + s.strays - |s.grants|);
    more := settle + take;
    Digits.Assoc(steps, settle, take);
  }

  /** From every reachable state some schedule of single commands, without a tick, brings the open window to
      three grants and one more for each DECR of an earlier window, landed or owed; and none brings it
      further. */
  lemma FillsUp(steps: seq<Step>) returns (more: seq<Step>)
    ensures TickFree(more) && |Run(steps + more).grants| == MAX_PER_HOUR + Debt(Run(steps))
    ensures forall other :: TickFree(other) ==> |Run(steps + other).grants| <= MAX_PER_HOUR + Debt(Run(steps))
  {
    more := Fill(steps);
    forall other | TickFree(other)
      ensures |Run(steps + other).grants| <= MAX_PER_HOUR + Debt(Run(steps))
    {
      FillBound(steps, other);
    }
  }

  // ----- exactly when the cap can be exceeded -----

  /** The open window can be granted a fourth reservation exactly when a DECR of an earlier window has
      landed in it or is still owed. */
  lemma WindowCapExactly(steps: seq<Step>)
    ensures (exists more :: TickFree(more) && |Run(steps + more).grants| > MAX_PER_HOUR)
      <==> Run(steps).strays > 0 || Owed(Run(steps)) != {}
  {
    var more := FillsUp(steps);
    assert Debt(Run(steps)) > 0 <==> Run(steps).strays > 0 || Owed(Run(steps)) != {};
  }

  /** The hour that ends now can come to hold more than three reservations exactly when it holds, with the
      debt, more than the open window has counted. */
  lemma HourCapExactly(steps: seq<Step>)
    ensures (exists more :: TickFree(more) && |LastHour(Run(steps + more))| > MAX_PER_HOUR)
      <==> |LastHour(Run(steps))| + Debt(Run(steps)) > |Run(steps).grants|
  {
    var most := FillsUp(steps);
    Within(steps, most);
    forall more | TickFree(more)
      ensures |LastHour(Run(steps + more))| <= |LastHour(Run(steps + most))|
    {
      Within(steps, more);
    }
  }

  // ----- five in an hour, and no more -----

  const MOST: nat := 5

  function HourCount(s: seq<int>, from: int): nat { CountIn(s, from, from + WINDOW_SECONDS) }

  /** The window lasts an hour from its EXPIRE, so an hour after its first grant at the least; and at most
      two earlier grants are within an hour of the next window. */
  ghost predicate HourInv(s: State) {
    && Sorted(s.grants) && AtMost(s.grants, s.now)
    && (s.key.Some? <==> s.grants != [])
    && (s.key.Some? && s.key.value.expireAt.Some? ==> s.grants[0] + WINDOW_SECONDS <= s.key.value.expireAt.value)
    && (var opens := if s.grants != [] then s.grants[0] else s.now;
        AtMost(s.past, opens) && |Trim(s.past, opens - WINDOW_SECONDS)| <= 2)
    && (forall from :: HourCount(s.past, from) <= MOST)
  }

  /** No DECR of an earlier window is about. */
  ghost predicate Orderly(s: State) {
    Inv(s) && s.strays == 0 &&
    forall id :: id in s.callers && s.callers[id].NeedDecr? ==> s.callers[id].epoch == s.epoch
  }

  lemma HourHoldsFive(s: State, from: int)
    requires HourInv(s) && Orderly(s)
    ensures HourCount(AllGrants(s), from) <= MOST
  {
    var to := from + WINDOW_SECONDS;
    CountConcat(s.past, s.grants, from, to);
    assert HourCount(s.past, from) <= MOST;
    if s.grants != [] {
      if to <= s.grants[0] {
        CountBefore(s.grants, from, to);
      } else {
        CountWithinTrim(s.past, s.grants[0] - WINDOW_SECONDS, from, to);
        CountAtMostLength(s.grants, from, to);
      }
    }
  }

  lemma CommandKeepsHour(s: State, a: Step)
    requires HourInv(s) && Orderly(s) && Enabled(s, a) && !a.Tick?
    ensures HourInv(Next(s, a))
  {
    if a.Decr? {
      assert a.id in Overs(s);
    }
  }

  lemma WindowCloses(s: State, a: Step)
    requires HourInv(s) && Orderly(s) && a.Tick? && Due(s.key, s.now + a.seconds)
    ensures HourInv(Next(s, a))
  {
    var t := Next(s, a);
    var c := t.now - WINDOW_SECONDS;
    TrimConcat(s.past, s.grants, c);
    TrimAll(s.past, c);
    TrimShrinks(s.grants[1..], c);
    forall from
      ensures HourCount(t.past, from) <= MOST
    {
      HourHoldsFive(s, from);
    }
    assert AtMost(t.past, t.now);
  }

  lemma TimePasses(s: State, a: Step)
    requires HourInv(s) && a.Tick? && !Due(s.key, s.now + a.seconds)
    ensures HourInv(Next(s, a))
  {
    var t := Next(s, a);
    TrimTwice(s.past, s.now - WINDOW_SECONDS, t.now - WINDOW_SECONDS);
    TrimShrinks(Trim(s.past, s.now - WINDOW_SECONDS), t.now - WINDOW_SECONDS);
  }

  lemma {:induction false} RunHourInv(steps: seq<Step>)
    requires NoExpiryMidCall(steps)
    ensures HourInv(Run(steps)) && Orderly(Run(steps))
  {
    RunInv(steps);
    NoStrays(steps);
    if steps == [] {
      assert Trim([], 0 - WINDOW_SECONDS as int) == [];
    } else {
      var front, a := steps[..|steps| - 1], steps[|steps| - 1];
      RunHourInv(front);
      var s := Run(front);
      if Enabled(s, a) {
        if !a.Tick? {
          CommandKeepsHour(s, a);
        } else if Due(s.key, s.now + a.seconds) {
          WindowCloses(s, a);
        } else {
          TimePasses(s, a);
        }
      }
    }
  }

  /** If no window closes on a caller between its INCR and its DECR, no half-open hour holds more than five
      reservations. */
  lemma AtMostFivePerHour(steps: seq<Step>, from: int)
    requires NoExpiryMidCall(steps)
    ensures HourCount(AllGrants(Run(steps)), from) <= MOST
  {
    RunHourInv(steps);
    HourHoldsFive(Run(steps), from);
  }

  // ----- five are reached -----

  lemma Orderlier(steps: seq<Step>, a: Step)
    requires NoExpiryMidCall(steps) && !ExpiresMidCall(Run(steps), a)
    ensures NoExpiryMidCall(steps + [a])
  {
    assert (steps + [a])[..|steps|] == steps;
  }

  /** No window was cut short, callers up to `n` have been seen, and none has a DECR to send. */
  ghost predicate StandsAt(steps: seq<Step>, now: nat, key: Option<Counter>, past: seq<int>, grants: seq<int>, n: nat) {
    var s := Run(steps);
    NoExpiryMidCall(steps) && s.now == now && s.key == key && s.past == past && s.grants == grants && SeenUpTo(s, n) &&
    forall id :: id in s.callers ==> !s.callers[id].NeedDecr?
  }

  /** A new caller that is granted a slot. */
  lemma Grant(steps: seq<Step>, now: nat, key: Option<Counter>, past: seq<int>, grants: seq<int>, n: nat)
    requires StandsAt(steps, now, key, past, grants, n) && ValueOf(key) < MAX_PER_HOUR
    ensures StandsAt(steps + [Incr(n + 1)], now, Add(key, 1), past, grants + [now], n + 1)
  {
    IncrTakes(steps, n + 1);
    Orderlier(steps, Incr(n + 1));
  }

  lemma Wait(steps: seq<Step>, now: nat, key: Option<Counter>, past: seq<int>, grants: seq<int>, n: nat, d: nat)
    requires StandsAt(steps, now, key, past, grants, n)
    ensures if Due(key, now + d) then StandsAt(steps + [Tick(d)], now + d, None, past + grants, [], n)
            else StandsAt(steps + [Tick(d)], now + d, key, past, grants, n)
  {
    Extend(steps, Tick(d));
    Orderlier(steps, Tick(d));
  }

  lemma FirstCaller() returns (steps: seq<Step>)
    ensures StandsAt(steps, 0, Some(Counter(1, None)), [], [0], 1) && Enabled(Run(steps), Expire(1))
  {
    assert StandsAt([], 0, None, [], [], 0);
    Grant([], 0, None, [], [], 0);
    IncrTakes([], 1);
    steps := [] + [Incr(1)];
  }

  lemma FirstWindow() returns (steps: seq<Step>)
    ensures StandsAt(steps, 0, Some(Counter(1, Some(3600))), [], [0], 1)
  {
    var first := FirstCaller();
    Extend(first, Expire(1));
    Orderlier(first, Expire(1));
    steps := first + [Expire(1)];
  }

  /** One caller at second 0, two at 3599. */
  lemma ThreeByTheEnd() returns (steps: seq<Step>)
    ensures StandsAt(steps, 3599, Some(Counter(3, Some(3600))), [], [0, 3599, 3599], 3)
  {
    steps := FirstWindow();
    Wait(steps, 0, Some(Counter(1, Some(3600))), [], [0], 1, 3599);
    steps := steps + [Tick(3599)];
    Grant(steps, 3599, Some(Counter(1, Some(3600))), [], [0], 1);
    steps := steps + [Incr(2)];
    Grant(steps, 3599, Some(Counter(2, Some(3600))), [], [0, 3599], 2);
    steps := steps + [Incr(3)];
  }

  /** The window rolls over, and three more come at once: five within the hour from 3599, without any stray
      DECR. */
  lemma FiveAreReached() returns (steps: seq<Step>)
    ensures NoExpiryMidCall(steps) && HourCount(AllGrants(Run(steps)), 3599) == MOST
  {
    var past := [0, 3599, 3599];
    steps := ThreeByTheEnd();
    Wait(steps, 3599, Some(Counter(3, Some(3600))), [], past, 3, 1);
    steps := steps + [Tick(1)];
    Grant(steps, 3600, None, past, [], 3);
    steps := steps + [Incr(4)];
    Grant(steps, 3600, Some(Counter(1, None)), past, [3600], 4);
    steps := steps + [Incr(5)];
    Grant(steps, 3600, Some(Counter(2, None)), past, [3600, 3600], 5);
    steps := steps + [Incr(6)];
    CountFive(AllGrants(Run(steps)));
  }

  lemma CountFive(s: seq<int>)
    requires s == [0, 3599, 3599, 3600, 3600, 3600]
    ensures HourCount(s, 3599) == 5
  {
    CountInside(s[1..], 3599, 7199);
  }
}
