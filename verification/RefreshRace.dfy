/** Overlapping presentations of one refresh token to api/auth.py: decoding, EXISTS, SET and issuing are separate
    steps, in any order of any number of requests. The revocation key's lifetime is computed when it is set. */
module RefreshRace {
  import opened Wrappers

  /** How far a request has come. */
  datatype Request = Decoded | Passed | Burned | Paired | Refused

  /** The clock, the token's expiry in seconds, the expiry of its revocation key, the requests, and whether any
      SET has landed. */
  datatype State = State(nowMs: nat, exp: nat, key: Option<nat>, requests: map<nat, Request>, landed: bool)

  datatype Step = Decode(id: nat) | Exists(id: nat) | Set(id: nat) | Issue(id: nat, eligible: bool) | Tick(ms: nat)

  predicate Expired(s: State) { s.nowMs / 1000 >= s.exp }

  predicate KeyLive(s: State) { s.key.Some? && s.nowMs < s.key.value }

  predicate Enabled(s: State, a: Step) {
    match a
    case Decode(id) => id !in s.requests
    case Exists(id) => id in s.requests && s.requests[id] == Decoded
    case Set(id) => id in s.requests && s.requests[id] == Passed
    case Issue(id, _) => id in s.requests && s.requests[id] == Burned
    case Tick(_) => true
  }

  function Next(s: State, a: Step): State
    requires Enabled(s, a)
  {
    match a
    case Decode(id) => s.(requests := s.requests[id := if Expired(s) then Refused else Decoded])
    case Exists(id) => s.(requests := s.requests[id := if KeyLive(s) then Refused else Passed])
    case Set(id) =>
      s.(requests := s.requests[id := Burned], landed := true,
         key := if Expired(s) then s.key else Some(s.nowMs + (s.exp - s.nowMs / 1000) * 1000))
    case Issue(id, eligible) => s.(requests := s.requests[id := if eligible then Paired else Refused])
    case Tick(ms) => s.(nowMs := s.nowMs + ms)
  }

  /** Runs a schedule for a token; a step that is not enabled is skipped. */
  function Run(exp: nat, steps: seq<Step>): State {
    if steps == [] then State(0, exp, None, map[], false)
    else
      var s := Run(exp, steps[..|steps| - 1]);
      var a := steps[|steps| - 1];
      if Enabled(s, a) then Next(s, a) else s
  }

  function Those(s: State, r: Request): set<nat> { set id | id in s.requests && s.requests[id] == r }

  /** The requests that found the token unrevoked, and have not failed since. */
  function Through(s: State): set<nat> { set id | id in s.requests && GotThrough(s.requests[id]) }

  predicate GotThrough(r: Request) { r.Passed? || r.Burned? || r.Paired? }

  /** The pairs issued. */
  function Pairs(s: State): nat { |Those(s, Paired)| }

  lemma Extend(exp: nat, steps: seq<Step>, a: Step)
    ensures Run(exp, steps + [a]) == if Enabled(Run(exp, steps), a) then Next(Run(exp, steps), a) else Run(exp, steps)
  {
    assert (steps + [a])[..|steps|] == steps;
  }

  // ----- the invariant -----

  /** Once a SET has landed the key is live until the token expires; before that nothing was issued. */
  ghost predicate Inv(s: State) {
    && (s.landed && !Expired(s) ==> s.key.Some?)
    && (s.key.Some? ==> s.exp * 1000 <= s.key.value < s.exp * 1000 + 1000)
    && (!s.landed ==> s.key.None? && Those(s, Burned) == {} && Those(s, Paired) == {})
  }

  lemma NextKeepsInv(s: State, a: Step)
    requires Inv(s) && Enabled(s, a)
    ensures Inv(Next(s, a))
  {
    var t := Next(s, a);
    if !t.landed {
      assert forall id :: id in Those(t, Burned) ==> id in Those(s, Burned);
      assert forall id :: id in Those(t, Paired) ==> id in Those(s, Paired) || id in Those(s, Burned);
    }
  }

  lemma {:induction false} RunInv(exp: nat, steps: seq<Step>)
    ensures Inv(Run(exp, steps)) && Run(exp, steps).exp == exp
  {
    if steps != [] {
      RunInv(exp, steps[..|steps| - 1]);
      var s, a := Run(exp, steps[..|steps| - 1]), steps[|steps| - 1];
      if Enabled(s, a) {
        NextKeepsInv(s, a);
      }
    }
  }

  /** A request passes the check only before the first SET has landed, or after the token expired under it. */
  lemma PassesOnlyBeforeSet(exp: nat, steps: seq<Step>, id: nat)
    requires Enabled(Run(exp, steps), Exists(id))
    ensures Next(Run(exp, steps), Exists(id)).requests[id] == Passed ==>
      !Run(exp, steps).landed || Expired(Run(exp, steps))
  {
    RunInv(exp, steps);
  }

  /** And it does pass in both cases, once a second has gone by after the expiry. */
  lemma PassesThen(exp: nat, steps: seq<Step>, id: nat)
    requires Enabled(Run(exp, steps), Exists(id))
    requires !Run(exp, steps).landed || Run(exp, steps).nowMs >= exp * 1000 + 1000
    ensures Next(Run(exp, steps), Exists(id)).requests[id] == Passed
  {
    RunInv(exp, steps);
  }

  /** A pair is issued to an eligible user, and to no other. */
  lemma IssuedTo(s: State, id: nat, eligible: bool)
    requires Enabled(s, Issue(id, eligible))
    ensures Pairs(Next(s, Issue(id, eligible))) == Pairs(s) + if eligible then 1 else 0
  {
    var t := Next(s, Issue(id, eligible));
    assert id !in Those(s, Paired);
    assert Those(t, Paired) == if eligible then Those(s, Paired) + {id} else Those(s, Paired);
  }

  // ----- after the first SET -----

  lemma ThroughNext(s: State, a: Step)
    requires Inv(s) && Enabled(s, a) && s.landed && !Expired(Next(s, a))
    ensures Through(Next(s, a)) <= Through(s) && Next(s, a).landed
  {
  }

  lemma {:induction false} ThroughShrinks(exp: nat, steps: seq<Step>, more: seq<Step>)
    requires Run(exp, steps).landed && !Expired(Run(exp, steps + more))
    ensures Through(Run(exp, steps + more)) <= Through(Run(exp, steps)) && Run(exp, steps + more).landed
  {
    if more == [] {
      assert steps + more == steps;
    } else {
      var front, a := more[..|more| - 1], more[|more| - 1];
      assert steps + more == (steps + front) + [a];
      Extend(exp, steps + front, a);
      RunInv(exp, steps + front);
      ThroughShrinks(exp, steps, front);
      if Enabled(Run(exp, steps + front), a) {
        ThroughNext(Run(exp, steps + front), a);
      }
    }
  }

  lemma SubsetSize(a: set<nat>, b: set<nat>)
    requires a <= b
    ensures |a| <= |b|
  {
    assert b == a + (b - a);
  }

  /** Once a SET has landed no more pairs are ever issued, while the token lasts, than requests were through. */
  lemma PairsBounded(exp: nat, steps: seq<Step>, more: seq<Step>)
    requires Run(exp, steps).landed && !Expired(Run(exp, steps + more))
    ensures Pairs(Run(exp, steps + more)) <= |Through(Run(exp, steps))|
  {
    ThroughShrinks(exp, steps, more);
    SubsetSize(Those(Run(exp, steps + more), Paired), Through(Run(exp, steps)));
  }

  // ----- all of them can be issued -----

  predicate TickFree(steps: seq<Step>) { forall i :: 0 <= i < |steps| ==> !steps[i].Tick? }

  lemma Chain(steps: seq<Step>, a: Step, more: seq<Step>)
    ensures steps + ([a] + more) == (steps + [a]) + more
    ensures TickFree(more) && !a.Tick? ==> TickFree([a] + more)
  {
  }

  lemma MovesOn(s: State, a: Step)
    requires Enabled(s, a) && (a.Set? || (a.Issue? && a.eligible))
    ensures var t := Next(s, a);
      Through(t) == Through(s) && t.nowMs == s.nowMs && t.exp == s.exp &&
      Those(t, Passed) == Those(s, Passed) - {a.id} &&
      Those(t, Burned) == if a.Set? then Those(s, Burned) + {a.id} else Those(s, Burned) - {a.id}
  {
  }

  /** Every request that is through sends its SET and is issued its pair. */
  lemma {:induction false} Finish(exp: nat, steps: seq<Step>) returns (more: seq<Step>)
    ensures TickFree(more) && Pairs(Run(exp, steps + more)) == |Through(Run(exp, steps))|
    decreases |Those(Run(exp, steps), Passed)|, |Those(Run(exp, steps), Burned)|
  {
    var s := Run(exp, steps);
    if Those(s, Passed) == {} && Those(s, Burned) == {} {
      more := [];
      assert steps + more == steps;
      assert forall id :: id in Through(s) ==> id !in Those(s, Passed) && id !in Those(s, Burned);
      assert Through(s) == Those(s, Paired);
    } else {
      var a := NextMove(s);
      Extend(exp, steps, a);
      MovesOn(s, a);
      var rest := Finish(exp, steps + [a]);
      Chain(steps, a, rest);
      more := [a] + rest;
    }
  }

  lemma NextMove(s: State) returns (a: Step)
    requires Those(s, Passed) != {} || Those(s, Burned) != {}
    ensures Enabled(s, a) && (a.Set? || (a.Issue? && a.eligible && Those(s, Passed) == {}))
  {
    if Those(s, Passed) != {} {
      var id :| id in Those(s, Passed);
      a := Set(id);
    } else {
      var id :| id in Those(s, Burned);
      a := Issue(id, true);
    }
  }

  // ----- before the first SET -----

  lemma Slips(s: State, id: nat)
    requires !s.landed && s.key.None? && !Expired(s) && id !in s.requests
    ensures Enabled(Next(s, Decode(id)), Exists(id))
    ensures Next(Next(s, Decode(id)), Exists(id)) == s.(requests := s.requests[id := Passed])
  {
    assert s.requests[id := Decoded][id := Passed] == s.requests[id := Passed];
  }

  lemma NewPassed(s: State, t: State, id: nat)
    requires id !in s.requests && t.requests == s.requests[id := Passed]
    ensures |Through(t)| == |Through(s)| + 1
  {
    assert Through(t) == Through(s) + {id};
  }

  /** One more request decodes the token and passes the check. */
  lemma OneMoreThrough(exp: nat, steps: seq<Step>) returns (more: seq<Step>)
    requires !Run(exp, steps).landed && !Expired(Run(exp, steps))
    ensures TickFree(more)
    ensures var s, t := Run(exp, steps), Run(exp, steps + more);
      !t.landed && t.nowMs == s.nowMs && t.exp == s.exp && |Through(t)| == |Through(s)| + 1
  {
    var s := Run(exp, steps);
    RunInv(exp, steps);
    var id := FreshId(s.requests.Keys);
    Slips(s, id);
    NewPassed(s, s.(requests := s.requests[id := Passed]), id);
    Extend(exp, steps, Decode(id));
    Extend(exp, steps + [Decode(id)], Exists(id));
    more := [Decode(id)] + [Exists(id)];
    Chain(steps, Decode(id), [Exists(id)]);
  }

  lemma {:induction false} ManyThrough(exp: nat, steps: seq<Step>, n: nat) returns (more: seq<Step>)
    requires !Run(exp, steps).landed && !Expired(Run(exp, steps))
    ensures TickFree(more) && |Through(Run(exp, steps + more))| == |Through(Run(exp, steps))| + n
    decreases n
  {
    if n == 0 {
      more := [];
      assert steps + more == steps;
    } else {
      var one := OneMoreThrough(exp, steps);
      var rest := ManyThrough(exp, steps + one, n - 1);
      more := one + rest;
      assert steps + more == (steps + one) + rest;
    }
  }

  /** Until a SET lands there is no bound: any number of overlapping requests are all issued pairs. */
  lemma AnyNumberOfPairs(exp: nat, steps: seq<Step>, n: nat) returns (more: seq<Step>)
    requires !Run(exp, steps).landed && !Expired(Run(exp, steps))
    ensures TickFree(more) && Pairs(Run(exp, steps + more)) >= n
  {
    var through := ManyThrough(exp, steps, n);
    var finish := Finish(exp, steps + through);
    more := through + finish;
    assert steps + more == (steps + through) + finish;
  }

  // ----- exactly when single use can fail -----

  lemma {:induction false} TickFreeKeepsTime(exp: nat, steps: seq<Step>, more: seq<Step>)
    requires TickFree(more)
    ensures Run(exp, steps + more).nowMs == Run(exp, steps).nowMs && Run(exp, steps + more).exp == Run(exp, steps).exp
  {
    if more == [] {
      assert steps + more == steps;
    } else {
      var front, a := more[..|more| - 1], more[|more| - 1];
      assert steps + more == (steps + front) + [a];
      Extend(exp, steps + front, a);
      TickFreeKeepsTime(exp, steps, front);
    }
  }

  /** While the token lasts, it can come to yield two pairs exactly when no SET has landed yet or two requests are
      already through. */
  lemma TwoPairsExactly(exp: nat, steps: seq<Step>)
    requires !Expired(Run(exp, steps))
    ensures (exists more :: TickFree(more) && Pairs(Run(exp, steps + more)) >= 2)
      <==> !Run(exp, steps).landed || |Through(Run(exp, steps))| >= 2
  {
    if !Run(exp, steps).landed {
      var more := AnyNumberOfPairs(exp, steps, 2);
    } else {
      forall more | TickFree(more)
        ensures Pairs(Run(exp, steps + more)) <= |Through(Run(exp, steps))|
      {
        TickFreeKeepsTime(exp, steps, more);
        PairsBounded(exp, steps, more);
      }
      var more := Finish(exp, steps);
    }
  }

  /** No request passes the check while another stands between its check and its SET, nor once the token has
      expired. */
  predicate OneAtATime(exp: nat, steps: seq<Step>) {
    steps == [] ||
    (var s, a := Run(exp, steps[..|steps| - 1]), steps[|steps| - 1];
     OneAtATime(exp, steps[..|steps| - 1]) &&
     (a.Exists? && Enabled(s, a) && !KeyLive(s) ==> Those(s, Passed) == {} && !Expired(s)))
  }

  /** Then the token yields one pair at most, for ever. */
  lemma {:induction false} SingleUse(exp: nat, steps: seq<Step>)
    requires OneAtATime(exp, steps)
    ensures |Through(Run(exp, steps))| <= 1 && Pairs(Run(exp, steps)) <= 1
  {
    if steps != [] {
      var s, a := Run(exp, steps[..|steps| - 1]), steps[|steps| - 1];
      SingleUse(exp, steps[..|steps| - 1]);
      RunInv(exp, steps[..|steps| - 1]);
      if Enabled(s, a) {
        OneStepSingle(s, a);
      }
    }
    SubsetSize(Those(Run(exp, steps), Paired), Through(Run(exp, steps)));
  }

  lemma OneStepSingle(s: State, a: Step)
    requires Inv(s) && Enabled(s, a) && |Through(s)| <= 1
    requires a.Exists? && !KeyLive(s) ==> Those(s, Passed) == {} && !Expired(s)
    ensures |Through(Next(s, a))| <= 1
  {
    var t := Next(s, a);
    if a.Exists? && !KeyLive(s) {
      assert !s.landed && Through(s) == {};
      assert Through(t) == {a.id};
    } else {
      assert Through(t) <= Through(s);
      SubsetSize(Through(t), Through(s));
    }
  }

  // ----- why the expiry matters -----

  /** Two requests decode the token in time; one is done with it before the expiry, the other reaches the check after
      the key is gone: they never overlap between check and SET, and each is issued a pair. */
  lemma TwoPairsAcrossExpiry(exp: nat) returns (steps: seq<Step>)
    requires exp > 0
    ensures Pairs(Run(exp, steps)) == 2
  {
    var first := OneServed(exp);
    var s := Run(exp, first);
    Extend(exp, first, Tick(exp * 1000 + 1000));
    steps := first + [Tick(exp * 1000 + 1000)];
    Extend(exp, steps, Exists(2));
    steps := steps + [Exists(2)];
    Extend(exp, steps, Set(2));
    steps := steps + [Set(2)];
    Extend(exp, steps, Issue(2, true));
    steps := steps + [Issue(2, true)];
    TwoPaired(Run(exp, steps));
  }

  lemma TwoPaired(s: State)
    requires s.requests == map[1 := Paired, 2 := Paired]
    ensures Pairs(s) == 2
  {
    assert Those(s, Paired) == {1, 2};
  }

  lemma OneServed(exp: nat) returns (steps: seq<Step>)
    requires exp > 0
    ensures Run(exp, steps) == State(0, exp, Some(exp * 1000), map[1 := Paired, 2 := Decoded], true)
  {
    var both := BothDecoded(exp);
    Extend(exp, both, Exists(1));
    steps := both + [Exists(1)];
    Extend(exp, steps, Set(1));
    steps := steps + [Set(1)];
    Extend(exp, steps, Issue(1, true));
    steps := steps + [Issue(1, true)];
    assert Run(exp, steps).requests == map[1 := Paired, 2 := Decoded];
  }

  lemma BothDecoded(exp: nat) returns (steps: seq<Step>)
    requires exp > 0
    ensures Run(exp, steps) == State(0, exp, None, map[1 := Decoded, 2 := Decoded], false)
  {
    Extend(exp, [], Decode(1));
    steps := [] + [Decode(1)];
    Extend(exp, steps, Decode(2));
    steps := steps + [Decode(2)];
  }
}
