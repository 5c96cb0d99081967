/** The in-flight consent requests of gsp/service.py: a process-wide dictionary that an initiate fills and
    sweeps, and that a successful confirm empties. */
module GspConsent {

  const TTL: int := 900

  /** A request waiting for its OTP. */
  datatype InFlight = InFlight(firm: nat, user: nat, profile: nat, gstin: string, createdAt: int)

  /** The dictionary, and the next id: ids are never used twice. */
  datatype Desk = Desk(inflight: map<nat, InFlight>, next: nat)

  const EMPTY := Desk(map[], 0)

  /** One initiate at time `now`, which either granted a request or failed; or one exchange of an OTP, which the
      lockout and the vendor would let pass or not. */
  datatype Op =
    | Initiate(now: int, request: InFlight, granted: bool)
    | Exchange(firm: nat, user: nat, id: nat, passes: bool)

  /** Only the one who started a request can finish it. */
  predicate Known(d: Desk, firm: nat, user: nat, id: nat) {
    id in d.inflight && d.inflight[id].firm == firm && d.inflight[id].user == user
  }

  /** `_gc_inflight`, which only an initiate runs. */
  function Collect(inflight: map<nat, InFlight>, now: int): map<nat, InFlight> {
    map id | id in inflight && inflight[id].createdAt >= now - TTL :: inflight[id]
  }

  function Step(d: Desk, op: Op): Desk {
    match op
    case Initiate(now, request, granted) =>
      var kept := Collect(d.inflight, now);
      if granted then Desk(kept[d.next := request], d.next + 1) else Desk(kept, d.next)
    case Exchange(firm, user, id, passes) =>
      if Known(d, firm, user, id) && passes then Desk(d.inflight - {id}, d.next) else d
  }

  function Run(ops: seq<Op>): Desk {
    if ops == [] then EMPTY else Step(Run(ops[..|ops| - 1]), ops[|ops| - 1])
  }

  predicate Opens(d: Desk, op: Op, id: nat) { op.Initiate? && op.granted && id == d.next }

  predicate Confirms(d: Desk, op: Op, id: nat) {
    op.Exchange? && op.id == id && op.passes && Known(d, op.firm, op.user, id)
  }

  lemma Snoc(ops: seq<Op>, op: Op)
    ensures Run(ops + [op]) == Step(Run(ops), op)
  {
    assert (ops + [op])[..|ops|] == ops;
  }

  lemma RunOneMore(ops: seq<Op>, more: seq<Op>)
    requires more != []
    ensures Run(ops + more) == Step(Run(ops + more[..|more| - 1]), more[|more| - 1])
  {
    assert ops + more == (ops + more[..|more| - 1]) + [more[|more| - 1]];
    Snoc(ops + more[..|more| - 1], more[|more| - 1]);
  }

  /** An id that was given out and is gone never comes back. */
  predicate Spent(d: Desk, id: nat) { id < d.next && id !in d.inflight }

  lemma {:induction false} SpentForever(ops: seq<Op>, more: seq<Op>, id: nat)
    requires Spent(Run(ops), id)
    ensures Spent(Run(ops + more), id)
  {
    if more == [] {
      assert ops + more == ops;
    } else {
      SpentForever(ops, more[..|more| - 1], id);
      RunOneMore(ops, more);
    }
  }

  lemma {:induction false} InFlightIsOlder(ops: seq<Op>)
    ensures forall id :: id in Run(ops).inflight ==> id < Run(ops).next
  {
    if ops != [] {
      InFlightIsOlder(ops[..|ops| - 1]);
    }
  }

  /** An id is confirmed at most once: after a confirm no exchange of it ever passes, whoever tries. */
  lemma ConfirmedOnce(ops: seq<Op>, op: Op, more: seq<Op>, again: Op, id: nat)
    requires Confirms(Run(ops), op, id)
    ensures !Confirms(Run(ops + [op] + more), again, id)
  {
    InFlightIsOlder(ops);
    Snoc(ops, op);
    SpentForever(ops + [op], more, id);
  }

  /** What is in flight was put there by the initiate that drew its id. */
  lemma {:induction false} WasOpened(ops: seq<Op>, id: nat) returns (k: nat)
    requires id in Run(ops).inflight
    ensures k < |ops| && Opens(Run(ops[..k]), ops[k], id) && ops[k].request == Run(ops).inflight[id]
  {
    var front, op := ops[..|ops| - 1], ops[|ops| - 1];
    if Opens(Run(front), op, id) {
      k := |front|;
    } else {
      k := WasOpened(front, id);
      assert front[..k] == ops[..k];
    }
  }

  /** Only its starter confirms a request, and only after starting it. */
  lemma ConfirmedByStarter(ops: seq<Op>, op: Op, id: nat) returns (k: nat)
    requires Confirms(Run(ops), op, id)
    ensures k < |ops| && Opens(Run(ops[..k]), ops[k], id)
    ensures ops[k].request.firm == op.firm && ops[k].request.user == op.user
  {
    k := WasOpened(ops, id);
  }

  /** Nothing since has confirmed the request, and no initiate found it older than 15 minutes. */
  predicate Undisturbed(ops: seq<Op>, more: seq<Op>, id: nat, createdAt: int) {
    more == [] ||
    (var front, op := more[..|more| - 1], more[|more| - 1];
     Undisturbed(ops, front, id, createdAt) && !Confirms(Run(ops + front), op, id) &&
     !(op.Initiate? && op.now > createdAt + 900))
  }

  /** A request is in flight exactly until it is confirmed or an initiate collects it: time alone never ends
      it. */
  lemma {:induction false} InFlightExactly(ops: seq<Op>, op: Op, more: seq<Op>, id: nat)
    requires Opens(Run(ops), op, id)
    ensures var d, open := Run(ops + [op] + more), Undisturbed(ops + [op], more, id, op.request.createdAt);
      id < d.next && (id in d.inflight <==> open) && (open ==> d.inflight[id] == op.request)
  {
    if more == [] {
      assert ops + [op] + more == ops + [op];
      Snoc(ops, op);
    } else {
      InFlightExactly(ops, op, more[..|more| - 1], id);
      RunOneMore(ops + [op], more);
    }
  }
}
