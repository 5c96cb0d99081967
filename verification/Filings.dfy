/** The filing lifecycle of filings/service.py: draft, approved, filed, with an append-only audit trail. */
module Filings {
  import opened Wrappers
  import opened Periods

  datatype Status = Draft | Approved | Filed

  /** The columns of the unique constraint on `filing_run`. */
  datatype Key = Key(profile: nat, period: string, returnType: ReturnType)

  /** One `filing_run` row; its id is its position. */
  datatype Row = Row(key: Key, status: Status, payload: string)

  datatype Action = Generated | Regenerated | FilingApproved | Unlocked | MarkedFiled
  datatype Audit = Audit(action: Action, id: nat)

  datatype State = State(rows: seq<Row>, audit: seq<Audit>)

  datatype Op =
    | Generate(key: Key, payload: string)
    | Approve(id: nat)
    | Unlock(id: nat)
    | MarkFiled(id: nat)

  datatype Result = Done(id: nat) | FilingLocked | FilingNotFound | InvalidTransition

  // ----- the operations -----

  /** The whitelist of transitions, with the action each one audits. */
  function Allowed(from: Status, to: Status): Option<Action> {
    match (from, to)
    case (Draft, Approved) => Some(FilingApproved)
    case (Approved, Draft) => Some(Unlocked)
    case (Approved, Filed) => Some(MarkedFiled)
    case _ => None
  }

  function Target(op: Op): Status
    requires !op.Generate?
  {
    match op case Approve(_) => Approved case Unlock(_) => Draft case MarkFiled(_) => Filed
  }

  function Find(rows: seq<Row>, key: Key, from: nat := 0): (r: Option<nat>)
    requires from <= |rows|
    ensures r.Some? ==> from <= r.value < |rows| && rows[r.value].key == key
    ensures r.None? ==> forall i :: from <= i < |rows| ==> rows[i].key != key
    decreases |rows| - from
  {
    if from == |rows| then None else if rows[from].key == key then Some(from) else Find(rows, key, from + 1)
  }

  function Transition(s: State, id: nat, to: Status): (State, Result) {
    if id >= |s.rows| then (s, FilingNotFound)
    else
      match Allowed(s.rows[id].status, to)
      case None => (s, InvalidTransition)
      case Some(action) =>
        (State(s.rows[id := s.rows[id].(status := to)], s.audit + [Audit(action, id)]), Done(id))
  }

  function GenerateStep(s: State, key: Key, payload: string): (State, Result) {
    match Find(s.rows, key)
    case None =>
      (State(s.rows + [Row(key, Draft, payload)], s.audit + [Audit(Generated, |s.rows|)]), Done(|s.rows|))
    case Some(id) =>
      if s.rows[id].status != Draft then (s, FilingLocked)
      else (State(s.rows[id := s.rows[id].(payload := payload)], s.audit + [Audit(Regenerated, id)]), Done(id))
  }

  function Step(s: State, op: Op): (State, Result) {
    if op.Generate? then GenerateStep(s, op.key, op.payload) else Transition(s, op.id, Target(op))
  }

  function Run(ops: seq<Op>): State {
    if ops == [] then State([], []) else Step(Run(ops[..|ops| - 1]), ops[|ops| - 1]).0
  }

  class Service {
    var rows: seq<Row>
    var audit: seq<Audit>

    function Contents(): State
      reads this
    {
      State(rows, audit)
    }

    constructor ()
      ensures Contents() == Run([])
    {
      rows, audit := [], [];
    }

    method DoTransition(id: nat, to: Status) returns (r: Result)
      modifies this
      ensures (Contents(), r) == Transition(old(Contents()), id, to)
    {
      if id >= |rows| {
        return FilingNotFound;
      }
      var from := rows[id].status;
      var action := Allowed(from, to);
      if action.None? {
        return InvalidTransition;
      }
      rows := rows[id := rows[id].(status := to)];
      audit := audit + [Audit(action.value, id)];
      r := Done(id);
    }

    /** The row is re-read after a transition: its payload is what it was, its status the one asked for. */
    method DoApprove(id: nat) returns (r: Result)
      modifies this
      ensures (Contents(), r) == Step(old(Contents()), Approve(id))
      ensures r.Done? ==> rows[id].status == Approved && rows[id].payload == old(rows)[id].payload
    {
      r := DoTransition(id, Approved);
    }

    method DoUnlock(id: nat) returns (r: Result)
      modifies this
      ensures (Contents(), r) == Step(old(Contents()), Unlock(id))
    {
      r := DoTransition(id, Draft);
    }

    method DoMarkFiled(id: nat) returns (r: Result)
      modifies this
      ensures (Contents(), r) == Step(old(Contents()), MarkFiled(id))
    {
      r := DoTransition(id, Filed);
    }

    method GenerateFiling(key: Key, payload: string) returns (r: Result)
      modifies this
      ensures (Contents(), r) == Step(old(Contents()), Generate(key, payload))
      ensures r.Done? ==> rows[r.id].key == key && rows[r.id].payload == payload && rows[r.id].status == Draft
    {
      var existing := Find(rows, key);
      var id: nat;
      var action: Action;
      if existing.Some? {
        id := existing.value;
        if rows[id].status != Draft {
          return FilingLocked;
        }
        rows := rows[id := rows[id].(payload := payload)];
        action := Regenerated;
      } else {
        id := |rows|;
        rows := rows + [Row(key, Draft, payload)];
        action := Generated;
      }
      audit := audit + [Audit(action, id)];
      r := Done(id);
    }
  }

  // ----- which steps succeed -----

  /** The operation takes the row from one status to another under an audited name, changing nothing else; on a row in
      any other status, or on no row, it is refused and changes nothing. */
  predicate Moves(s: State, op: Op, id: nat, from: Status, to: Status, name: Action) {
    var (t, r) := Step(s, op);
    if id >= |s.rows| then t == s && r == FilingNotFound
    else if s.rows[id].status != from then t == s && r == InvalidTransition
    else
      t == State(s.rows[id := Row(s.rows[id].key, to, s.rows[id].payload)], s.audit + [Audit(name, id)]) &&
      r == Done(id)
  }

  /** A draft can be approved; an approved row can be unlocked or marked filed; nothing else moves. */
  lemma TransitionExactly(s: State, id: nat)
    ensures Moves(s, Approve(id), id, Draft, Approved, FilingApproved)
    ensures Moves(s, Unlock(id), id, Approved, Draft, Unlocked)
    ensures Moves(s, MarkFiled(id), id, Approved, Filed, MarkedFiled)
  {
  }

  /** Generating opens a draft for a new key, and rewrites the payload of a key's draft; a row past draft is locked.
      No other row changes. */
  lemma GenerateExactly(s: State, key: Key, payload: string)
    requires Unique(s.rows)
    ensures var (t, r) := Step(s, Generate(key, payload));
      (r == Done(|s.rows|) <==> forall i :: 0 <= i < |s.rows| ==> s.rows[i].key != key) &&
      (r == FilingLocked <==> exists i :: 0 <= i < |s.rows| && s.rows[i].key == key && s.rows[i].status != Draft) &&
      (r == FilingLocked ==> t == s)
    ensures var (t, r) := Step(s, Generate(key, payload));
      r.Done? ==>
        r.id < |t.rows| && t.rows[r.id] == Row(key, Draft, payload) &&
        (forall i :: 0 <= i < |s.rows| && i != r.id ==> t.rows[i] == s.rows[i]) &&
        t.audit == s.audit + [Audit(if r.id == |s.rows| then Generated else Regenerated, r.id)]
  {
    var found := Find(s.rows, key);
    if found.Some? {
      assert s.rows[found.value].key == key;
    }
  }

  // ----- what one step can do to a row -----

  /** Everything a step can change about an existing row, and under which operation. */
  lemma StepOnRow(s: State, op: Op, id: nat)
    requires id < |s.rows|
    ensures var before, after := s.rows[id], Step(s, op).0.rows[id];
      after.key == before.key && |s.rows| <= |Step(s, op).0.rows| &&
      (after.payload != before.payload ==> before.status == Draft && after.status == Draft && op.Generate?) &&
      (after.status == before.status ||
       (op == Approve(id) && before.status == Draft && after.status == Approved) ||
       (op == Unlock(id) && before.status == Approved && after.status == Draft) ||
       (op == MarkFiled(id) && before.status == Approved && after.status == Filed))
  {
  }

  /** One row per (gstin, period, return type) in every run, and `filed` is absorbing. */
  predicate Unique(rows: seq<Row>) {
    forall i, j :: 0 <= i < j < |rows| ==> rows[i].key != rows[j].key
  }

  lemma {:induction false} RunUnique(ops: seq<Op>)
    ensures Unique(Run(ops).rows)
  {
    if ops != [] {
      RunUnique(ops[..|ops| - 1]);
    }
  }

  lemma {:induction false} FiledIsAbsorbing(ops: seq<Op>, more: seq<Op>, id: nat)
    requires id < |Run(ops).rows| && Run(ops).rows[id].status == Filed
    ensures id < |Run(ops + more).rows| && Run(ops + more).rows[id] == Run(ops).rows[id]
  {
    if more == [] {
      assert ops + more == ops;
    } else {
      var front := more[..|more| - 1];
      FiledIsAbsorbing(ops, front, id);
      assert (ops + more)[..|ops + more| - 1] == ops + front;
      StepOnRow(Run(ops + front), more[|more| - 1], id);
    }
  }

  // ----- what is filed is what was approved -----

  predicate Holds(s: State, id: nat, payload: string) {
    id < |s.rows| && s.rows[id].status != Draft && s.rows[id].payload == payload
  }

  /** Step `k` approved the row, and from then on it stayed approved or filed with this payload. */
  ghost predicate ApprovedAt(ops: seq<Op>, id: nat, k: nat, payload: string) {
    k < |ops| && ops[k] == Approve(id) &&
    id < |Run(ops[..k]).rows| && Run(ops[..k]).rows[id].status == Draft &&
    Run(ops[..k]).rows[id].payload == payload &&
    forall m :: k < m <= |ops| ==> Holds(Run(ops[..m]), id, payload)
  }

  lemma PrefixOfFront(ops: seq<Op>, m: nat)
    requires ops != [] && m < |ops|
    ensures ops[..|ops| - 1][..m] == ops[..m]
  {
  }

  /** In every run, a row that is approved or filed carries the payload it had when it was last approved,
      and nothing unlocked or regenerated it since. */
  lemma {:induction false} FiledIsWhatWasApproved(ops: seq<Op>, id: nat) returns (k: nat)
    requires id < |Run(ops).rows| && Run(ops).rows[id].status != Draft
    ensures ApprovedAt(ops, id, k, Run(ops).rows[id].payload)
  {
    var front, op := ops[..|ops| - 1], ops[|ops| - 1];
    var s := Run(front);
    assert ops[..|ops|] == ops;
    if id < |s.rows| {
      StepOnRow(s, op, id);
      if s.rows[id].status == Draft {
        k := |front|;
      } else {
        k := FiledIsWhatWasApproved(front, id);
        ExtendApproval(ops, id, k, Run(ops).rows[id].payload);
      }
    } else {
      assert false;
    }
  }

  lemma ExtendApproval(ops: seq<Op>, id: nat, k: nat, payload: string)
    requires ops != [] && ApprovedAt(ops[..|ops| - 1], id, k, payload)
    requires id < |Run(ops).rows| && Run(ops).rows[id].status != Draft && Run(ops).rows[id].payload == payload
    ensures ApprovedAt(ops, id, k, payload)
  {
    var front := ops[..|ops| - 1];
    PrefixOfFront(ops, k);
    assert ops[..|ops|] == ops;
    forall m | k < m <= |ops|
      ensures Holds(Run(ops[..m]), id, payload)
    {
      if m < |ops| {
        assert front[..m] == ops[..m];
        assert Holds(Run(front[..m]), id, payload);
      } else {
        assert ops[..m] == ops;
      }
    }
  }

  // ----- replaying the audit trail -----

  function AfterAction(before: Option<Status>, a: Action): Option<Status> {
    match a
    case Generated => Some(Draft)
    case Regenerated => before
    case FilingApproved => Some(Approved)
    case Unlocked => Some(Draft)
    case MarkedFiled => Some(Filed)
  }

  /** A row's status as the audit trail alone tells it. */
  function Replay(audit: seq<Audit>, id: nat): Option<Status> {
    if audit == [] then None
    else
      var before := Replay(audit[..|audit| - 1], id);
      var a := audit[|audit| - 1];
      if a.id == id then AfterAction(before, a.action) else before
  }

  function StatusOf(rows: seq<Row>, id: nat): Option<Status> {
    if id < |rows| then Some(rows[id].status) else None
  }

  lemma ReplayAppend(audit: seq<Audit>, a: Audit, id: nat)
    ensures Replay(audit + [a], id) ==
      if a.id == id then AfterAction(Replay(audit, id), a.action) else Replay(audit, id)
  {
    assert (audit + [a])[..|audit|] == audit;
  }

  /** A step either changes nothing or appends one audit row that accounts for every status. */
  lemma StepIsAudited(s: State, op: Op, id: nat) returns (a: Audit)
    ensures Step(s, op).0 == s ||
      (Step(s, op).0.audit == s.audit + [a] &&
       StatusOf(Step(s, op).0.rows, id) ==
         if a.id == id then AfterAction(StatusOf(s.rows, id), a.action) else StatusOf(s.rows, id))
  {
    match op
    case Generate(key, _) =>
      var found := Find(s.rows, key);
      a := if found.Some? then Audit(Regenerated, found.value) else Audit(Generated, |s.rows|);
    case Approve(i) => a := Audit(FilingApproved, i);
    case Unlock(i) => a := Audit(Unlocked, i);
    case MarkFiled(i) => a := Audit(MarkedFiled, i);
  }

  /** Folding the audit trail reproduces every row's current status, and exactly which rows exist. */
  lemma {:induction false} AuditReplaysTable(ops: seq<Op>, id: nat)
    ensures Replay(Run(ops).audit, id) == StatusOf(Run(ops).rows, id)
  {
    if ops != [] {
      AuditReplaysTable(ops[..|ops| - 1], id);
      var s := Run(ops[..|ops| - 1]);
      var a := StepIsAudited(s, ops[|ops| - 1], id);
      ReplayAppend(s.audit, a, id);
    }
  }

  /** A filing can be regenerated exactly while it is a draft. */
  lemma RegenerateExactlyWhileDraft(ops: seq<Op>, id: nat, payload: string)
    requires id < |Run(ops).rows|
    ensures var s := Run(ops);
      var r := Step(s, Generate(s.rows[id].key, payload));
      (r.1 == Done(id) <==> s.rows[id].status == Draft) &&
      (r.1 == FilingLocked <==> s.rows[id].status != Draft) && (r.1 == FilingLocked ==> r.0 == s)
  {
    RunUnique(ops);
  }
}
