/** The GSP session ledger of gsp/service.py: rows of `gsp_session`, the audit trail and the consent
    log, as confirm, disconnect and mark-dead change them. */
module GspLedger {
  import opened Wrappers

  datatype Reason = Reconnected | UserDisconnected | SessionExpired | ConsentRevoked

  /** One `gsp_session` row; its id is its position. It is live while `revoked` is None. */
  datatype SessionRow = SessionRow(profile: nat, expiresAt: int, revoked: Option<Reason>)

  datatype Action = Connect | Reconnect | Disconnect | MarkedExpired | MarkedRevoked
  datatype Audit = Audit(profile: nat, action: Action)
  datatype Consent = Consent(profile: nat, revokes: bool)

  datatype Ledger = Ledger(rows: seq<SessionRow>, audit: seq<Audit>, consents: seq<Consent>)

  const EMPTY := Ledger([], [], [])

  predicate LiveAt(rows: seq<SessionRow>, i: nat, profile: nat) {
    i < |rows| && rows[i].profile == profile && rows[i].revoked.None?
  }

  predicate HasLive(rows: seq<SessionRow>, profile: nat) {
    exists i :: 0 <= i < |rows| && LiveAt(rows, i, profile)
  }

  /** The partial unique index `gsp_session_live_uniq`. */
  predicate UniqueLive(rows: seq<SessionRow>) {
    forall i, j :: 0 <= i < j < |rows| && rows[i].revoked.None? && rows[j].revoked.None? ==>
      rows[i].profile != rows[j].profile
  }

  /** `SELECT ... WHERE gstin_profile_id = :g AND revoked_at IS NULL`, first row. */
  function FirstLive(rows: seq<SessionRow>, profile: nat, from: nat := 0): (r: Option<nat>)
    requires from <= |rows|
    ensures r.Some? ==> from <= r.value && LiveAt(rows, r.value, profile)
    ensures r.None? ==> forall i :: from <= i < |rows| ==> !LiveAt(rows, i, profile)
    decreases |rows| - from
  {
    if from == |rows| then None
    else if LiveAt(rows, from, profile) then Some(from)
    else FirstLive(rows, profile, from + 1)
  }

  function RevokeAt(rows: seq<SessionRow>, i: nat, why: Reason): seq<SessionRow>
    requires i < |rows|
  {
    rows[i := rows[i].(revoked := Some(why))]
  }

  /** `UPDATE ... SET revoked_at = now() WHERE gstin_profile_id = :g AND revoked_at IS NULL`. */
  function RevokeAll(rows: seq<SessionRow>, profile: nat, why: Reason): (r: seq<SessionRow>)
    ensures |r| == |rows|
  {
    seq(|rows|, i requires 0 <= i < |rows| =>
      if LiveAt(rows, i, profile) then rows[i].(revoked := Some(why)) else rows[i])
  }

  // ----- the three operations -----

  datatype Op = Confirm(profile: nat, expiresAt: int) | Cut(profile: nat) | Dead(profile: nat, revoked: bool)

  /** A successful confirm revokes the one row its SELECT returned, then inserts. The insert fails, and
      the transaction with it, when the unique index finds another live row. */
  function ConfirmStep(l: Ledger, profile: nat, expiresAt: int): Option<Ledger> {
    var prior := FirstLive(l.rows, profile);
    var rows := if prior.Some? then RevokeAt(l.rows, prior.value, Reconnected) else l.rows;
    if HasLive(rows, profile) then None
    else Some(Ledger(rows + [SessionRow(profile, expiresAt, None)],
                     l.audit + [Audit(profile, if prior.Some? then Reconnect else Connect)],
                     l.consents + [Consent(profile, false)]))
  }

  function CutStep(l: Ledger, profile: nat): Ledger {
    Ledger(RevokeAll(l.rows, profile, UserDisconnected), l.audit + [Audit(profile, Disconnect)],
           l.consents + [Consent(profile, true)])
  }

  function DeadStep(l: Ledger, profile: nat, revoked: bool): Ledger {
    Ledger(RevokeAll(l.rows, profile, if revoked then ConsentRevoked else SessionExpired),
           l.audit + [Audit(profile, if revoked then MarkedRevoked else MarkedExpired)],
           if revoked then l.consents + [Consent(profile, true)] else l.consents)
  }

  /** A failed confirm leaves the ledger as it was. */
  function Step(l: Ledger, op: Op): Ledger {
    match op
    case Confirm(p, e) => var r := ConfirmStep(l, p, e); if r.Some? then r.value else l
    case Cut(p) => CutStep(l, p)
    case Dead(p, revoked) => DeadStep(l, p, revoked)
  }

  function Run(ops: seq<Op>): Ledger {
    if ops == [] then EMPTY else Step(Run(ops[..|ops| - 1]), ops[|ops| - 1])
  }

  // ----- replaying the audit trail -----

  /** Whether the last session action on a profile was a connect or a reconnect. */
  function ReplayLive(audit: seq<Audit>, profile: nat): bool {
    if audit == [] then false
    else
      var a := audit[|audit| - 1];
      if a.profile == profile then a.action == Connect || a.action == Reconnect
      else ReplayLive(audit[..|audit| - 1], profile)
  }

  ghost predicate Inv(l: Ledger) {
    UniqueLive(l.rows) && forall p: nat :: HasLive(l.rows, p) <==> ReplayLive(l.audit, p)
  }

  lemma ReplayAppend(audit: seq<Audit>, a: Audit, p: nat)
    ensures ReplayLive(audit + [a], p) ==
      if a.profile == p then a.action == Connect || a.action == Reconnect else ReplayLive(audit, p)
  {
    assert (audit + [a])[..|audit|] == audit;
  }

  lemma RevokeAllIs(rows: seq<SessionRow>, profile: nat, why: Reason, p: nat)
    ensures HasLive(RevokeAll(rows, profile, why), p) <==> p != profile && HasLive(rows, p)
    ensures UniqueLive(rows) ==> UniqueLive(RevokeAll(rows, profile, why))
  {
    var after := RevokeAll(rows, profile, why);
    if p != profile && HasLive(rows, p) {
      var i :| 0 <= i < |rows| && LiveAt(rows, i, p);
      assert LiveAt(after, i, p);
    }
    if HasLive(after, p) {
      var i :| 0 <= i < |after| && LiveAt(after, i, p);
      assert LiveAt(rows, i, p);
    }
  }

  lemma RevokedRowIs(rows: seq<SessionRow>, i: nat, why: Reason, p: nat)
    requires UniqueLive(rows) && i < |rows| && rows[i].revoked.None?
    ensures HasLive(RevokeAt(rows, i, why), p) <==> p != rows[i].profile && HasLive(rows, p)
    ensures UniqueLive(RevokeAt(rows, i, why))
  {
    var after := RevokeAt(rows, i, why);
    if p != rows[i].profile && HasLive(rows, p) {
      var k :| 0 <= k < |rows| && LiveAt(rows, k, p);
      assert LiveAt(after, k, p);
    }
    if HasLive(after, p) {
      var k :| 0 <= k < |after| && LiveAt(after, k, p);
      assert LiveAt(rows, k, p);
    }
  }

  lemma InsertIs(rows: seq<SessionRow>, row: SessionRow, p: nat)
    requires row.revoked.None? && !HasLive(rows, row.profile) && UniqueLive(rows)
    ensures HasLive(rows + [row], p) <==> p == row.profile || HasLive(rows, p)
    ensures UniqueLive(rows + [row])
  {
    var after := rows + [row];
    assert LiveAt(after, |rows|, row.profile);
    if HasLive(rows, p) {
      var k :| 0 <= k < |rows| && LiveAt(rows, k, p);
      assert LiveAt(after, k, p);
    }
    if HasLive(after, p) && p != row.profile {
      var k :| 0 <= k < |after| && LiveAt(after, k, p);
      assert LiveAt(rows, k, p);
    }
    forall i | 0 <= i < |rows| && rows[i].revoked.None?
      ensures rows[i].profile != row.profile
    {
      assert !LiveAt(rows, i, row.profile);
    }
  }

  /** A confirm never trips over the unique index, makes its profile live and no other, and audits a
      reconnect exactly when a live row existed. */
  lemma ConfirmIs(l: Ledger, profile: nat, expiresAt: int)
    requires Inv(l)
    ensures var r := ConfirmStep(l, profile, expiresAt);
      r.Some? && Inv(r.value) && HasLive(r.value.rows, profile) &&
      (r.value.audit[|l.audit|].action == Reconnect <==> HasLive(l.rows, profile))
  {
    var prior := FirstLive(l.rows, profile);
    assert prior.Some? <==> HasLive(l.rows, profile);
    var rows := if prior.Some? then RevokeAt(l.rows, prior.value, Reconnected) else l.rows;
    forall p: nat
      ensures UniqueLive(rows) && (HasLive(rows, p) <==> p != profile && HasLive(l.rows, p))
    {
      if prior.Some? {
        RevokedRowIs(l.rows, prior.value, Reconnected, p);
      }
    }
    var l' := ConfirmStep(l, profile, expiresAt).value;
    forall p: nat
      ensures UniqueLive(l'.rows) && (HasLive(l'.rows, p) <==> ReplayLive(l'.audit, p))
    {
      InsertIs(rows, SessionRow(profile, expiresAt, None), p);
      ReplayAppend(l.audit, Audit(profile, if prior.Some? then Reconnect else Connect), p);
    }
    assert HasLive(l'.rows, profile) by {
      InsertIs(rows, SessionRow(profile, expiresAt, None), profile);
    }
  }

  lemma StepKeepsInv(l: Ledger, op: Op)
    requires Inv(l)
    ensures Inv(Step(l, op))
  {
    match op
    case Confirm(p, e) =>
      ConfirmIs(l, p, e);
    case Cut(profile) =>
      RevokeAllIs(l.rows, profile, UserDisconnected, profile);
      forall p: nat
        ensures HasLive(CutStep(l, profile).rows, p) <==> ReplayLive(CutStep(l, profile).audit, p)
      {
        RevokeAllIs(l.rows, profile, UserDisconnected, p);
        ReplayAppend(l.audit, Audit(profile, Disconnect), p);
      }
    case Dead(profile, revoked) =>
      var why := if revoked then ConsentRevoked else SessionExpired;
      RevokeAllIs(l.rows, profile, why, profile);
      forall p: nat
        ensures HasLive(DeadStep(l, profile, revoked).rows, p) <==> ReplayLive(DeadStep(l, profile, revoked).audit, p)
      {
        RevokeAllIs(l.rows, profile, why, p);
        ReplayAppend(l.audit, Audit(profile, if revoked then MarkedRevoked else MarkedExpired), p);
      }
  }

  /** In every run at most one session per profile is live, and the audit trail decides which are. */
  lemma {:induction false} RunInv(ops: seq<Op>)
    ensures Inv(Run(ops))
  {
    if ops != [] {
      RunInv(ops[..|ops| - 1]);
      StepKeepsInv(Run(ops[..|ops| - 1]), ops[|ops| - 1]);
    }
  }

  /** Nothing about a row changes but its one revocation, and a revoked row never changes again. */
  predicate Extends(before: seq<SessionRow>, after: seq<SessionRow>) {
    |before| <= |after| && forall i :: 0 <= i < |before| ==>
      after[i].profile == before[i].profile && after[i].expiresAt == before[i].expiresAt &&
      (before[i].revoked.Some? ==> after[i] == before[i])
  }

  lemma StepExtends(l: Ledger, op: Op)
    ensures Extends(l.rows, Step(l, op).rows)
  {
  }

  lemma ExtendsTransitive(a: seq<SessionRow>, b: seq<SessionRow>, c: seq<SessionRow>)
    requires Extends(a, b) && Extends(b, c)
    ensures Extends(a, c)
  {
  }

  lemma {:induction false} RowsOnlyGetRevoked(ops: seq<Op>, more: seq<Op>)
    ensures Extends(Run(ops).rows, Run(ops + more).rows)
  {
    if more == [] {
      assert ops + more == ops;
    } else {
      var front, op := more[..|more| - 1], more[|more| - 1];
      RowsOnlyGetRevoked(ops, front);
      assert (ops + more)[..|ops + more| - 1] == ops + front;
      StepExtends(Run(ops + front), op);
      ExtendsTransitive(Run(ops).rows, Run(ops + front).rows, Run(ops + more).rows);
    }
  }

  // ----- what a pull may use -----

  /** `load_live_session`: the live row, unless it has expired. */
  function LoadLive(l: Ledger, profile: nat, now: int): Option<nat> {
    var r := FirstLive(l.rows, profile);
    if r.None? || l.rows[r.value].expiresAt <= now then None else r
  }

  predicate Kills(op: Op, profile: nat) { (op.Cut? || op.Dead?) && op.profile == profile }

  predicate Revives(op: Op, profile: nat) { op.Confirm? && op.profile == profile }

  /** Which operation decides liveness: a kill ends it, and only a confirm brings it back. */
  lemma StepLiveness(l: Ledger, op: Op, profile: nat)
    requires Inv(l)
    ensures HasLive(Step(l, op).rows, profile) <==>
      Revives(op, profile) || (!Kills(op, profile) && HasLive(l.rows, profile))
  {
    StepKeepsInv(l, op);
    match op
    case Confirm(p, e) =>
      ConfirmIs(l, p, e);
      ReplayAppend(l.audit, Step(l, op).audit[|l.audit|], profile);
    case Cut(p) => RevokeAllIs(l.rows, p, UserDisconnected, profile);
    case Dead(p, r) => RevokeAllIs(l.rows, p, if r then ConsentRevoked else SessionExpired, profile);
  }

  lemma {:induction false} NotLiveAfter(ops: seq<Op>, more: seq<Op>, profile: nat)
    requires ops != [] && Kills(ops[|ops| - 1], profile)
    requires forall k :: 0 <= k < |more| ==> !Revives(more[k], profile)
    ensures !HasLive(Run(ops + more).rows, profile)
  {
    if more == [] {
      assert ops + more == ops;
      var front := ops[..|ops| - 1];
      RunInv(front);
      StepLiveness(Run(front), ops[|ops| - 1], profile);
    } else {
      var front, op := more[..|more| - 1], more[|more| - 1];
      NotLiveAfter(ops, front, profile);
      RunInv(ops + front);
      StepLiveness(Run(ops + front), op, profile);
      RunOneMore(ops, front, op);
      assert more == front + [op];
    }
  }

  lemma RunOneMore(ops: seq<Op>, front: seq<Op>, op: Op)
    ensures Run(ops + (front + [op])) == Step(Run(ops + front), op)
  {
    assert (ops + (front + [op]))[..|ops| + |front|] == ops + front;
  }

  lemma NothingToLoad(l: Ledger, profile: nat, now: int)
    requires !HasLive(l.rows, profile)
    ensures LoadLive(l, profile, now) == None
  {
  }

  /** Once a session is cut or dead, no later moment offers it again until a new confirm of that
      profile, however many operations on any profile come between. */
  lemma DeadStaysDead(ops: seq<Op>, more: seq<Op>, profile: nat, now: int)
    requires ops != [] && Kills(ops[|ops| - 1], profile)
    requires forall k :: 0 <= k < |more| ==> !Revives(more[k], profile)
    ensures LoadLive(Run(ops + more), profile, now) == None
  {
    NotLiveAfter(ops, more, profile);
    NothingToLoad(Run(ops + more), profile, now);
  }

  // ----- what is loaded, and why rows were revoked -----

  /** A session is offered exactly while some row of the profile is unrevoked and unexpired; in a consistent ledger
      it is that row. */
  lemma LoadLiveExactly(l: Ledger, profile: nat, now: int)
    requires Inv(l)
    ensures LoadLive(l, profile, now).Some? <==>
      exists i :: 0 <= i < |l.rows| && l.rows[i].profile == profile && l.rows[i].revoked.None? &&
        now < l.rows[i].expiresAt
    ensures LoadLive(l, profile, now).Some? ==>
      var i := LoadLive(l, profile, now).value;
      i < |l.rows| && l.rows[i].profile == profile && l.rows[i].revoked.None? && now < l.rows[i].expiresAt
  {
    var r := FirstLive(l.rows, profile);
    if i :| 0 <= i < |l.rows| && l.rows[i].profile == profile && l.rows[i].revoked.None? && now < l.rows[i].expiresAt {
      assert LiveAt(l.rows, i, profile);
      assert r.value == i;
    }
  }

  /** A confirmed session is offered until it expires. */
  lemma ConfirmedIsOffered(ops: seq<Op>, profile: nat, expiresAt: int, now: int)
    ensures LoadLive(Step(Run(ops), Confirm(profile, expiresAt)), profile, now).Some? <==> now < expiresAt
  {
    var l := Run(ops);
    RunInv(ops);
    ConfirmIs(l, profile, expiresAt);
    var after := Step(l, Confirm(profile, expiresAt));
    LoadLiveExactly(after, profile, now);
    var last := |after.rows| - 1;
    assert LiveAt(after.rows, last, profile) && after.rows[last].expiresAt == expiresAt;
    if i :| 0 <= i < |after.rows| && after.rows[i].profile == profile && after.rows[i].revoked.None? &&
            now < after.rows[i].expiresAt
    {
      assert i == last;
    }
  }

  /** Why each operation revokes a row. */
  lemma RevokedBecause(l: Ledger, op: Op, i: nat)
    requires i < |l.rows| && l.rows[i].revoked.None? && Step(l, op).rows[i].revoked.Some?
    ensures op.profile == l.rows[i].profile
    ensures Step(l, op).rows[i].revoked.value ==
      match op
      case Confirm(_, _) => Reconnected
      case Cut(_) => UserDisconnected
      case Dead(_, revoked) => if revoked then ConsentRevoked else SessionExpired
  {
  }

  /** What each operation writes to the audit trail. */
  lemma AuditedAs(l: Ledger, op: Op)
    requires Inv(l)
    ensures Step(l, op).audit == l.audit + [Audit(op.profile,
      match op
      case Confirm(p, _) => if HasLive(l.rows, p) then Reconnect else Connect
      case Cut(_) => Disconnect
      case Dead(_, revoked) => if revoked then MarkedRevoked else MarkedExpired)]
  {
    if op.Confirm? {
      ConfirmIs(l, op.profile, op.expiresAt);
      assert FirstLive(l.rows, op.profile).Some? <==> HasLive(l.rows, op.profile);
    }
  }

  /** Whether the last consent entry of a profile is a grant. */
  function Consented(consents: seq<Consent>, profile: nat): bool {
    if consents == [] then false
    else
      var c := consents[|consents| - 1];
      if c.profile == profile then !c.revokes else Consented(consents[..|consents| - 1], profile)
  }

  /** A grant is logged by a confirm; a disconnect and a consent the vendor calls revoked log its end; a session that
      merely expired does not. */
  lemma ConsentAfter(l: Ledger, op: Op, profile: nat)
    requires Inv(l)
    ensures Consented(Step(l, op).consents, profile) ==
      if op.profile != profile then Consented(l.consents, profile)
      else op.Confirm? || (op.Dead? && !op.revoked && Consented(l.consents, profile))
  {
    if op.Confirm? {
      ConfirmIs(l, op.profile, op.expiresAt);
    }
    var after := Step(l, op).consents;
    assert after != l.consents ==> after[..|after| - 1] == l.consents;
  }

  /** In every run a live session has its consent. */
  lemma {:induction false} LiveHasConsent(ops: seq<Op>, profile: nat)
    ensures HasLive(Run(ops).rows, profile) ==> Consented(Run(ops).consents, profile)
  {
    if ops != [] {
      var front, op := ops[..|ops| - 1], ops[|ops| - 1];
      LiveHasConsent(front, profile);
      RunInv(front);
      StepLiveness(Run(front), op, profile);
      ConsentAfter(Run(front), op, profile);
    }
  }
}
