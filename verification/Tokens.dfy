/** Refresh-token rotation (api/auth.py, auth/revocation.py, auth/tokens.py): single use over time, with a
    revocation set whose entries expire. The clock is in milliseconds; `int(timestamp)` truncates it to
    seconds; a Redis key is gone from its expiry instant on; a token is not accepted on or after its `exp`
    (section 4.1.4 of RFC 7519). */
module Tokens {

  const ACCESS_TTL: nat := 900
  const REFRESH_TTL: nat := 1209600

  datatype TokenType = Access | RefreshToken

  datatype Claims = Claims(sub: nat, typ: TokenType, iat: nat, exp: nat)

  datatype User = User(active: bool, totpConfirmed: bool, passwordChangedMs: nat)

  /** `issued` are the tokens this server signed, by JTI; nothing else decodes. `login` records, for the
      statements only, which login a token descends from. */
  datatype State = State(nowMs: nat, issued: seq<Claims>, revoked: map<nat, nat>, users: map<nat, User>,
                         login: seq<nat>)

  function Seconds(s: State): nat { s.nowMs / 1000 }

  // ----- tokens and revocation -----

  /** Signature and expiry. */
  predicate Decodes(s: State, jti: nat) { jti < |s.issued| && Seconds(s) < s.issued[jti].exp }

  /** EXISTS revoked:jti:... */
  predicate IsRevoked(s: State, jti: nat) { jti in s.revoked && s.nowMs < s.revoked[jti] }

  /** `revocation.revoke(jti, max(0, exp - now))`: no key when nothing of the lifetime remains. */
  function Revoke(s: State, jti: nat): State
    requires jti < |s.issued|
  {
    if s.issued[jti].exp <= Seconds(s) then s
    else s.(revoked := s.revoked[jti := s.nowMs + (s.issued[jti].exp - Seconds(s)) * 1000])
  }

  /** `_issue_token_pair`: an access and a refresh token with fresh JTIs. */
  function IssuePair(s: State, user: nat, login: nat): State {
    var now := Seconds(s);
    var access := Claims(user, Access, now, now + ACCESS_TTL);
    var refresh := Claims(user, RefreshToken, now, now + REFRESH_TTL);
    s.(issued := s.issued + [access, refresh],
       login := s.login + [login, login])
  }

  // ----- the endpoints -----

  datatype Reply = Pair(access: nat, refresh: nat) | InvalidToken | NotARefreshToken | Revoked | NotEligible
                 | PasswordChanged | LoggedOut | Unauthorized | Ok

  predicate Eligible(s: State, user: nat) { user in s.users && s.users[user].active && s.users[user].totpConfirmed }

  function Refresh(s: State, jti: nat): (State, Reply) {
    if !Decodes(s, jti) then (s, InvalidToken)
    else if s.issued[jti].typ != RefreshToken then (s, NotARefreshToken)
    else if IsRevoked(s, jti) then (s, Revoked)
    else
      var burned := Revoke(s, jti);
      var c := s.issued[jti];
      if !Eligible(burned, c.sub) then (burned, NotEligible)
      else if c.iat < burned.users[c.sub].passwordChangedMs / 1000 then (burned, PasswordChanged)
      else
        var login := if jti < |s.login| then s.login[jti] else jti;
        (IssuePair(burned, c.sub, login), Pair(|s.issued|, |s.issued| + 1))
  }

  /** The bearer must hold a live, unrevoked token; the refresh token in the body is revoked if it decodes. */
  function Logout(s: State, bearer: nat, refresh: nat): (State, Reply) {
    if !Decodes(s, bearer) || IsRevoked(s, bearer) then (s, Unauthorized)
    else
      var a := if s.issued[bearer].typ == Access then Revoke(s, bearer) else s;
      if !Decodes(a, refresh) || a.issued[refresh].typ != RefreshToken then (a, LoggedOut)
      else (Revoke(a, refresh), LoggedOut)
  }

  datatype Op =
    | DoLogin(user: nat)
    | DoRefresh(jti: nat)
    | DoLogout(bearer: nat, refresh: nat)
    | ChangePassword(user: nat)
    | SetUser(user: nat, active: bool, totpConfirmed: bool)
    | Tick(ms: nat)

  function Step(s: State, op: Op): (State, Reply) {
    match op
    case DoLogin(user) =>
      if Eligible(s, user) then (IssuePair(s, user, |s.issued|), Pair(|s.issued|, |s.issued| + 1))
      else (s, Unauthorized)
    case DoRefresh(jti) => Refresh(s, jti)
    case DoLogout(bearer, refresh) => Logout(s, bearer, refresh)
    case ChangePassword(user) =>
      if user !in s.users then (s, Ok)
      else (s.(users := s.users[user := s.users[user].(passwordChangedMs := s.nowMs)]), Ok)
    case SetUser(user, active, totp) =>
      var changed := if user in s.users then s.users[user].passwordChangedMs else s.nowMs;
      (s.(users := s.users[user := User(active, totp, changed)]), Ok)
    case Tick(ms) => (s.(nowMs := s.nowMs + ms), Ok)
  }

  const START := State(0, [], map[], map[], [])

  function Run(ops: seq<Op>): State {
    if ops == [] then START else Step(Run(ops[..|ops| - 1]), ops[|ops| - 1]).0
  }

  class AuthServer {
    var nowMs: nat
    var issued: seq<Claims>
    var revoked: map<nat, nat>
    var users: map<nat, User>
    ghost var login: seq<nat>

    ghost function Contents(): State
      reads this
    {
      State(nowMs, issued, revoked, users, login)
    }

    constructor ()
      ensures Contents() == START
    {
      nowMs, issued, revoked, users, login := 0, [], map[], map[], [];
    }

    method RevokeJti(jti: nat, ttlSeconds: int)
      modifies this`revoked
      ensures revoked == if ttlSeconds <= 0 then old(revoked) else old(revoked)[jti := nowMs + ttlSeconds * 1000]
    {
      if ttlSeconds <= 0 {
        return;
      }
      revoked := revoked[jti := nowMs + ttlSeconds * 1000];
    }

    method IssueTokenPair(user: nat, ghost from: nat) returns (r: Reply)
      modifies this`issued, this`login
      ensures Contents() == IssuePair(old(Contents()), user, from)
      ensures r == Pair(|old(issued)|, |old(issued)| + 1)
    {
      var now := nowMs / 1000;
      r := Pair(|issued|, |issued| + 1);
      issued := issued + [Claims(user, Access, now, now + ACCESS_TTL)];
      issued := issued + [Claims(user, RefreshToken, now, now + REFRESH_TTL)];
      login := login + [from, from];
    }

    method DoRefreshRequest(jti: nat) returns (r: Reply)
      modifies this
      ensures (Contents(), r) == Refresh(old(Contents()), jti)
    {
      var now := nowMs / 1000;
      if jti >= |issued| || now >= issued[jti].exp {
        return InvalidToken;
      }
      var claims := issued[jti];
      if claims.typ != RefreshToken {
        return NotARefreshToken;
      }
      if jti in revoked && nowMs < revoked[jti] {
        return Revoked;
      }
      RevokeJti(jti, claims.exp - now);
      if claims.sub !in users || !users[claims.sub].active || !users[claims.sub].totpConfirmed {
        return NotEligible;
      }
      if claims.iat < users[claims.sub].passwordChangedMs / 1000 {
        return PasswordChanged;
      }
      r := IssueTokenPair(claims.sub, if jti < |login| then login[jti] else jti);
    }

    method DoLogoutRequest(bearer: nat, refresh: nat) returns (r: Reply)
      modifies this
      ensures (Contents(), r) == Logout(old(Contents()), bearer, refresh)
    {
      var now := nowMs / 1000;
      if bearer >= |issued| || now >= issued[bearer].exp || (bearer in revoked && nowMs < revoked[bearer]) {
        return Unauthorized;
      }
      if issued[bearer].typ == Access {
        RevokeJti(bearer, issued[bearer].exp - now);
      }
      if refresh >= |issued| || now >= issued[refresh].exp {
        return LoggedOut;
      }
      if issued[refresh].typ == RefreshToken {
        RevokeJti(refresh, issued[refresh].exp - now);
      }
      r := LoggedOut;
    }
  }

  // ----- dead tokens stay dead -----

  /** Expired, or revoked by a key that outlives the token. */
  predicate Dead(s: State, jti: nat) {
    jti < |s.issued| &&
    (Seconds(s) >= s.issued[jti].exp || (jti in s.revoked && s.revoked[jti] >= s.issued[jti].exp * 1000))
  }

  /** A dead token is refused without any effect, before and after its revocation key evaporates. */
  lemma DeadIsRefused(s: State, jti: nat)
    requires Dead(s, jti)
    ensures Refresh(s, jti).0 == s && !Refresh(s, jti).1.Pair?
  {
  }

  lemma RevokeKills(s: State, jti: nat)
    requires jti < |s.issued|
    ensures Dead(Revoke(s, jti), jti)
    ensures forall j :: Dead(s, j) ==> Dead(Revoke(s, jti), j)
    ensures Revoke(s, jti).issued == s.issued && Revoke(s, jti).login == s.login
    ensures Revoke(s, jti).users == s.users && Revoke(s, jti).nowMs == s.nowMs
  {
  }

  lemma PairKeepsDead(s: State, user: nat, login: nat, jti: nat)
    requires jti < |s.issued|
    ensures Dead(IssuePair(s, user, login), jti) == Dead(s, jti)
  {
  }

  lemma DeadStaysDead(s: State, op: Op, jti: nat)
    requires Dead(s, jti)
    ensures Dead(Step(s, op).0, jti)
  {
    match op
    case DoRefresh(j) =>
      if j < |s.issued| {
        RevokeKills(s, j);
        PairKeepsDead(Revoke(s, j), s.issued[j].sub, if j < |s.login| then s.login[j] else j, jti);
      }
    case DoLogout(b, r) =>
      if b < |s.issued| {
        RevokeKills(s, b);
        var a := if s.issued[b].typ == Access then Revoke(s, b) else s;
        if r < |s.issued| {
          RevokeKills(a, r);
        }
      }
    case DoLogin(user) => PairKeepsDead(s, user, |s.issued|, jti);
    case _ =>
  }

  lemma {:induction false} DeadForever(ops: seq<Op>, more: seq<Op>, jti: nat)
    requires Dead(Run(ops), jti)
    ensures Dead(Run(ops + more), jti)
  {
    if more == [] {
      assert ops + more == ops;
    } else {
      DeadForever(ops, more[..|more| - 1], jti);
      assert (ops + more)[..|ops + more| - 1] == ops + more[..|more| - 1];
      DeadStaysDead(Run(ops + more[..|more| - 1]), more[|more| - 1], jti);
    }
  }

  /** Every presentation of a decodable refresh token to /refresh, successful or not, kills it. */
  lemma RefreshKills(s: State, jti: nat)
    requires Decodes(s, jti) && s.issued[jti].typ == RefreshToken && !IsRevoked(s, jti)
    ensures Dead(Refresh(s, jti).0, jti)
  {
    RevokeKills(s, jti);
    PairKeepsDead(Revoke(s, jti), s.issued[jti].sub, if jti < |s.login| then s.login[jti] else jti, jti);
  }

  /** Single use: a refresh token that yielded a pair yields nothing at any later time, whatever happened in
      between and even after its revocation key has expired. */
  lemma AtMostOnePair(ops: seq<Op>, jti: nat, more: seq<Op>)
    requires Refresh(Run(ops), jti).1.Pair?
    ensures !Refresh(Run(ops + [DoRefresh(jti)] + more), jti).1.Pair?
    ensures Refresh(Run(ops + [DoRefresh(jti)] + more), jti).0 == Run(ops + [DoRefresh(jti)] + more)
  {
    assert (ops + [DoRefresh(jti)])[..|ops|] == ops;
    RefreshKills(Run(ops), jti);
    DeadForever(ops + [DoRefresh(jti)], more, jti);
    DeadIsRefused(Run(ops + [DoRefresh(jti)] + more), jti);
  }

  /** After an authenticated logout the refresh token in its body is never accepted again. */
  lemma LoggedOutForGood(ops: seq<Op>, bearer: nat, jti: nat, more: seq<Op>)
    requires Logout(Run(ops), bearer, jti).1 == LoggedOut
    requires jti < |Run(ops).issued| && Run(ops).issued[jti].typ == RefreshToken
    ensures !Refresh(Run(ops + [DoLogout(bearer, jti)] + more), jti).1.Pair?
  {
    var s := Run(ops);
    assert (ops + [DoLogout(bearer, jti)])[..|ops|] == ops;
    RevokeKills(s, bearer);
    var a := if s.issued[bearer].typ == Access then Revoke(s, bearer) else s;
    RevokeKills(a, jti);
    DeadForever(ops + [DoLogout(bearer, jti)], more, jti);
    DeadIsRefused(Run(ops + [DoLogout(bearer, jti)] + more), jti);
  }

  // ----- a login never forks -----

  predicate SameLogin(s: State, i: nat, j: nat) {
    i < |s.issued| && j < |s.issued| && |s.login| == |s.issued| && s.login[i] == s.login[j]
    && s.issued[i].typ == RefreshToken && s.issued[j].typ == RefreshToken
  }

  /** Every token knows its login, logins are older than what follows, and of the refresh tokens that
      descend from one login at most one is alive. */
  ghost predicate Unforked(s: State) {
    && |s.login| == |s.issued|
    && (forall i :: 0 <= i < |s.login| ==> s.login[i] < |s.issued|)
    && forall i: nat, j: nat :: SameLogin(s, i, j) && !Dead(s, i) && !Dead(s, j) ==> i == j
  }

  lemma DeadGrowsKeepsUnforked(s: State, t: State)
    requires Unforked(s) && t.issued == s.issued && t.login == s.login
    requires forall j: nat :: Dead(s, j) ==> Dead(t, j)
    ensures Unforked(t)
  {
    forall i: nat, j: nat | SameLogin(t, i, j) && !Dead(t, i) && !Dead(t, j)
      ensures i == j
    {
      assert SameLogin(s, i, j);
    }
  }

  /** A new pair whose login has no live refresh token left cannot fork it. */
  lemma PairKeepsUnforked(s: State, user: nat, login: nat)
    requires Unforked(s) && login <= |s.issued|
    requires forall j: nat :: j < |s.issued| && s.login[j] == login && s.issued[j].typ == RefreshToken ==> Dead(s, j)
    ensures Unforked(IssuePair(s, user, login))
  {
    var t := IssuePair(s, user, login);
    forall i: nat, j: nat | SameLogin(t, i, j) && !Dead(t, i) && !Dead(t, j)
      ensures i == j
    {
      var n := |s.issued|;
      if i < n {
        PairKeepsDead(s, user, login, i);
      }
      if j < n {
        PairKeepsDead(s, user, login, j);
      }
      if i < n && j < n {
        assert SameLogin(s, i, j);
      }
    }
  }

  lemma RefreshKeepsUnforked(s: State, jti: nat)
    requires Unforked(s)
    ensures Unforked(Refresh(s, jti).0)
  {
    if Decodes(s, jti) && s.issued[jti].typ == RefreshToken && !IsRevoked(s, jti) {
      var burned := Revoke(s, jti);
      RevokeKills(s, jti);
      DeadGrowsKeepsUnforked(s, burned);
      if !Dead(s, jti) {
        forall j: nat | j < |s.issued| && s.login[j] == s.login[jti] && s.issued[j].typ == RefreshToken
          ensures Dead(burned, j)
        {
          assert SameLogin(s, j, jti);
        }
        PairKeepsUnforked(burned, s.issued[jti].sub, s.login[jti]);
      } else {
        DeadIsRefused(s, jti);
      }
    }
  }

  lemma StepKeepsUnforked(s: State, op: Op)
    requires Unforked(s)
    ensures Unforked(Step(s, op).0)
  {
    match op
    case DoRefresh(j) => RefreshKeepsUnforked(s, j);
    case DoLogin(user) => PairKeepsUnforked(s, user, |s.issued|);
    case DoLogout(b, r) =>
      forall j: nat | Dead(s, j)
        ensures Dead(Step(s, op).0, j)
      {
        DeadStaysDead(s, op, j);
      }
      DeadGrowsKeepsUnforked(s, Step(s, op).0);
    case Tick(_) => DeadGrowsKeepsUnforked(s, Step(s, op).0);
    case ChangePassword(_) => DeadGrowsKeepsUnforked(s, Step(s, op).0);
    case SetUser(_, _, _) => DeadGrowsKeepsUnforked(s, Step(s, op).0);
  }

  /** In every run, of all refresh tokens descending from one login at most one can still be used. */
  lemma {:induction false} LoginNeverForks(ops: seq<Op>, i: nat, j: nat)
    requires SameLogin(Run(ops), i, j)
    requires Refresh(Run(ops), i).1.Pair? && Refresh(Run(ops), j).1.Pair?
    ensures i == j
  {
    RunUnforked(ops);
    if Dead(Run(ops), i) {
      DeadIsRefused(Run(ops), i);
    }
    if Dead(Run(ops), j) {
      DeadIsRefused(Run(ops), j);
    }
  }

  lemma {:induction false} RunUnforked(ops: seq<Op>)
    ensures Unforked(Run(ops))
  {
    if ops != [] {
      RunUnforked(ops[..|ops| - 1]);
      StepKeepsUnforked(Run(ops[..|ops| - 1]), ops[|ops| - 1]);
    }
  }

  // ----- password changes -----

  /** The user's last password change is at or after `c`, and not in the future. */
  predicate ChangedSince(s: State, user: nat, c: nat) {
    user in s.users && c <= s.users[user].passwordChangedMs <= s.nowMs
  }

  lemma StepRemembersChange(s: State, op: Op, user: nat, c: nat)
    requires ChangedSince(s, user, c)
    ensures ChangedSince(Step(s, op).0, user, c)
  {
  }

  lemma {:induction false} ChangeIsRemembered(ops: seq<Op>, more: seq<Op>, user: nat, c: nat)
    requires ChangedSince(Run(ops), user, c)
    ensures ChangedSince(Run(ops + more), user, c)
  {
    if more == [] {
      assert ops + more == ops;
    } else {
      ChangeIsRemembered(ops, more[..|more| - 1], user, c);
      assert (ops + more)[..|ops + more| - 1] == ops + more[..|more| - 1];
      StepRemembersChange(Run(ops + more[..|more| - 1]), more[|more| - 1], user, c);
    }
  }

  /** After a password change at time `c`, no refresh token of that user issued before second floor(c) is ever
      accepted again. */
  lemma OldTokensDieWithPassword(ops: seq<Op>, user: nat, more: seq<Op>, jti: nat)
    requires user in Run(ops).users
    ensures var c, s := Run(ops).nowMs, Run(ops + [ChangePassword(user)] + more);
      jti < |s.issued| && s.issued[jti].sub == user && s.issued[jti].iat < c / 1000 ==> !Refresh(s, jti).1.Pair?
  {
    assert (ops + [ChangePassword(user)])[..|ops|] == ops;
    ChangeIsRemembered(ops + [ChangePassword(user)], more, user, Run(ops).nowMs);
  }

  /** The endpoint's comment promises that a change invalidates every outstanding refresh token; seconds are
      what it compares, so right after a change exactly the live tokens issued in that same second survive. */
  lemma SameSecondSurvives(s: State, user: nat, jti: nat)
    requires Decodes(s, jti) && !IsRevoked(s, jti) && s.issued[jti].typ == RefreshToken
    requires s.issued[jti].sub == user && Eligible(s, user)
    ensures Refresh(Step(s, ChangePassword(user)).0, jti).1.Pair? <==> s.issued[jti].iat >= Seconds(s)
  {
  }

  /** A run in which a token outlives a later password change. */
  lemma TokenOutlivesPasswordChange()
    ensures Refresh(Run([SetUser(7, true, true), DoLogin(7), Tick(1), ChangePassword(7)]), 1).1.Pair?
  {
    var ops := [SetUser(7, true, true), DoLogin(7), Tick(1), ChangePassword(7)];
    assert ops[..3][..2][..1][..0] == [];
    assert ops[..3] == [SetUser(7, true, true), DoLogin(7), Tick(1)];
    assert ops[..3][..2] == [SetUser(7, true, true), DoLogin(7)];
    assert ops[..3][..2][..1] == [SetUser(7, true, true)];
    assert Run(ops[..3][..2][..1]) == Step(START, SetUser(7, true, true)).0;
    assert Run(ops[..3][..2]) == Step(Run(ops[..3][..2][..1]), DoLogin(7)).0;
    assert Run(ops[..3]) == Step(Run(ops[..3][..2]), Tick(1)).0;
  }

  // ----- who is served -----

  /** A refresh yields a pair exactly for a signed, unexpired and unrevoked refresh token of a user who is present,
      active and confirmed and has not changed the password in a later second. */
  lemma PairExactly(s: State, jti: nat)
    ensures Refresh(s, jti).1.Pair? <==>
      && jti < |s.issued| && s.nowMs / 1000 < s.issued[jti].exp && s.issued[jti].typ == RefreshToken
      && !(jti in s.revoked && s.nowMs < s.revoked[jti])
      && s.issued[jti].sub in s.users
      && s.users[s.issued[jti].sub].active && s.users[s.issued[jti].sub].totpConfirmed
      && s.issued[jti].iat >= s.users[s.issued[jti].sub].passwordChangedMs / 1000
  {
  }

  /** A refresh that gets past the check revokes the token for what is left of its lifetime: the key outlives the
      token, by less than a second, and no other key changes. */
  lemma RevokedForTheRest(s: State, jti: nat)
    requires jti < |s.issued| && s.nowMs / 1000 < s.issued[jti].exp && s.issued[jti].typ == RefreshToken
    requires !(jti in s.revoked && s.nowMs < s.revoked[jti])
    ensures var t := Refresh(s, jti).0;
      jti in t.revoked && s.issued[jti].exp * 1000 <= t.revoked[jti] < s.issued[jti].exp * 1000 + 1000 &&
      t.revoked - {jti} == s.revoked - {jti}
  {
  }

  /** What a pair is: an access token of 15 minutes and a refresh token of 14 days, new, of the same user and
      issued this second; every older token stays as it was. */
  lemma PairIs(s: State, jti: nat)
    requires Refresh(s, jti).1.Pair?
    ensures var (t, r) := Refresh(s, jti);
      |t.issued| == |s.issued| + 2 && t.issued[..|s.issued|] == s.issued &&
      |s.issued| <= r.access < |t.issued| && |s.issued| <= r.refresh < |t.issued| &&
      t.issued[r.access] == Claims(s.issued[jti].sub, Access, s.nowMs / 1000, s.nowMs / 1000 + 900) &&
      t.issued[r.refresh] == Claims(s.issued[jti].sub, RefreshToken, s.nowMs / 1000, s.nowMs / 1000 + 1209600)
  {
  }

  /** A login yields such a pair exactly for a user who is present, active and confirmed. */
  lemma LoginExactly(s: State, user: nat)
    ensures var (t, r) := Step(s, DoLogin(user));
      (r.Pair? <==> user in s.users && s.users[user].active && s.users[user].totpConfirmed) &&
      (r.Pair? ==> r.refresh < |t.issued| && r.access < |t.issued|) &&
      (r.Pair? ==> t.issued[r.access] == Claims(user, Access, s.nowMs / 1000, s.nowMs / 1000 + 900)) &&
      (r.Pair? ==> t.issued[r.refresh] == Claims(user, RefreshToken, s.nowMs / 1000, s.nowMs / 1000 + 1209600))
  {
  }

  predicate Barred(s: State, user: nat) {
    user in s.users && !(s.users[user].active && s.users[user].totpConfirmed)
  }

  lemma {:induction false} BarredStays(ops: seq<Op>, more: seq<Op>, user: nat)
    requires Barred(Run(ops), user)
    requires forall i :: 0 <= i < |more| ==> more[i] != SetUser(user, true, true)
    ensures Barred(Run(ops + more), user)
  {
    if more == [] {
      assert ops + more == ops;
    } else {
      var front, op := more[..|more| - 1], more[|more| - 1];
      BarredStays(ops, front, user);
      assert (ops + more)[..|ops + more| - 1] == ops + front;
      StepKeepsBarred(Run(ops + front), op, user);
    }
  }

  lemma StepKeepsBarred(s: State, op: Op, user: nat)
    requires Barred(s, user) && op != SetUser(user, true, true)
    ensures Barred(Step(s, op).0, user)
  {
  }

  /** A user who is deactivated, or whose second factor is reset, gets nothing from then on, by any refresh token or
      by login, until made active and confirmed again. */
  lemma BarredUserGetsNothing(ops: seq<Op>, user: nat, active: bool, confirmed: bool, more: seq<Op>, jti: nat)
    requires !(active && confirmed)
    requires forall i :: 0 <= i < |more| ==> more[i] != SetUser(user, true, true)
    ensures var s := Run(ops + [SetUser(user, active, confirmed)] + more);
      !Step(s, DoLogin(user)).1.Pair? &&
      (jti < |s.issued| && s.issued[jti].sub == user ==> !Refresh(s, jti).1.Pair?)
  {
    var before := ops + [SetUser(user, active, confirmed)];
    assert before[..|ops|] == ops;
    BarredStays(before, more, user);
    PairExactly(Run(before + more), jti);
  }

  // ----- both tokens of a logout -----

  /** A logout goes through exactly for a signed, unexpired and unrevoked bearer; it revokes the bearer if that is an
      access token, and the refresh token in the body if it still decodes to one; and no other token. */
  lemma LogoutExactly(s: State, bearer: nat, refresh: nat, jti: nat)
    requires jti < |s.issued|
    ensures Logout(s, bearer, refresh).1 == LoggedOut <==>
      bearer < |s.issued| && s.nowMs / 1000 < s.issued[bearer].exp &&
      !(bearer in s.revoked && s.nowMs < s.revoked[bearer])
    ensures Logout(s, bearer, refresh).1 == LoggedOut ==>
      var t := Logout(s, bearer, refresh).0;
      t.issued == s.issued && t.users == s.users && t.nowMs == s.nowMs &&
      if (jti == bearer && s.issued[jti].typ == Access) || (jti == refresh && s.issued[jti].typ == RefreshToken)
      then Dead(t, jti)
      else (jti in t.revoked <==> jti in s.revoked) && (jti in t.revoked ==> t.revoked[jti] == s.revoked[jti])
    ensures Logout(s, bearer, refresh).1 != LoggedOut ==> Logout(s, bearer, refresh).0 == s
  {
    if bearer < |s.issued| {
      RevokeKills(s, bearer);
      var a := if s.issued[bearer].typ == Access then Revoke(s, bearer) else s;
      if refresh < |s.issued| {
        RevokeKills(a, refresh);
      }
    }
  }

  /** The access token that a logout was sent with never authorizes another. */
  lemma BearerDiesToo(ops: seq<Op>, bearer: nat, refresh: nat, more: seq<Op>, other: nat)
    requires Logout(Run(ops), bearer, refresh).1 == LoggedOut && Run(ops).issued[bearer].typ == Access
    ensures Logout(Run(ops + [DoLogout(bearer, refresh)] + more), bearer, other).1 == Unauthorized
  {
    var s := Run(ops);
    assert (ops + [DoLogout(bearer, refresh)])[..|ops|] == ops;
    LogoutExactly(s, bearer, refresh, bearer);
    DeadForever(ops + [DoLogout(bearer, refresh)], more, bearer);
  }
}
