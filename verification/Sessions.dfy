/**
  Sign-in sessions.  A refresh token is a signed claim plus a row that can be revoked; an
  access token is the claim alone, cut off by comparing its whole-second issue time with the
  account's password stamp.  Signatures are taken to be unforgeable: a presented token is
  one that was minted.
*/
module Sessions {
  import opened Common

  type UserId = int

  const SECOND: Time := 1000000

  /** A JWT carries whole seconds: the part below a second is dropped. */
  function Seconds(t: Time): int {
    t / SECOND
  }

  datatype Access = Access(sub: UserId, iat: int, exp: int)

  /** `id` stands for the token's unique value, and so for its hash. */
  datatype Refresh = Refresh(id: nat, sub: UserId, exp: int)

  datatype RefreshRow = RefreshRow(user: UserId, expiresAt: Time, revokedAt: Option<Time>)

  type Rows = map<nat, RefreshRow>

  function GetActive(rows: Rows, id: nat, now: Time): Option<RefreshRow> {
    if id in rows && rows[id].revokedAt.None? && rows[id].expiresAt > now then Some(rows[id]) else None
  }

  function Revoke(rows: Rows, id: nat, now: Time): Rows {
    if id in rows && rows[id].revokedAt.None? then rows[id := rows[id].(revokedAt := Some(now))] else rows
  }

  function RevokeAllFor(rows: Rows, user: UserId, now: Time): Rows {
    map id | id in rows ::
      if rows[id].user == user && rows[id].revokedAt.None? then rows[id].(revokedAt := Some(now)) else rows[id]
  }

  function DeleteExpired(rows: Rows, now: Time): Rows {
    map id | id in rows && !(rows[id].expiresAt <= now) :: rows[id]
  }

  datatype Config = Config(accessLife: nat, refreshLife: nat)

  /**
    `stamps` holds the open accounts and when each last changed its password; `known` every
    account there ever was; `minted` every access token handed out and the instant it was.
  */
  datatype State = State(
    clock: Time,
    stamps: map<UserId, Option<Time>>,
    known: set<UserId>,
    rows: Rows,
    nextId: nat,
    minted: seq<(Access, Time)>)

  datatype Action =
    | Tick(elapsed: nat)
    | Open(user: UserId)
    | Close(user: UserId)
    | Login(user: UserId)
    | Renew(token: Refresh)
    | ChangePassword(user: UserId, currentMatches: bool)
    | ResetPassword(user: UserId)
    | Logout(token: Refresh)
    | Sweep

  function Init(now: Time): State {
    State(now, map[], {}, map[], 0, [])
  }

  function MintAccess(cfg: Config, user: UserId, now: Time): Access {
    Access(user, Seconds(now), Seconds(now + cfg.accessLife))
  }

  function MintRefresh(cfg: Config, s: State, user: UserId): Refresh {
    Refresh(s.nextId, user, Seconds(s.clock + cfg.refreshLife))
  }

  predicate MovedAfter(stamp: Option<Time>, iat: int) {
    stamp.Some? && Seconds(stamp.value) > iat
  }

  predicate AccessAccepted(s: State, token: Access) {
    token.exp * SECOND > s.clock && token.sub in s.stamps && !MovedAfter(s.stamps[token.sub], token.iat)
  }

  predicate RefreshAccepted(s: State, token: Refresh) {
    && token.exp * SECOND > s.clock
    && GetActive(s.rows, token.id, s.clock).Some?
    && s.rows[token.id].user == token.sub
    && token.sub in s.stamps
  }

  function HandOut(cfg: Config, s: State, user: UserId): State {
    s.(minted := s.minted + [(MintAccess(cfg, user, s.clock), s.clock)])
  }

  function MovePassword(s: State, user: UserId): State {
    if user !in s.stamps then s
    else s.(stamps := s.stamps[user := Some(s.clock)], rows := RevokeAllFor(s.rows, user, s.clock))
  }

  function Next(cfg: Config, s: State, act: Action): State {
    match act
    case Tick(elapsed) => s.(clock := s.clock + elapsed)
    case Open(user) =>
      if user in s.known then s else s.(stamps := s.stamps[user := None], known := s.known + {user})
    case Close(user) => s.(stamps := s.stamps - {user})
    case Login(user) =>
      if user !in s.stamps then s
      else HandOut(cfg, s, user).(rows := s.rows[s.nextId := RefreshRow(user, s.clock + cfg.refreshLife, None)],
                                  nextId := s.nextId + 1)
    case Renew(token) => if RefreshAccepted(s, token) then HandOut(cfg, s, token.sub) else s
    case ChangePassword(user, currentMatches) => if currentMatches then MovePassword(s, user) else s
    case ResetPassword(user) => MovePassword(s, user)
    case Logout(token) => s.(rows := Revoke(s.rows, token.id, s.clock))
    case Sweep => s.(rows := DeleteExpired(s.rows, s.clock))
  }

  function Exec(cfg: Config, s: State, acts: seq<Action>): State
    decreases |acts|
  {
    if acts == [] then s else Exec(cfg, Next(cfg, s, acts[0]), acts[1..])
  }

  /** The password moves, by a change or by a reset. */
  predicate MovesPassword(act: Action, user: UserId) {
    (act.ChangePassword? && act.currentMatches && act.user == user) || (act.ResetPassword? && act.user == user)
  }

  ghost predicate Inv(s: State) {
    && (forall id :: id in s.rows ==> id < s.nextId)
    && (forall u :: u in s.stamps ==> u in s.known && (s.stamps[u].Some? ==> s.stamps[u].value <= s.clock))
    && (forall m :: m in s.minted ==> m.1 <= s.clock && m.0.iat == Seconds(m.1))
  }

  lemma StepKeepsInv(cfg: Config, s: State, act: Action)
    requires Inv(s)
    ensures Inv(Next(cfg, s, act))
    ensures s.nextId <= Next(cfg, s, act).nextId && s.clock <= Next(cfg, s, act).clock
  {
  }

  /** What a step can do to a refresh row that already exists: revoke it or delete it. */
  lemma StepOnRow(cfg: Config, s: State, act: Action, id: nat)
    requires Inv(s) && id < s.nextId
    ensures var t := Next(cfg, s, act);
      id in t.rows ==> id in s.rows && t.rows[id].user == s.rows[id].user
                       && (s.rows[id].revokedAt.Some? ==> t.rows[id].revokedAt.Some?)
  {
  }

  /** What a step can do to an account's stamp: set it to now, or remove it with the account. */
  lemma StepOnStamp(cfg: Config, s: State, act: Action, user: UserId)
    requires Inv(s) && user in s.known
    ensures var t := Next(cfg, s, act);
      && user in t.known
      && (user in t.stamps ==> user in s.stamps)
      && (user in t.stamps && MovesPassword(act, user) ==> t.stamps[user] == Some(s.clock))
      && (user in t.stamps && !MovesPassword(act, user) ==> t.stamps[user] == s.stamps[user])
      && (user in s.stamps && act != Close(user) ==> user in t.stamps)
  {
  }

  lemma {:induction false} RunKeepsInv(cfg: Config, s: State, acts: seq<Action>)
    requires Inv(s)
    ensures Inv(Exec(cfg, s, acts))
    decreases |acts|
  {
    if acts != [] {
      StepKeepsInv(cfg, s, acts[0]);
      RunKeepsInv(cfg, Next(cfg, s, acts[0]), acts[1..]);
    }
  }

  // ----- After a password change -----

  /** A refresh token that can never be used again: its row is gone or revoked, and numbers are not reused. */
  ghost predicate Dead(s: State, id: nat) {
    id < s.nextId && (id in s.rows ==> s.rows[id].revokedAt.Some?)
  }

  /** What a password change at `t` leaves true for ever: its account is closed, or its stamp is at least t. */
  ghost predicate StampedSince(s: State, user: UserId, t: Time) {
    user in s.known && (user in s.stamps ==> s.stamps[user].Some? && t <= s.stamps[user].value)
  }

  lemma {:induction false} DeadStaysDead(cfg: Config, s: State, acts: seq<Action>, id: nat)
    requires Inv(s) && Dead(s, id)
    ensures Dead(Exec(cfg, s, acts), id)
    decreases |acts|
  {
    if acts != [] {
      StepKeepsInv(cfg, s, acts[0]);
      StepOnRow(cfg, s, acts[0], id);
      DeadStaysDead(cfg, Next(cfg, s, acts[0]), acts[1..], id);
    }
  }

  lemma {:induction false} StampsOnlyAdvance(cfg: Config, s: State, acts: seq<Action>, user: UserId, t: Time)
    requires Inv(s) && t <= s.clock && StampedSince(s, user, t)
    ensures StampedSince(Exec(cfg, s, acts), user, t)
    decreases |acts|
  {
    if acts != [] {
      StepKeepsInv(cfg, s, acts[0]);
      StepOnStamp(cfg, s, acts[0], user);
      StampsOnlyAdvance(cfg, Next(cfg, s, acts[0]), acts[1..], user, t);
    }
  }

  lemma {:induction false} OwnerNeverChanges(cfg: Config, s: State, acts: seq<Action>, id: nat, user: UserId)
    requires Inv(s) && id < s.nextId && (id in s.rows ==> s.rows[id].user == user)
    ensures var end := Exec(cfg, s, acts);
      id in end.rows ==> end.rows[id].user == user
    decreases |acts|
  {
    if acts != [] {
      StepKeepsInv(cfg, s, acts[0]);
      StepOnRow(cfg, s, acts[0], id);
      OwnerNeverChanges(cfg, Next(cfg, s, acts[0]), acts[1..], id, user);
    }
  }

  /**
    Whatever happens afterwards, a password change at time t refuses every refresh token the
    account was issued before it, and an access token that is still accepted was minted later
    than t minus one second.
  */
  lemma PasswordChangeCutsSessions(
    cfg: Config, t0: Time, before: seq<Action>, act: Action, user: UserId, after: seq<Action>,
    refresh: Refresh, access: Access, mintedAt: Time)
    requires var s := Exec(cfg, Init(t0), before);
      MovesPassword(act, user) && user in s.stamps && refresh.id < s.nextId
    requires refresh.sub == user && access.sub == user && access.iat == Seconds(mintedAt)
    ensures var s := Exec(cfg, Init(t0), before);
      var end := Exec(cfg, Next(cfg, s, act), after);
      && !RefreshAccepted(end, refresh)
      && (AccessAccepted(end, access) ==> mintedAt > s.clock - SECOND)
  {
    RunKeepsInv(cfg, Init(t0), before);
    var s := Exec(cfg, Init(t0), before);
    var moved := Next(cfg, s, act);
    var end := Exec(cfg, moved, after);
    if refresh.id in s.rows && s.rows[refresh.id].user != user {
      OwnerNeverChanges(cfg, moved, after, refresh.id, s.rows[refresh.id].user);
    } else {
      DeadStaysDead(cfg, moved, after, refresh.id);
    }
    StampsOnlyAdvance(cfg, moved, after, user, s.clock);
  }

  predicate LeavesAlone(act: Action, user: UserId) {
    !MovesPassword(act, user) && act != Close(user)
  }

  lemma {:induction false} StampStands(cfg: Config, s: State, acts: seq<Action>, user: UserId)
    requires Inv(s) && user in s.stamps && forall a :: a in acts ==> LeavesAlone(a, user)
    ensures var end := Exec(cfg, s, acts);
      user in end.stamps && end.stamps[user] == s.stamps[user]
    decreases |acts|
  {
    if acts != [] {
      StepKeepsInv(cfg, s, acts[0]);
      assert LeavesAlone(acts[0], user);
      StepOnStamp(cfg, s, acts[0], user);
      StampStands(cfg, Next(cfg, s, acts[0]), acts[1..], user);
    }
  }

  lemma SecondsMonotone(a: Time, b: Time)
    requires a <= b
    ensures Seconds(a) <= Seconds(b)
  {
  }

  /**
    The other half: a token minted at or after the last change works, without a gap, until the
    second it expires, for as long as the account is neither closed nor changes its password.
  */
  lemma FreshTokenWorksUntilExpiry(cfg: Config, t0: Time, before: seq<Action>, user: UserId, after: seq<Action>)
    requires user in Exec(cfg, Init(t0), before).stamps
    requires forall a :: a in after ==> LeavesAlone(a, user)
    ensures var s := Exec(cfg, Init(t0), before);
      var end := Exec(cfg, s, after);
      AccessAccepted(end, MintAccess(cfg, user, s.clock)) <==> end.clock < Seconds(s.clock + cfg.accessLife) * SECOND
  {
    RunKeepsInv(cfg, Init(t0), before);
    var s := Exec(cfg, Init(t0), before);
    StampStands(cfg, s, after, user);
    if s.stamps[user].Some? {
      SecondsMonotone(s.stamps[user].value, s.clock);
    }
  }

  /**
    Exactly which tokens a change cuts off: of those minted before it, the ones from an earlier
    whole second.  The others go on working until they expire.
  */
  lemma CutFallsOnTheSecond(
    cfg: Config, t0: Time, before: seq<Action>, act: Action, user: UserId, after: seq<Action>,
    access: Access, mintedAt: Time)
    requires var s := Exec(cfg, Init(t0), before);
      MovesPassword(act, user) && user in s.stamps && access.sub == user && (access, mintedAt) in s.minted
    requires forall a :: a in after ==> LeavesAlone(a, user)
    ensures var s := Exec(cfg, Init(t0), before);
      var end := Exec(cfg, Next(cfg, s, act), after);
      AccessAccepted(end, access) <==> Seconds(s.clock) == Seconds(mintedAt) && end.clock < access.exp * SECOND
  {
    RunKeepsInv(cfg, Init(t0), before);
    var s := Exec(cfg, Init(t0), before);
    StepKeepsInv(cfg, s, act);
    StampStands(cfg, Next(cfg, s, act), after, user);
    SecondsMonotone(mintedAt, s.clock);
  }

  /** So a token minted a moment before the change, within the same second, outlives it. */
  lemma SameSecondSurvives(cfg: Config, user: UserId)
    requires cfg.accessLife >= 2 * SECOND
    ensures var s := Exec(cfg, Init(0), [Open(user), Login(user), Tick(1), ResetPassword(user)]);
      |s.minted| == 1 && s.minted[0].1 < s.clock && AccessAccepted(s, s.minted[0].0)
  {
    var acts := [Open(user), Login(user), Tick(1), ResetPassword(user)];
    var s1 := Next(cfg, Init(0), Open(user));
    var s2 := Next(cfg, s1, Login(user));
    var s3 := Next(cfg, s2, Tick(1));
    var s4 := Next(cfg, s3, ResetPassword(user));
    assert acts[1..][1..][1..] == [ResetPassword(user)] && acts[1..][1..] == [Tick(1), ResetPassword(user)];
    assert Exec(cfg, Init(0), acts) == Exec(cfg, s1, acts[1..]) == Exec(cfg, s2, acts[1..][1..]);
    assert Exec(cfg, s2, acts[1..][1..]) == Exec(cfg, s3, [ResetPassword(user)]);
    assert Exec(cfg, s3, [ResetPassword(user)]) == Exec(cfg, s4, []);
    SecondsMonotone(2 * SECOND, cfg.accessLife);
  }

  // ----- The life of a refresh token -----

  /** Whatever happens afterwards, a token that was signed out is never accepted again. */
  lemma SignOutIsForEver(cfg: Config, t0: Time, before: seq<Action>, token: Refresh, after: seq<Action>)
    requires token.id < Exec(cfg, Init(t0), before).nextId
    ensures var s := Exec(cfg, Init(t0), before);
      !RefreshAccepted(Exec(cfg, Next(cfg, s, Logout(token)), after), token)
  {
    RunKeepsInv(cfg, Init(t0), before);
    var s := Exec(cfg, Init(t0), before);
    StepKeepsInv(cfg, s, Logout(token));
    DeadStaysDead(cfg, Next(cfg, s, Logout(token)), after, token.id);
  }

  /** Nothing in a run ends the session of `token` before its time. */
  predicate Spares(act: Action, token: Refresh) {
    LeavesAlone(act, token.sub) && !(act.Logout? && act.token.id == token.id)
  }

  /** What a token handed out at `issued` needs to be accepted until it expires. */
  ghost predicate InForce(cfg: Config, s: State, token: Refresh, issued: Time) {
    && token.id < s.nextId && token.sub in s.stamps && issued <= s.clock
    && token.exp == Seconds(issued + cfg.refreshLife)
    && (token.id in s.rows ==> s.rows[token.id] == RefreshRow(token.sub, issued + cfg.refreshLife, None))
    && (token.id !in s.rows ==> issued + cfg.refreshLife <= s.clock)
  }

  lemma StepStaysInForce(cfg: Config, s: State, act: Action, token: Refresh, issued: Time)
    requires Inv(s) && InForce(cfg, s, token, issued) && Spares(act, token)
    ensures InForce(cfg, Next(cfg, s, act), token, issued)
  {
  }

  lemma {:induction false} StaysInForce(cfg: Config, s: State, acts: seq<Action>, token: Refresh, issued: Time)
    requires Inv(s) && InForce(cfg, s, token, issued) && forall a :: a in acts ==> Spares(a, token)
    ensures InForce(cfg, Exec(cfg, s, acts), token, issued)
    decreases |acts|
  {
    if acts != [] {
      assert acts[0] in acts;
      StepKeepsInv(cfg, s, acts[0]);
      StepStaysInForce(cfg, s, acts[0], token, issued);
      StaysInForce(cfg, Next(cfg, s, acts[0]), acts[1..], token, issued);
    }
  }

  lemma WholeSeconds(t: Time)
    ensures Seconds(t) * SECOND <= t < Seconds(t) * SECOND + SECOND
  {
  }

  /**
    The token a sign-in hands out is accepted, again and again, exactly until the whole second it
    expires in, unless it is signed out or its account closes or moves its password; sweeps,
    renewals and everybody else's doings do not matter.
  */
  lemma RefreshWorksUntilExpiry(cfg: Config, t0: Time, before: seq<Action>, user: UserId, after: seq<Action>)
    requires user in Exec(cfg, Init(t0), before).stamps
    requires var token := MintRefresh(cfg, Exec(cfg, Init(t0), before), user);
      forall a :: a in after ==> Spares(a, token)
    ensures var s := Exec(cfg, Init(t0), before);
      var token := MintRefresh(cfg, s, user);
      var end := Exec(cfg, Next(cfg, s, Login(user)), after);
      RefreshAccepted(end, token) <==> end.clock < Seconds(s.clock + cfg.refreshLife) * SECOND
  {
    RunKeepsInv(cfg, Init(t0), before);
    var s := Exec(cfg, Init(t0), before);
    var token := MintRefresh(cfg, s, user);
    StepKeepsInv(cfg, s, Login(user));
    StaysInForce(cfg, Next(cfg, s, Login(user)), after, token, s.clock);
    WholeSeconds(s.clock + cfg.refreshLife);
  }

  /** Without an open account nobody signs in, and a closed one does not come back. */
  lemma ClosedAccountsStayOut(cfg: Config, s: State, user: UserId, currentMatches: bool)
    requires user !in s.stamps
    ensures Next(cfg, s, Login(user)) == s && Next(cfg, s, ResetPassword(user)) == s
    ensures Next(cfg, s, ChangePassword(user, currentMatches)) == s
    ensures user in s.known ==> Next(cfg, s, Open(user)) == s
  {
  }

  lemma {:induction false} StaysClosed(cfg: Config, s: State, acts: seq<Action>, user: UserId)
    requires Inv(s) && user in s.known && user !in s.stamps
    ensures user !in Exec(cfg, s, acts).stamps
    decreases |acts|
  {
    if acts != [] {
      StepKeepsInv(cfg, s, acts[0]);
      StepOnStamp(cfg, s, acts[0], user);
      StaysClosed(cfg, Next(cfg, s, acts[0]), acts[1..], user);
    }
  }

  /** Closing an account ends its sessions for ever, whatever tokens are about. */
  lemma ClosingIsForEver(
    cfg: Config, t0: Time, before: seq<Action>, user: UserId, after: seq<Action>, refresh: Refresh, access: Access)
    requires user in Exec(cfg, Init(t0), before).stamps && refresh.sub == user && access.sub == user
    ensures var end := Exec(cfg, Next(cfg, Exec(cfg, Init(t0), before), Close(user)), after);
      !RefreshAccepted(end, refresh) && !AccessAccepted(end, access)
  {
    RunKeepsInv(cfg, Init(t0), before);
    var s := Exec(cfg, Init(t0), before);
    StepKeepsInv(cfg, s, Close(user));
    StaysClosed(cfg, Next(cfg, s, Close(user)), after, user);
  }

  /** A sweep leaves exactly the rows that have not expired, revoked or not. */
  lemma SweepLeavesTheLive(cfg: Config, s: State, id: nat)
    ensures var t := Next(cfg, s, Sweep);
      && (id in t.rows <==> id in s.rows && s.rows[id].expiresAt > s.clock)
      && (id in t.rows ==> t.rows[id] == s.rows[id])
  {
  }

  /** A renewal hands out a working access token for the token's account, and changes nothing else. */
  lemma RenewalMints(cfg: Config, s: State, token: Refresh)
    requires RefreshAccepted(s, token)
    ensures var t := Next(cfg, s, Renew(token));
      && t.minted == s.minted + [(Access(token.sub, Seconds(s.clock), Seconds(s.clock + cfg.accessLife)), s.clock)]
      && t == s.(minted := t.minted)
  {
  }

  // ----- Sweeps are unobservable -----

  function WithoutSweeps(acts: seq<Action>): seq<Action> {
    if acts == [] then []
    else if acts[0].Sweep? then WithoutSweeps(acts[1..])
    else [acts[0]] + WithoutSweeps(acts[1..])
  }

  ghost predicate Indistinguishable(s: State, t: State) {
    && s == t.(rows := s.rows)
    && (forall id :: id in s.rows ==> id in t.rows && t.rows[id] == s.rows[id])
    && (forall id :: id in t.rows && id !in s.rows ==> t.rows[id].expiresAt <= t.clock)
  }

  lemma SameAnswer(s: State, t: State, token: Refresh)
    requires Indistinguishable(s, t)
    ensures RefreshAccepted(s, token) <==> RefreshAccepted(t, token)
  {
  }

  lemma StepKeepsIndistinguishable(cfg: Config, s: State, t: State, act: Action)
    requires Indistinguishable(s, t) && !act.Sweep?
    ensures Indistinguishable(Next(cfg, s, act), Next(cfg, t, act))
  {
    if act.Renew? {
      SameAnswer(s, t, act.token);
    }
  }

  /** A store that deletes expired refresh rows at any moments answers every later call as one that never does. */
  lemma {:induction false} SweepsAreUnobservable(cfg: Config, s: State, t: State, acts: seq<Action>)
    requires Indistinguishable(s, t)
    ensures Indistinguishable(Exec(cfg, s, acts), Exec(cfg, t, WithoutSweeps(acts)))
    decreases |acts|
  {
    if acts != [] {
      var rest := WithoutSweeps(acts[1..]);
      if acts[0].Sweep? {
        SweepsAreUnobservable(cfg, Next(cfg, s, Sweep), t, acts[1..]);
      } else {
        assert ([acts[0]] + rest)[1..] == rest;
        StepKeepsIndistinguishable(cfg, s, t, acts[0]);
        SweepsAreUnobservable(cfg, Next(cfg, s, acts[0]), Next(cfg, t, acts[0]), acts[1..]);
      }
    }
  }

  /** In particular every later refresh call gets the same answer. */
  lemma SweptStoreAnswersAlike(cfg: Config, t0: Time, acts: seq<Action>, token: Refresh)
    ensures RefreshAccepted(Exec(cfg, Init(t0), acts), token)
       <==> RefreshAccepted(Exec(cfg, Init(t0), WithoutSweeps(acts)), token)
    ensures Exec(cfg, Init(t0), acts).minted == Exec(cfg, Init(t0), WithoutSweeps(acts)).minted
  {
    SweepsAreUnobservable(cfg, Init(t0), Init(t0), acts);
    SameAnswer(Exec(cfg, Init(t0), acts), Exec(cfg, Init(t0), WithoutSweeps(acts)), token);
  }

  // ----- The service, in place -----

  class AuthService {
    var clock: Time
    var stamps: map<UserId, Option<Time>>
    var known: set<UserId>
    var rows: Rows
    var nextId: nat
    var minted: seq<(Access, Time)>
    const cfg: Config

    ghost function View(): State
      reads this
    {
      State(clock, stamps, known, rows, nextId, minted)
    }

    constructor (cfg: Config, now: Time)
      ensures View() == Init(now) && this.cfg == cfg
    {
      clock, stamps, known, rows, nextId, minted := now, map[], {}, map[], 0, [];
      this.cfg := cfg;
    }

    method IssuePair(user: UserId) returns (access: Access, refresh: Refresh)
      requires user in stamps
      modifies this
      ensures View() == Next(cfg, old(View()), Login(user))
      ensures access == MintAccess(cfg, user, clock) && refresh == MintRefresh(cfg, old(View()), user)
    {
      access := MintAccess(cfg, user, clock);
      refresh := Refresh(nextId, user, Seconds(clock + cfg.refreshLife));
      minted := minted + [(access, clock)];
      rows := rows[nextId := RefreshRow(user, clock + cfg.refreshLife, None)];
      nextId := nextId + 1;
    }

    /** The refresh token is handed back unrotated. */
    method RefreshPair(token: Refresh) returns (access: Option<Access>)
      modifies this
      ensures View() == Next(cfg, old(View()), Renew(token))
      ensures access.Some? <==> RefreshAccepted(old(View()), token)
    {
      if token.exp * SECOND <= clock {
        return None;
      }
      var stored := GetActive(rows, token.id, clock);
      if stored.None? || stored.value.user != token.sub {
        return None;
      }
      if token.sub !in stamps {
        return None;
      }
      var minting := MintAccess(cfg, token.sub, clock);
      minted := minted + [(minting, clock)];
      return Some(minting);
    }

    method Change(user: UserId, currentMatches: bool) returns (changed: bool)
      requires user in stamps
      modifies this
      ensures View() == Next(cfg, old(View()), ChangePassword(user, currentMatches))
      ensures changed == currentMatches
    {
      if !currentMatches {
        return false;
      }
      stamps := stamps[user := Some(clock)];
      rows := RevokeAllFor(rows, user, clock);
      return true;
    }

    method SignOut(token: Refresh)
      modifies this
      ensures View() == Next(cfg, old(View()), Logout(token))
    {
      rows := Revoke(rows, token.id, clock);
    }
  }
}
