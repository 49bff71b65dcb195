/**
  Single-use links mailed to an account: confirm an address, reset a password.  Issuing a
  link spends the ones before it; redeeming needs it unspent, unexpired and of the right
  purpose; a sweep deletes expired rows.  Token values are fresh secrets, and their hash is
  injective, so a row is looked up by the value itself.
*/
module AccountLinks {
  import opened Common

  datatype Purpose = EmailVerification | PasswordReset

  type UserId = int
  type Token = int

  /** A row.  `id` is its primary key: rows are numbered as they are issued. */
  datatype Link = Link(
    id: nat, user: UserId, purpose: Purpose, createdAt: Time, expiresAt: Time, usedAt: Option<Time>)

  type Links = map<Token, Link>

  datatype Config = Config(lifetime: Purpose -> nat, cooldown: Purpose -> nat)

  predicate Addressed(l: Link, user: UserId, purpose: Purpose) {
    l.user == user && l.purpose == purpose
  }

  function GetActive(links: Links, token: Token, purpose: Purpose, now: Time): Option<Link> {
    if token in links && links[token].purpose == purpose && links[token].usedAt.None? && links[token].expiresAt > now
    then Some(links[token])
    else None
  }

  function MarkUsed(links: Links, token: Token, now: Time): Links {
    if token in links then links[token := links[token].(usedAt := Some(now))] else links
  }

  function RevokeAllFor(links: Links, user: UserId, purpose: Purpose, now: Time): Links {
    map t | t in links ::
      if Addressed(links[t], user, purpose) && links[t].usedAt.None? then links[t].(usedAt := Some(now)) else links[t]
  }

  function DeleteExpired(links: Links, now: Time): Links {
    map t | t in links && !(links[t].expiresAt < now) :: links[t]
  }

  predicate IssuedWithin(l: Link, now: Time, cooldown: nat) {
    now - l.createdAt < cooldown
  }

  /** Whether the cooldown stands in the way: some row for this account and purpose is that recent. */
  predicate SentRecently(links: Links, user: UserId, purpose: Purpose, now: Time, cooldown: nat) {
    cooldown != 0 && exists t :: t in links && Addressed(links[t], user, purpose) && IssuedWithin(links[t], now, cooldown)
  }

  /** The row the repository's ORDER BY created_at DESC, id DESC LIMIT 1 returns. */
  ghost predicate IsLatest(links: Links, user: UserId, purpose: Purpose, t: Token) {
    && t in links && Addressed(links[t], user, purpose)
    && forall o :: o in links && Addressed(links[o], user, purpose) ==>
         links[o].createdAt < links[t].createdAt
         || (links[o].createdAt == links[t].createdAt && links[o].id <= links[t].id)
  }

  /** Asking only about the latest row is asking about them all. */
  lemma LatestDecides(links: Links, user: UserId, purpose: Purpose, now: Time, cooldown: nat, t: Token)
    requires IsLatest(links, user, purpose, t)
    ensures SentRecently(links, user, purpose, now, cooldown) <==> cooldown != 0 && IssuedWithin(links[t], now, cooldown)
  {
  }

  function Create(links: Links, token: Token, id: nat, user: UserId, purpose: Purpose, now: Time, lifetime: nat): Links {
    RevokeAllFor(links, user, purpose, now)[token := Link(id, user, purpose, now, now + lifetime, None)]
  }

  /** A reset spends every other link of its purpose too; a confirmation spends its own. */
  function Spend(links: Links, token: Token, l: Link, now: Time): Links {
    var used := MarkUsed(links, token, now);
    if l.purpose == PasswordReset then RevokeAllFor(used, l.user, l.purpose, now) else used
  }

  // ----- Runs -----

  datatype Issue = Issue(token: Token, user: UserId, purpose: Purpose, at: Time)

  /** A redeemed link: its number, when, and how many links had been issued by then. */
  datatype Redemption = Redemption(id: nat, token: Token, user: UserId, purpose: Purpose, at: Time, asOf: nat)

  datatype State = State(
    clock: Time,
    accounts: set<UserId>,
    verified: set<UserId>,
    links: Links,
    issued: seq<Issue>,
    redeemed: seq<Redemption>)

  datatype Action =
    | Tick(elapsed: nat)
    | Open(user: UserId)
    | Close(user: UserId)
    | Ask(user: UserId, purpose: Purpose, token: Token)
    | Confirm(purpose: Purpose, token: Token)
    | Sweep

  function Init(now: Time): State {
    State(now, {}, {}, map[], [], [])
  }

  predicate Minted(s: State, token: Token) {
    exists i :: 0 <= i < |s.issued| && s.issued[i].token == token
  }

  predicate MayAsk(cfg: Config, s: State, user: UserId, purpose: Purpose) {
    && user in s.accounts
    && (purpose == EmailVerification ==> user !in s.verified)
    && !SentRecently(s.links, user, purpose, s.clock, cfg.cooldown(purpose))
  }

  function AskLink(cfg: Config, s: State, user: UserId, purpose: Purpose, token: Token): State {
    if Minted(s, token) || !MayAsk(cfg, s, user, purpose) then s
    else s.(links := Create(s.links, token, |s.issued|, user, purpose, s.clock, cfg.lifetime(purpose)),
            issued := s.issued + [Issue(token, user, purpose, s.clock)])
  }

  function ConfirmLink(s: State, purpose: Purpose, token: Token): State {
    var found := GetActive(s.links, token, purpose, s.clock);
    if found.None? || found.value.user !in s.accounts then s
    else
      var l := found.value;
      s.(links := Spend(s.links, token, l, s.clock),
         verified := if purpose == EmailVerification then s.verified + {l.user} else s.verified,
         redeemed := s.redeemed + [Redemption(l.id, token, l.user, purpose, s.clock, |s.issued|)])
  }

  function Next(cfg: Config, s: State, act: Action): State {
    match act
    case Tick(elapsed) => s.(clock := s.clock + elapsed)
    case Open(user) => s.(accounts := s.accounts + {user})
    case Close(user) => s.(accounts := s.accounts - {user})
    case Ask(user, purpose, token) => AskLink(cfg, s, user, purpose, token)
    case Confirm(purpose, token) => ConfirmLink(s, purpose, token)
    case Sweep => s.(links := DeleteExpired(s.links, s.clock))
  }

  function Exec(cfg: Config, s: State, acts: seq<Action>): State
    decreases |acts|
  {
    if acts == [] then s else Exec(cfg, Next(cfg, s, acts[0]), acts[1..])
  }

  predicate SameTarget(i: Issue, user: UserId, purpose: Purpose) {
    i.user == user && i.purpose == purpose
  }

  /** Nothing newer for the same account and purpose was issued between link `id` and the `upTo`-th issue. */
  ghost predicate NoneNewer(issued: seq<Issue>, id: nat, user: UserId, purpose: Purpose, upTo: nat) {
    forall j :: id < j < upTo && j < |issued| ==> !SameTarget(issued[j], user, purpose)
  }

  ghost predicate LinkSound(cfg: Config, issued: seq<Issue>, t: Token, l: Link) {
    && l.id < |issued|
    && issued[l.id] == Issue(t, l.user, l.purpose, l.createdAt)
    && l.expiresAt == l.createdAt + cfg.lifetime(l.purpose)
    && (l.usedAt.None? ==> NoneNewer(issued, l.id, l.user, l.purpose, |issued|))
  }

  /** A redemption was of an issued link, for its own purpose, before expiry, and while it was the newest. */
  ghost predicate RedemptionSound(cfg: Config, issued: seq<Issue>, r: Redemption) {
    && r.id < r.asOf <= |issued|
    && issued[r.id].token == r.token && SameTarget(issued[r.id], r.user, r.purpose)
    && issued[r.id].at <= r.at < issued[r.id].at + cfg.lifetime(r.purpose)
    && NoneNewer(issued, r.id, r.user, r.purpose, r.asOf)
  }

  ghost predicate IssuesSound(s: State) {
    && (forall i :: 0 <= i < |s.issued| ==> s.issued[i].at <= s.clock)
    && (forall i, j :: 0 <= i < j < |s.issued| ==>
          s.issued[i].token != s.issued[j].token && s.issued[i].at <= s.issued[j].at)
  }

  ghost predicate RedeemedSound(cfg: Config, issued: seq<Issue>, links: Links, redeemed: seq<Redemption>) {
    && (forall r :: r in redeemed ==> RedemptionSound(cfg, issued, r))
    && (forall r :: r in redeemed && r.token in links ==> links[r.token].usedAt.Some?)
    && (forall a, b :: 0 <= a < b < |redeemed| ==> redeemed[a].token != redeemed[b].token)
  }

  ghost predicate Inv(cfg: Config, s: State) {
    && IssuesSound(s)
    && (forall t :: t in s.links ==> LinkSound(cfg, s.issued, t, s.links[t]))
    && RedeemedSound(cfg, s.issued, s.links, s.redeemed)
  }

  lemma IssuedKeepsOldLinkSound(cfg: Config, s: State, new': Issue, t: Token, now: Time)
    requires Inv(cfg, s) && t in s.links
    ensures var l := RevokeAllFor(s.links, new'.user, new'.purpose, now)[t];
      LinkSound(cfg, s.issued + [new'], t, l)
  {
  }

  lemma AskKeepsInv(cfg: Config, s: State, user: UserId, purpose: Purpose, token: Token)
    requires Inv(cfg, s)
    ensures Inv(cfg, AskLink(cfg, s, user, purpose, token))
  {
    var t := AskLink(cfg, s, user, purpose, token);
    if !Minted(s, token) && MayAsk(cfg, s, user, purpose) {
      var issue := Issue(token, user, purpose, s.clock);
      assert token !in s.links by {
        assert token in s.links ==> LinkSound(cfg, s.issued, token, s.links[token]);
      }
      forall k | k in t.links
        ensures LinkSound(cfg, t.issued, k, t.links[k])
      {
        if k != token {
          IssuedKeepsOldLinkSound(cfg, s, issue, k, s.clock);
        }
      }
      forall r | r in t.redeemed
        ensures RedemptionSound(cfg, t.issued, r)
        ensures r.token in t.links ==> t.links[r.token].usedAt.Some?
      {
        assert RedemptionSound(cfg, s.issued, r);
        assert r.token != token;
      }
    }
  }

  /** Spending only ever stamps rows. */
  lemma SpendOnlyStamps(links: Links, token: Token, now: Time)
    requires token in links
    ensures var after := Spend(links, token, links[token], now);
      && after.Keys == links.Keys && after[token].usedAt.Some?
      && (forall k :: k in after ==> after[k] == links[k] || after[k] == links[k].(usedAt := Some(now)))
  {
  }

  lemma SpendKeepsLinks(cfg: Config, s: State, token: Token, now: Time)
    requires Inv(cfg, s) && token in s.links
    ensures var after := Spend(s.links, token, s.links[token], now);
      && after.Keys == s.links.Keys
      && after[token].usedAt.Some?
      && (forall k :: k in after ==> LinkSound(cfg, s.issued, k, after[k]))
      && (forall k :: k in after && s.links[k].usedAt.Some? ==> after[k].usedAt.Some?)
  {
    SpendOnlyStamps(s.links, token, now);
    var after := Spend(s.links, token, s.links[token], now);
    forall k | k in after
      ensures LinkSound(cfg, s.issued, k, after[k])
    {
      assert LinkSound(cfg, s.issued, k, s.links[k]);
    }
  }

  lemma OneMoreRedeemed(
    cfg: Config, issued: seq<Issue>, links: Links, after: Links, redeemed: seq<Redemption>, r: Redemption)
    requires RedeemedSound(cfg, issued, links, redeemed) && RedemptionSound(cfg, issued, r)
    requires r.token in links && links[r.token].usedAt.None?
    requires after.Keys == links.Keys && after[r.token].usedAt.Some?
    requires forall k :: k in after && links[k].usedAt.Some? ==> after[k].usedAt.Some?
    ensures RedeemedSound(cfg, issued, after, redeemed + [r])
  {
  }

  lemma RedeemingIsSound(cfg: Config, s: State, purpose: Purpose, token: Token)
    requires Inv(cfg, s) && GetActive(s.links, token, purpose, s.clock).Some?
    ensures var l := s.links[token];
      RedemptionSound(cfg, s.issued, Redemption(l.id, token, l.user, purpose, s.clock, |s.issued|))
  {
    assert LinkSound(cfg, s.issued, token, s.links[token]);
  }

  /** Spending a link and noting the redemption keeps the invariant. */
  lemma NotedKeepsInv(cfg: Config, s: State, t: State, r: Redemption)
    requires Inv(cfg, s) && RedemptionSound(cfg, s.issued, r)
    requires t.clock == s.clock && t.issued == s.issued && t.redeemed == s.redeemed + [r] && t.links.Keys == s.links.Keys
    requires r.token in s.links && s.links[r.token].usedAt.None? && t.links[r.token].usedAt.Some?
    requires forall k :: k in t.links ==> LinkSound(cfg, s.issued, k, t.links[k])
    requires forall k :: k in t.links && s.links[k].usedAt.Some? ==> t.links[k].usedAt.Some?
    ensures Inv(cfg, t)
  {
    OneMoreRedeemed(cfg, s.issued, s.links, t.links, s.redeemed, r);
  }

  lemma ConfirmKeepsInv(cfg: Config, s: State, purpose: Purpose, token: Token)
    requires Inv(cfg, s)
    ensures Inv(cfg, ConfirmLink(s, purpose, token))
  {
    var found := GetActive(s.links, token, purpose, s.clock);
    if found.Some? && found.value.user in s.accounts {
      var l := s.links[token];
      RedeemingIsSound(cfg, s, purpose, token);
      SpendKeepsLinks(cfg, s, token, s.clock);
      NotedKeepsInv(cfg, s, ConfirmLink(s, purpose, token), Redemption(l.id, token, l.user, purpose, s.clock, |s.issued|));
    }
  }

  lemma StepKeepsInv(cfg: Config, s: State, act: Action)
    requires Inv(cfg, s)
    ensures Inv(cfg, Next(cfg, s, act))
  {
    match act
    case Ask(user, purpose, token) => AskKeepsInv(cfg, s, user, purpose, token);
    case Confirm(purpose, token) => ConfirmKeepsInv(cfg, s, purpose, token);
    case _ =>
  }

  lemma {:induction false} RunKeepsInv(cfg: Config, s: State, acts: seq<Action>)
    requires Inv(cfg, s)
    ensures Inv(cfg, Exec(cfg, s, acts))
    decreases |acts|
  {
    if acts != [] {
      StepKeepsInv(cfg, s, acts[0]);
      RunKeepsInv(cfg, Next(cfg, s, acts[0]), acts[1..]);
    }
  }

  /** In every run, at most one unspent link exists per account and purpose. */
  lemma AtMostOneUnspent(cfg: Config, t0: Time, acts: seq<Action>, a: Token, b: Token)
    requires var links := Exec(cfg, Init(t0), acts).links;
      && a in links && b in links && links[a].usedAt.None? && links[b].usedAt.None?
      && Addressed(links[a], links[b].user, links[b].purpose)
    ensures a == b
  {
    RunKeepsInv(cfg, Init(t0), acts);
    var s := Exec(cfg, Init(t0), acts);
    assert LinkSound(cfg, s.issued, a, s.links[a]);
    assert LinkSound(cfg, s.issued, b, s.links[b]);
    assert s.links[a].id == s.links[b].id by {
      assert SameTarget(s.issued[s.links[a].id], s.links[b].user, s.links[b].purpose);
      assert SameTarget(s.issued[s.links[b].id], s.links[a].user, s.links[a].purpose);
    }
  }

  /**
    In every run, each issued value is redeemed at most once, for its own purpose, before it
    expires, and never after a newer link of that purpose went to the same account.
  */
  lemma RedeemedOnceWhileNewest(cfg: Config, t0: Time, acts: seq<Action>)
    ensures var s := Exec(cfg, Init(t0), acts);
      && (forall r :: r in s.redeemed ==> RedemptionSound(cfg, s.issued, r))
      && (forall a, b :: 0 <= a < b < |s.redeemed| ==> s.redeemed[a].token != s.redeemed[b].token)
      && (forall i, j :: 0 <= i < j < |s.issued| ==> s.issued[i].token != s.issued[j].token)
  {
    RunKeepsInv(cfg, Init(t0), acts);
  }

  ghost predicate ConfirmedAddress(s: State, user: UserId) {
    exists i :: 0 <= i < |s.redeemed| && s.redeemed[i].purpose == EmailVerification && s.redeemed[i].user == user
  }

  lemma StepVerifies(cfg: Config, s: State, act: Action, user: UserId)
    requires user in s.verified <==> ConfirmedAddress(s, user)
    ensures user in Next(cfg, s, act).verified <==> ConfirmedAddress(Next(cfg, s, act), user)
  {
    var t := Next(cfg, s, act);
    assert s.redeemed <= t.redeemed;
    if t.redeemed != s.redeemed {
      var n := |s.redeemed|;
      assert forall i :: 0 <= i < n ==> t.redeemed[i] == s.redeemed[i];
      assert t.redeemed[n].purpose == EmailVerification && t.redeemed[n].user == user ==> ConfirmedAddress(t, user);
    }
  }

  /** In every run, an address counts as verified exactly when a verification link sent to its account was redeemed. */
  lemma {:induction false} VerifiedExactlyWhenConfirmed(cfg: Config, s: State, acts: seq<Action>, user: UserId)
    requires user in s.verified <==> ConfirmedAddress(s, user)
    ensures user in Exec(cfg, s, acts).verified <==> ConfirmedAddress(Exec(cfg, s, acts), user)
    decreases |acts|
  {
    if acts != [] {
      StepVerifies(cfg, s, acts[0], user);
      VerifiedExactlyWhenConfirmed(cfg, Next(cfg, s, acts[0]), acts[1..], user);
    }
  }

  /** A link that is sent works: for its purpose, before it expires and while its account is open, and then no more. */
  lemma SentLinkWorks(cfg: Config, s: State, user: UserId, purpose: Purpose, token: Token, wait: nat, other: Purpose)
    requires !Minted(s, token) && user in s.accounts && (purpose == EmailVerification ==> user !in s.verified)
    requires !SentRecently(s.links, user, purpose, s.clock, cfg.cooldown(purpose)) && other != purpose
    ensures var sent := Next(cfg, Next(cfg, s, Ask(user, purpose, token)), Tick(wait));
      var used := Next(cfg, sent, Confirm(purpose, token));
      && sent.issued == s.issued + [Issue(token, user, purpose, s.clock)]
      && (wait < cfg.lifetime(purpose) ==>
            used.redeemed == s.redeemed + [Redemption(|s.issued|, token, user, purpose, sent.clock, |s.issued| + 1)])
      && (wait >= cfg.lifetime(purpose) ==> used == sent)
      && Next(cfg, used, Confirm(purpose, token)) == used
      && Next(cfg, sent, Confirm(other, token)) == sent
      && Next(cfg, Next(cfg, sent, Close(user)), Confirm(purpose, token)).redeemed == s.redeemed
  {
  }

  /** Nobody without an open account is sent anything, nor anybody verified another verification link. */
  lemma NobodyElseIsSentALink(cfg: Config, s: State, user: UserId, purpose: Purpose, token: Token)
    requires user !in s.accounts || (purpose == EmailVerification && user in s.verified)
    ensures Next(cfg, s, Ask(user, purpose, token)) == s
  {
  }

  /** A second request inside the cooldown sends nothing; one after it does. */
  lemma CooldownDecides(cfg: Config, s: State, user: UserId, purpose: Purpose, token: Token, again: Token, wait: nat)
    requires !Minted(s, token) && !Minted(s, again) && token != again
    requires user in s.accounts && (purpose == EmailVerification ==> user !in s.verified)
    requires forall t :: t in s.links ==> !Addressed(s.links[t], user, purpose)
    ensures var sent := Next(cfg, Next(cfg, s, Ask(user, purpose, token)), Tick(wait));
      Next(cfg, sent, Ask(user, purpose, again)).issued
        == if wait < cfg.cooldown(purpose) then sent.issued else sent.issued + [Issue(again, user, purpose, sent.clock)]
  {
    var sent := Next(cfg, Next(cfg, s, Ask(user, purpose, token)), Tick(wait));
    assert token in sent.links && sent.links[token].createdAt == s.clock;
    assert forall t :: t in sent.links && Addressed(sent.links[t], user, purpose) ==> t == token;
    assert !Minted(sent, again);
  }

  // ----- How often mail goes out -----

  /** When a sweep can forget a link, its cooldown is over: true exactly of settings that satisfy this. */
  predicate SweepKeepsCooldown(cfg: Config) {
    forall p: Purpose :: cfg.cooldown(p) <= cfg.lifetime(p) + 1
  }

  ghost predicate Spaced(cfg: Config, issued: seq<Issue>) {
    forall i, j :: 0 <= i < j < |issued| && SameTarget(issued[i], issued[j].user, issued[j].purpose) ==>
      issued[i].at + cfg.cooldown(issued[j].purpose) <= issued[j].at
  }

  /** Only an expired link is ever missing from the table. */
  ghost predicate ForgottenOnlyExpired(cfg: Config, s: State) {
    forall i :: 0 <= i < |s.issued| && s.issued[i].token !in s.links ==>
      s.issued[i].at + cfg.lifetime(s.issued[i].purpose) < s.clock
  }

  ghost predicate MailInv(cfg: Config, s: State) {
    Inv(cfg, s) && Spaced(cfg, s.issued) && ForgottenOnlyExpired(cfg, s)
  }

  lemma AskKeepsSpacing(cfg: Config, s: State, user: UserId, purpose: Purpose, token: Token)
    requires SweepKeepsCooldown(cfg) && MailInv(cfg, s)
    ensures MailInv(cfg, AskLink(cfg, s, user, purpose, token))
  {
    AskKeepsInv(cfg, s, user, purpose, token);
    if !Minted(s, token) && MayAsk(cfg, s, user, purpose) {
      forall i | 0 <= i < |s.issued| && SameTarget(s.issued[i], user, purpose)
        ensures s.issued[i].at + cfg.cooldown(purpose) <= s.clock
      {
        var t := s.issued[i].token;
        if t in s.links {
          assert LinkSound(cfg, s.issued, t, s.links[t]);
          assert s.links[t].id == i;
        }
      }
    }
  }

  lemma StepKeepsSpacing(cfg: Config, s: State, act: Action)
    requires SweepKeepsCooldown(cfg) && MailInv(cfg, s)
    ensures MailInv(cfg, Next(cfg, s, act))
  {
    StepKeepsInv(cfg, s, act);
    match act
    case Ask(user, purpose, token) => AskKeepsSpacing(cfg, s, user, purpose, token);
    case Sweep =>
      forall i | 0 <= i < |s.issued| && s.issued[i].token in s.links
        ensures s.links[s.issued[i].token].expiresAt == s.issued[i].at + cfg.lifetime(s.issued[i].purpose)
      {
        var t := s.issued[i].token;
        assert LinkSound(cfg, s.issued, t, s.links[t]);
        assert s.links[t].id == i;
      }
    case _ =>
  }

  lemma {:induction false} RunKeepsSpacing(cfg: Config, s: State, acts: seq<Action>)
    requires SweepKeepsCooldown(cfg) && MailInv(cfg, s)
    ensures MailInv(cfg, Exec(cfg, s, acts))
    decreases |acts|
  {
    if acts != [] {
      StepKeepsSpacing(cfg, s, acts[0]);
      RunKeepsSpacing(cfg, Next(cfg, s, acts[0]), acts[1..]);
    }
  }

  predicate InWindow(i: Issue, user: UserId, purpose: Purpose, from: Time, until: Time) {
    SameTarget(i, user, purpose) && from <= i.at <= until
  }

  function SentInWindow(issued: seq<Issue>, user: UserId, purpose: Purpose, from: Time, until: Time): nat {
    if issued == [] then 0
    else
      SentInWindow(issued[..|issued| - 1], user, purpose, from, until)
      + if InWindow(issued[|issued| - 1], user, purpose, from, until) then 1 else 0
  }

  /** n cooldowns end to end. */
  function Cooldowns(n: nat, cooldown: nat): nat {
    if n == 0 then 0 else Cooldowns(n - 1, cooldown) + cooldown
  }

  /** n links in the window take up n - 1 cooldowns before the last of them, which is the i-th issue. */
  lemma {:induction false} CooldownsElapsed(
    cfg: Config, issued: seq<Issue>, user: UserId, purpose: Purpose, from: Time, until: Time) returns (i: nat)
    requires Spaced(cfg, issued)
    requires SentInWindow(issued, user, purpose, from, until) > 0
    ensures i < |issued| && InWindow(issued[i], user, purpose, from, until)
    ensures Cooldowns(SentInWindow(issued, user, purpose, from, until) - 1, cfg.cooldown(purpose)) <= issued[i].at - from
  {
    var init := issued[..|issued| - 1];
    var last := issued[|issued| - 1];
    var m := SentInWindow(init, user, purpose, from, until);
    if m == 0 {
      i := |issued| - 1;
    } else {
      var k := CooldownsElapsed(cfg, init, user, purpose, from, until);
      assert issued[k] == init[k];
      if InWindow(last, user, purpose, from, until) {
        i := |issued| - 1;
        assert issued[k].at + cfg.cooldown(purpose) <= last.at;
      } else {
        i := k;
      }
    }
  }

  lemma {:induction false} CooldownsMultiply(n: nat, cooldown: nat)
    ensures Cooldowns(n, cooldown) == n * cooldown
  {
    if n > 0 {
      CooldownsMultiply(n - 1, cooldown);
      assert n * cooldown == (n - 1) * cooldown + cooldown;
    }
  }

  /** The links sent to one account for one purpose from one moment to another. */
  function SentBetween(issued: seq<Issue>, user: UserId, purpose: Purpose, from: Time, until: Time): set<int> {
    set i | 0 <= i < |issued| && issued[i].user == user && issued[i].purpose == purpose && from <= issued[i].at <= until
  }

  lemma LastSent(issued: seq<Issue>, user: UserId, purpose: Purpose, from: Time, until: Time)
    requires issued != []
    ensures var n := |issued| - 1;
      var before := SentBetween(issued[..n], user, purpose, from, until);
      && n !in before
      && SentBetween(issued, user, purpose, from, until)
         == if InWindow(issued[n], user, purpose, from, until) then before + {n} else before
  {
    var n := |issued| - 1;
    var before := SentBetween(issued[..n], user, purpose, from, until);
    var all := SentBetween(issued, user, purpose, from, until);
    forall i: int
      ensures i in all <==> i in before || (i == n && InWindow(issued[n], user, purpose, from, until))
    {
      if 0 <= i < n {
        assert issued[..n][i] == issued[i];
      }
    }
  }

  lemma {:induction false} CountedOneByOne(issued: seq<Issue>, user: UserId, purpose: Purpose, from: Time, until: Time)
    ensures SentInWindow(issued, user, purpose, from, until) == |SentBetween(issued, user, purpose, from, until)|
  {
    if issued == [] {
      assert SentBetween(issued, user, purpose, from, until) == {};
    } else {
      CountedOneByOne(issued[..|issued| - 1], user, purpose, from, until);
      LastSent(issued, user, purpose, from, until);
    }
  }

  /**
    Any stretch of time holds at most width / cooldown + 1 links per account and purpose,
    however sweeps are interleaved: n of them need n - 1 cooldowns to fit.
  */
  lemma MailBound(
    cfg: Config, t0: Time, acts: seq<Action>, user: UserId, purpose: Purpose, from: Time, width: nat)
    requires SweepKeepsCooldown(cfg)
    ensures var n := |SentBetween(Exec(cfg, Init(t0), acts).issued, user, purpose, from, from + width)|;
      n == 0 || (n - 1) * cfg.cooldown(purpose) <= width
  {
    RunKeepsSpacing(cfg, Init(t0), acts);
    var issued := Exec(cfg, Init(t0), acts).issued;
    CountedOneByOne(issued, user, purpose, from, from + width);
    var n := SentInWindow(issued, user, purpose, from, from + width);
    if n > 0 {
      var i := CooldownsElapsed(cfg, issued, user, purpose, from, from + width);
      CooldownsMultiply(n - 1, cfg.cooldown(purpose));
    }
  }

  // ----- Sweeps are unobservable -----

  function WithoutSweeps(acts: seq<Action>): seq<Action> {
    if acts == [] then []
    else if acts[0].Sweep? then WithoutSweeps(acts[1..])
    else [acts[0]] + WithoutSweeps(acts[1..])
  }

  /** Everything but the table's dead rows: t's links are s's plus some expired ones. */
  ghost predicate Indistinguishable(s: State, t: State) {
    && s == t.(links := s.links)
    && (forall k :: k in s.links ==> k in t.links && t.links[k] == s.links[k])
    && (forall k :: k in t.links && k !in s.links ==> t.links[k].expiresAt < t.clock)
  }

  lemma AskIgnoresTheDead(cfg: Config, s: State, t: State, user: UserId, purpose: Purpose)
    requires SweepKeepsCooldown(cfg) && Indistinguishable(s, t) && Inv(cfg, t)
    ensures MayAsk(cfg, s, user, purpose) <==> MayAsk(cfg, t, user, purpose)
  {
  }

  lemma AskKeepsIndistinguishable(cfg: Config, s: State, t: State, user: UserId, purpose: Purpose, token: Token)
    requires SweepKeepsCooldown(cfg) && Indistinguishable(s, t) && Inv(cfg, t)
    ensures Indistinguishable(AskLink(cfg, s, user, purpose, token), AskLink(cfg, t, user, purpose, token))
  {
    AskIgnoresTheDead(cfg, s, t, user, purpose);
    assert token in t.links ==> LinkSound(cfg, t.issued, token, t.links[token]);
    assert token in t.links ==> Minted(t, token);
  }

  lemma ConfirmKeepsIndistinguishable(s: State, t: State, purpose: Purpose, token: Token)
    requires Indistinguishable(s, t)
    ensures Indistinguishable(ConfirmLink(s, purpose, token), ConfirmLink(t, purpose, token))
  {
    assert GetActive(s.links, token, purpose, s.clock) == GetActive(t.links, token, purpose, t.clock);
  }

  lemma StepKeepsIndistinguishable(cfg: Config, s: State, t: State, act: Action)
    requires SweepKeepsCooldown(cfg) && Indistinguishable(s, t) && Inv(cfg, t) && !act.Sweep?
    ensures Indistinguishable(Next(cfg, s, act), Next(cfg, t, act))
  {
    match act
    case Ask(user, purpose, token) => AskKeepsIndistinguishable(cfg, s, t, user, purpose, token);
    case Confirm(purpose, token) => ConfirmKeepsIndistinguishable(s, t, purpose, token);
    case _ =>
  }

  /**
    Deleting expired rows at any moments changes nothing anyone can see: the same links are
    issued, the same ones are redeemed, and the same addresses end up verified, as in a store
    that never deletes.
  */
  lemma {:induction false} SweepsAreUnobservable(cfg: Config, s: State, t: State, acts: seq<Action>)
    requires SweepKeepsCooldown(cfg) && Indistinguishable(s, t) && Inv(cfg, t)
    ensures Indistinguishable(Exec(cfg, s, acts), Exec(cfg, t, WithoutSweeps(acts)))
    decreases |acts|
  {
    if acts != [] {
      var rest := WithoutSweeps(acts[1..]);
      if acts[0].Sweep? {
        SweepsAreUnobservable(cfg, Next(cfg, s, Sweep), t, acts[1..]);
      } else {
        StepKeepsIndistinguishable(cfg, s, t, acts[0]);
        StepKeepsInv(cfg, t, acts[0]);
        SweepsAreUnobservable(cfg, Next(cfg, s, acts[0]), Next(cfg, t, acts[0]), acts[1..]);
        assert ([acts[0]] + rest)[1..] == rest;
      }
    }
  }

  lemma ExecStep(cfg: Config, s: State, act: Action, acts: seq<Action>)
    ensures Exec(cfg, s, [act] + acts) == Exec(cfg, Next(cfg, s, act), acts)
  {
    assert ([act] + acts)[1..] == acts;
  }

  lemma SweepFirst(acts: seq<Action>)
    ensures WithoutSweeps([Sweep] + acts) == WithoutSweeps(acts)
  {
    assert ([Sweep] + acts)[1..] == acts;
  }

  /** One link for account 0 has just expired; account 2 was sent one at that moment. */
  function Expired(cfg: Config, t0: Time, p: Purpose): State {
    var ready := Init(t0).(accounts := {0, 1, 2});
    Next(cfg, Next(cfg, Next(cfg, ready, Ask(0, p, 1)), Tick(cfg.lifetime(p) + 1)), Ask(2, p, 4))
  }

  lemma ExpiredRows(cfg: Config, t0: Time, p: Purpose)
    ensures var s := Expired(cfg, t0, p);
      && s.clock == t0 + cfg.lifetime(p) + 1 && s.accounts == {0, 1, 2} && s.verified == {} && s.redeemed == []
      && s.issued == [Issue(1, 0, p, t0), Issue(4, 2, p, s.clock)]
      && s.links.Keys == {1, 4}
      && s.links[1] == Link(0, 0, p, t0, t0 + cfg.lifetime(p), None)
      && s.links[4] == Link(1, 2, p, s.clock, s.clock + cfg.lifetime(p), None)
  {
    var ready := Init(t0).(accounts := {0, 1, 2});
    assert MayAsk(cfg, ready, 0, p) && !Minted(ready, 1);
    var asked := Next(cfg, ready, Ask(0, p, 1));
    assert asked.links.Keys == {1};
    var later := Next(cfg, asked, Tick(cfg.lifetime(p) + 1));
    assert MayAsk(cfg, later, 2, p) && !Minted(later, 4);
  }

  /** The run up to that state, and whatever follows. */
  function Prelude(cfg: Config, p: Purpose, tail: seq<Action>): seq<Action> {
    [Open(0)] + ([Open(1)] + ([Open(2)] + ([Ask(0, p, 1)] + ([Tick(cfg.lifetime(p) + 1)] + ([Ask(2, p, 4)] + tail)))))
  }

  lemma NoSweepFirst(act: Action, acts: seq<Action>)
    requires !act.Sweep?
    ensures WithoutSweeps([act] + acts) == [act] + WithoutSweeps(acts)
  {
    assert ([act] + acts)[1..] == acts;
  }

  lemma PreludeHasNoSweeps(cfg: Config, p: Purpose, tail: seq<Action>)
    ensures WithoutSweeps(Prelude(cfg, p, tail)) == Prelude(cfg, p, WithoutSweeps(tail))
  {
    var a6 := [Ask(2, p, 4)] + tail;
    var a5 := [Tick(cfg.lifetime(p) + 1)] + a6;
    var a4 := [Ask(0, p, 1)] + a5;
    NoSweepFirst(Open(0), [Open(1)] + ([Open(2)] + a4));
    NoSweepFirst(Open(1), [Open(2)] + a4);
    NoSweepFirst(Open(2), a4);
    NoSweepFirst(Ask(0, p, 1), a5);
    NoSweepFirst(Tick(cfg.lifetime(p) + 1), a6);
    NoSweepFirst(Ask(2, p, 4), tail);
  }

  lemma PreludeRuns(cfg: Config, t0: Time, p: Purpose, tail: seq<Action>)
    ensures Exec(cfg, Init(t0), Prelude(cfg, p, tail)) == Exec(cfg, Expired(cfg, t0, p), tail)
    ensures WithoutSweeps(Prelude(cfg, p, tail)) == Prelude(cfg, p, WithoutSweeps(tail))
  {
    PreludeHasNoSweeps(cfg, p, tail);
    var wait := Tick(cfg.lifetime(p) + 1);
    var a6 := [Ask(2, p, 4)] + tail;
    var a5 := [wait] + a6;
    var a4 := [Ask(0, p, 1)] + a5;
    var a3 := [Open(2)] + a4;
    var s1 := Next(cfg, Init(t0), Open(0));
    var s2 := Next(cfg, s1, Open(1));
    var s3 := Next(cfg, s2, Open(2));
    assert s3 == Init(t0).(accounts := {0, 1, 2});
    var s4 := Next(cfg, s3, Ask(0, p, 1));
    ExecStep(cfg, Init(t0), Open(0), [Open(1)] + a3);
    ExecStep(cfg, s1, Open(1), a3);
    ExecStep(cfg, s2, Open(2), a4);
    ExecStep(cfg, s3, Ask(0, p, 1), a5);
    ExecStep(cfg, s4, wait, a6);
    ExecStep(cfg, Next(cfg, s4, wait), Ask(2, p, 4), tail);
  }

  /** A second request for account 0: stopped by a store that remembers, let through by a swept one. */
  lemma SecondAsk(cfg: Config, t0: Time, p: Purpose)
    requires cfg.cooldown(p) > cfg.lifetime(p) + 1
    ensures var kept := Expired(cfg, t0, p);
      Next(cfg, kept, Ask(0, p, 2)) == kept
    ensures var kept := Expired(cfg, t0, p);
      Next(cfg, Next(cfg, kept, Sweep), Ask(0, p, 2)).issued == kept.issued + [Issue(2, 0, p, kept.clock)]
  {
    ExpiredRows(cfg, t0, p);
    var kept := Expired(cfg, t0, p);
    assert 1 in kept.links && IssuedWithin(kept.links[1], kept.clock, cfg.cooldown(p));
    assert SentRecently(kept.links, 0, p, kept.clock, cfg.cooldown(p));
    var swept := Next(cfg, kept, Sweep);
    assert swept.links.Keys == {4};
    assert MayAsk(cfg, swept, 0, p) && !Minted(swept, 2);
  }

  /** With a longer cooldown a sweep forgets the link it should be counted from, and mail goes out early. */
  lemma SweepForgetsTheCooldown(cfg: Config, t0: Time, p: Purpose) returns (acts: seq<Action>)
    requires cfg.cooldown(p) > cfg.lifetime(p) + 1
    ensures |Exec(cfg, Init(t0), acts).issued| == |Exec(cfg, Init(t0), WithoutSweeps(acts)).issued| + 1
  {
    var again := [Ask(0, p, 2)] + [];
    acts := Prelude(cfg, p, [Sweep] + again);
    var kept := Expired(cfg, t0, p);
    SecondAsk(cfg, t0, p);
    PreludeRuns(cfg, t0, p, [Sweep] + again);
    PreludeRuns(cfg, t0, p, again);
    ExecStep(cfg, kept, Sweep, again);
    ExecStep(cfg, Next(cfg, kept, Sweep), Ask(0, p, 2), []);
    ExecStep(cfg, kept, Ask(0, p, 2), []);
    SweepFirst(again);
    NoSweepFirst(Ask(0, p, 2), []);
  }

  /** So the settings decide it exactly. */
  lemma SweepsUnobservableExactlyWhen(cfg: Config, t0: Time)
    ensures (forall acts ::
               Exec(cfg, Init(t0), acts).issued == Exec(cfg, Init(t0), WithoutSweeps(acts)).issued)
       <==> SweepKeepsCooldown(cfg)
  {
    if SweepKeepsCooldown(cfg) {
      forall acts
        ensures Exec(cfg, Init(t0), acts).issued == Exec(cfg, Init(t0), WithoutSweeps(acts)).issued
      {
        SweepsAreUnobservable(cfg, Init(t0), Init(t0), acts);
      }
    } else {
      var p: Purpose :| cfg.cooldown(p) > cfg.lifetime(p) + 1;
      var acts := SweepForgetsTheCooldown(cfg, t0, p);
    }
  }

  // ----- What sweeps do to redemptions -----

  /** A redemption as the caller sees it: which link, whose, for what, when. */
  datatype Answer = Answer(token: Token, user: UserId, purpose: Purpose, at: Time)

  function Answers(redeemed: seq<Redemption>): seq<Answer> {
    seq(|redeemed|, i requires 0 <= i < |redeemed| =>
      Answer(redeemed[i].token, redeemed[i].user, redeemed[i].purpose, redeemed[i].at))
  }

  /** Token values are drawn at random: no two requests of a run carry the same one. */
  ghost predicate FreshDraws(acts: seq<Action>) {
    forall i, j :: 0 <= i < j < |acts| && acts[i].Ask? && acts[j].Ask? ==> acts[i].token != acts[j].token
  }

  ghost predicate Undrawn(s: State, acts: seq<Action>) {
    forall i :: 0 <= i < |acts| && acts[i].Ask? ==> !Minted(s, acts[i].token)
  }

  /** A cooldown matters to redemption only for links that can be redeemed at all. */
  predicate SweepKeepsRedeemable(cfg: Config) {
    forall p: Purpose :: cfg.cooldown(p) <= cfg.lifetime(p) + 1 || cfg.lifetime(p) == 0
  }

  predicate Redeemable(cfg: Config, l: Link) {
    cfg.lifetime(l.purpose) > 0
  }

  /** Two tables that agree on the links that can be redeemed, but for numbering and for expired rows t still holds. */
  ghost predicate SameRedeemable(cfg: Config, s: Links, t: Links, now: Time) {
    && (forall k :: k in s && Redeemable(cfg, s[k]) ==> k in t && t[k].(id := s[k].id) == s[k])
    && (forall k :: k in s && k in t && Redeemable(cfg, t[k]) ==> t[k].(id := s[k].id) == s[k])
    && (forall k :: k in t && k !in s && Redeemable(cfg, t[k]) ==> t[k].expiresAt < now)
  }

  ghost predicate AnswersAlike(cfg: Config, s: State, t: State) {
    && s.clock == t.clock && s.accounts == t.accounts && s.verified == t.verified
    && Answers(s.redeemed) == Answers(t.redeemed)
    && SameRedeemable(cfg, s.links, t.links, s.clock)
  }

  lemma SameAsked(cfg: Config, s: State, t: State, user: UserId, purpose: Purpose)
    requires SweepKeepsRedeemable(cfg) && AnswersAlike(cfg, s, t) && Inv(cfg, s) && Inv(cfg, t)
    requires cfg.lifetime(purpose) > 0
    ensures MayAsk(cfg, s, user, purpose) <==> MayAsk(cfg, t, user, purpose)
  {
    forall k | k in t.links && k !in s.links && Addressed(t.links[k], user, purpose)
      ensures !IssuedWithin(t.links[k], t.clock, cfg.cooldown(purpose))
    {
      assert LinkSound(cfg, t.issued, k, t.links[k]);
    }
    forall k | k in s.links && Addressed(s.links[k], user, purpose)
      ensures k in t.links && Addressed(t.links[k], user, purpose) && t.links[k].createdAt == s.links[k].createdAt
    {
      assert Redeemable(cfg, s.links[k]);
    }
    forall k | k in t.links && k in s.links && Addressed(t.links[k], user, purpose)
      ensures Addressed(s.links[k], user, purpose) && t.links[k].createdAt == s.links[k].createdAt
    {
      assert Redeemable(cfg, t.links[k]);
    }
  }

  /** Revoking the links of one address does the same to both tables. */
  lemma RevokingAlike(cfg: Config, s: Links, t: Links, user: UserId, purpose: Purpose, now: Time)
    requires SameRedeemable(cfg, s, t, now)
    ensures SameRedeemable(cfg, RevokeAllFor(s, user, purpose, now), RevokeAllFor(t, user, purpose, now), now)
  {
  }

  /** A request for a purpose whose links cannot be redeemed touches no link that can, in either table. */
  lemma DeadAskAlike(cfg: Config, s: Links, t: Links, user: UserId, purpose: Purpose, now: Time)
    requires cfg.lifetime(purpose) == 0 && SameRedeemable(cfg, s, t, now)
    ensures SameRedeemable(cfg, RevokeAllFor(s, user, purpose, now), t, now)
    ensures SameRedeemable(cfg, s, RevokeAllFor(t, user, purpose, now), now)
  {
  }

  /** A new row under a token neither table knows. */
  lemma NewRowAlike(cfg: Config, s: Links, t: Links, token: Token, l: Link, id: nat, now: Time)
    requires SameRedeemable(cfg, s, t, now) && token !in s && token !in t
    ensures SameRedeemable(cfg, s[token := l], t[token := l.(id := id)], now)
    ensures !Redeemable(cfg, l) ==> SameRedeemable(cfg, s[token := l], t, now)
    ensures !Redeemable(cfg, l) ==> SameRedeemable(cfg, s, t[token := l], now)
  {
  }

  lemma UnmintedIsUnknown(cfg: Config, s: State, token: Token)
    requires Inv(cfg, s) && !Minted(s, token)
    ensures token !in s.links
  {
    assert token in s.links ==> LinkSound(cfg, s.issued, token, s.links[token]);
  }

  function NewLink(cfg: Config, s: State, user: UserId, purpose: Purpose): Link {
    Link(|s.issued|, user, purpose, s.clock, s.clock + cfg.lifetime(purpose), None)
  }

  /** Such a request may be answered by one store and not by the other. */
  lemma DeadAskLeft(cfg: Config, s: State, t: State, user: UserId, purpose: Purpose, token: Token)
    requires AnswersAlike(cfg, s, t) && cfg.lifetime(purpose) == 0 && token !in s.links && token !in t.links
    ensures AnswersAlike(cfg, AskLink(cfg, s, user, purpose, token), t)
  {
    DeadAskAlike(cfg, s.links, t.links, user, purpose, s.clock);
    NewRowAlike(cfg, RevokeAllFor(s.links, user, purpose, s.clock), t.links, token, NewLink(cfg, s, user, purpose), 0, s.clock);
  }

  lemma DeadAskRight(cfg: Config, s: State, t: State, user: UserId, purpose: Purpose, token: Token)
    requires AnswersAlike(cfg, s, t) && cfg.lifetime(purpose) == 0 && token !in s.links && token !in t.links
    ensures AnswersAlike(cfg, s, AskLink(cfg, t, user, purpose, token))
  {
    DeadAskAlike(cfg, s.links, t.links, user, purpose, s.clock);
    NewRowAlike(cfg, s.links, RevokeAllFor(t.links, user, purpose, s.clock), token, NewLink(cfg, t, user, purpose), 0, s.clock);
  }

  lemma AskedBothAlike(cfg: Config, s: State, t: State, user: UserId, purpose: Purpose, token: Token)
    requires AnswersAlike(cfg, s, t) && token !in s.links && token !in t.links
    requires !Minted(s, token) && !Minted(t, token) && MayAsk(cfg, s, user, purpose) && MayAsk(cfg, t, user, purpose)
    ensures AnswersAlike(cfg, AskLink(cfg, s, user, purpose, token), AskLink(cfg, t, user, purpose, token))
  {
    RevokingAlike(cfg, s.links, t.links, user, purpose, s.clock);
    NewRowAlike(cfg, RevokeAllFor(s.links, user, purpose, s.clock), RevokeAllFor(t.links, user, purpose, s.clock), token,
                NewLink(cfg, s, user, purpose), |t.issued|, s.clock);
  }

  lemma AskAlike(cfg: Config, s: State, t: State, user: UserId, purpose: Purpose, token: Token)
    requires SweepKeepsRedeemable(cfg) && AnswersAlike(cfg, s, t) && Inv(cfg, s) && Inv(cfg, t)
    requires !Minted(s, token) && !Minted(t, token)
    ensures AnswersAlike(cfg, AskLink(cfg, s, user, purpose, token), AskLink(cfg, t, user, purpose, token))
  {
    UnmintedIsUnknown(cfg, s, token);
    UnmintedIsUnknown(cfg, t, token);
    if cfg.lifetime(purpose) > 0 {
      SameAsked(cfg, s, t, user, purpose);
    }
    if MayAsk(cfg, s, user, purpose) && MayAsk(cfg, t, user, purpose) {
      AskedBothAlike(cfg, s, t, user, purpose, token);
    } else if MayAsk(cfg, s, user, purpose) {
      DeadAskLeft(cfg, s, t, user, purpose, token);
    } else if MayAsk(cfg, t, user, purpose) {
      DeadAskRight(cfg, s, t, user, purpose, token);
    }
  }

  /** A link of a purpose without a lifetime is never active. */
  lemma NeverActive(cfg: Config, s: State, token: Token, purpose: Purpose)
    requires Inv(cfg, s) && cfg.lifetime(purpose) == 0
    ensures GetActive(s.links, token, purpose, s.clock).None?
  {
    if token in s.links {
      assert LinkSound(cfg, s.issued, token, s.links[token]);
    }
  }

  lemma SpendingAlike(cfg: Config, s: Links, t: Links, token: Token, now: Time)
    requires SameRedeemable(cfg, s, t, now) && token in s && token in t && Redeemable(cfg, s[token])
    ensures SameRedeemable(cfg, Spend(s, token, s[token], now), Spend(t, token, t[token], now), now)
  {
    var a, b := MarkUsed(s, token, now), MarkUsed(t, token, now);
    assert SameRedeemable(cfg, a, b, now);
    RevokingAlike(cfg, a, b, s[token].user, s[token].purpose, now);
  }

  lemma ActiveInBoth(cfg: Config, s: State, t: State, purpose: Purpose, token: Token)
    requires AnswersAlike(cfg, s, t) && cfg.lifetime(purpose) > 0
    ensures var a, b := GetActive(s.links, token, purpose, s.clock), GetActive(t.links, token, purpose, t.clock);
      && (a.Some? <==> b.Some?)
      && (a.Some? ==> b.value.(id := a.value.id) == a.value)
  {
    if token in s.links && s.links[token].purpose == purpose {
      assert Redeemable(cfg, s.links[token]);
    }
    if token in t.links && t.links[token].purpose == purpose {
      assert Redeemable(cfg, t.links[token]);
    }
  }

  lemma ConfirmAlike(cfg: Config, s: State, t: State, purpose: Purpose, token: Token)
    requires AnswersAlike(cfg, s, t) && Inv(cfg, s) && Inv(cfg, t)
    ensures AnswersAlike(cfg, ConfirmLink(s, purpose, token), ConfirmLink(t, purpose, token))
  {
    if cfg.lifetime(purpose) == 0 {
      NeverActive(cfg, s, token, purpose);
      NeverActive(cfg, t, token, purpose);
    } else {
      ActiveInBoth(cfg, s, t, purpose, token);
      var found := GetActive(s.links, token, purpose, s.clock);
      if found.Some? && found.value.user in s.accounts {
        SpendingAlike(cfg, s.links, t.links, token, s.clock);
        var a, b := ConfirmLink(s, purpose, token).redeemed, ConfirmLink(t, purpose, token).redeemed;
        var answer := Answer(token, found.value.user, purpose, s.clock);
        assert Answers(a) == Answers(s.redeemed) + [answer] && Answers(b) == Answers(t.redeemed) + [answer];
      }
    }
  }

  lemma StepAlike(cfg: Config, s: State, t: State, act: Action)
    requires SweepKeepsRedeemable(cfg) && AnswersAlike(cfg, s, t) && Inv(cfg, s) && Inv(cfg, t) && !act.Sweep?
    requires act.Ask? ==> !Minted(s, act.token) && !Minted(t, act.token)
    ensures AnswersAlike(cfg, Next(cfg, s, act), Next(cfg, t, act))
  {
    match act
    case Ask(user, purpose, token) => AskAlike(cfg, s, t, user, purpose, token);
    case Confirm(purpose, token) => ConfirmAlike(cfg, s, t, purpose, token);
    case _ =>
  }

  lemma SweepAlike(cfg: Config, s: State, t: State)
    requires AnswersAlike(cfg, s, t)
    ensures AnswersAlike(cfg, Next(cfg, s, Sweep), t)
  {
  }

  lemma StepLeavesUndrawn(cfg: Config, s: State, acts: seq<Action>)
    requires acts != [] && FreshDraws(acts) && Undrawn(s, acts)
    ensures FreshDraws(acts[1..]) && Undrawn(s, acts[1..]) && Undrawn(Next(cfg, s, acts[0]), acts[1..])
  {
    var t := Next(cfg, s, acts[0]);
    assert t.issued == s.issued || (acts[0].Ask? && |t.issued| == |s.issued| + 1 && t.issued[..|s.issued|] == s.issued
                                    && t.issued[|s.issued|].token == acts[0].token);
    forall i | 0 <= i < |acts[1..]| && acts[1..][i].Ask?
      ensures !Minted(s, acts[1..][i].token) && !Minted(t, acts[1..][i].token)
    {
      assert acts[1..][i] == acts[i + 1];
    }
  }

  /** As long as the cooldown of every redeemable purpose is covered, callers get the same answers, swept or not. */
  lemma {:induction false} RedemptionsAlike(cfg: Config, s: State, t: State, acts: seq<Action>)
    requires SweepKeepsRedeemable(cfg) && AnswersAlike(cfg, s, t) && Inv(cfg, s) && Inv(cfg, t)
    requires FreshDraws(acts) && Undrawn(s, acts) && Undrawn(t, acts)
    ensures Answers(Exec(cfg, s, acts).redeemed) == Answers(Exec(cfg, t, WithoutSweeps(acts)).redeemed)
    decreases |acts|
  {
    if acts != [] {
      var rest := WithoutSweeps(acts[1..]);
      StepKeepsInv(cfg, s, acts[0]);
      StepLeavesUndrawn(cfg, s, acts);
      StepLeavesUndrawn(cfg, t, acts);
      if acts[0].Sweep? {
        SweepAlike(cfg, s, t);
        RedemptionsAlike(cfg, Next(cfg, s, Sweep), t, acts[1..]);
      } else {
        StepAlike(cfg, s, t, acts[0]);
        StepKeepsInv(cfg, t, acts[0]);
        RedemptionsAlike(cfg, Next(cfg, s, acts[0]), Next(cfg, t, acts[0]), acts[1..]);
        assert ([acts[0]] + rest)[1..] == rest;
      }
    }
  }

  /** The second link, once let out early, can be redeemed; the store that remembers never issued it. */
  lemma EarlyLinkRedeems(cfg: Config, t0: Time, p: Purpose)
    requires cfg.cooldown(p) > cfg.lifetime(p) + 1 && cfg.lifetime(p) > 0
    ensures var kept := Expired(cfg, t0, p);
      && Next(cfg, kept, Confirm(p, 2)).redeemed == []
      && |Next(cfg, Next(cfg, Next(cfg, kept, Sweep), Ask(0, p, 2)), Confirm(p, 2)).redeemed| == 1
  {
    ExpiredRows(cfg, t0, p);
    SecondAsk(cfg, t0, p);
    var kept := Expired(cfg, t0, p);
    var swept := Next(cfg, kept, Sweep);
    var early := Next(cfg, swept, Ask(0, p, 2));
    assert 2 !in kept.links;
    assert |early.issued| == |swept.issued| + 1;
    assert 2 in early.links && early.links[2] == NewLink(cfg, swept, 0, p);
    assert GetActive(early.links, 2, p, early.clock).Some?;
  }

  lemma PreludeDrawsFresh(cfg: Config, p: Purpose)
    ensures FreshDraws(Prelude(cfg, p, [Sweep] + ([Ask(0, p, 2)] + ([Confirm(p, 2)] + []))))
  {
    var acts := Prelude(cfg, p, [Sweep] + ([Ask(0, p, 2)] + ([Confirm(p, 2)] + [])));
    assert |acts| == 9;
    assert forall i :: 0 <= i < 9 && acts[i].Ask? ==> i == 3 || i == 5 || i == 7;
    assert acts[3].token == 1 && acts[5].token == 4 && acts[7].token == 2;
  }

  lemma SweepLetsARedemptionThrough(cfg: Config, t0: Time, p: Purpose) returns (acts: seq<Action>)
    requires cfg.cooldown(p) > cfg.lifetime(p) + 1 && cfg.lifetime(p) > 0
    ensures FreshDraws(acts)
    ensures |Exec(cfg, Init(t0), acts).redeemed| == 1 && Exec(cfg, Init(t0), WithoutSweeps(acts)).redeemed == []
  {
    var kept := Expired(cfg, t0, p);
    var swept := Next(cfg, kept, Sweep);
    var confirm := [Confirm(p, 2)] + [];
    var tail := [Ask(0, p, 2)] + confirm;
    acts := Prelude(cfg, p, [Sweep] + tail);
    PreludeRuns(cfg, t0, p, [Sweep] + tail);
    PreludeRuns(cfg, t0, p, tail);
    ExecStep(cfg, kept, Sweep, tail);
    ExecStep(cfg, swept, Ask(0, p, 2), confirm);
    ExecStep(cfg, Next(cfg, swept, Ask(0, p, 2)), Confirm(p, 2), []);
    ExecStep(cfg, kept, Ask(0, p, 2), confirm);
    ExecStep(cfg, kept, Confirm(p, 2), []);
    SweepFirst(tail);
    NoSweepFirst(Ask(0, p, 2), confirm);
    NoSweepFirst(Confirm(p, 2), []);
    SecondAsk(cfg, t0, p);
    EarlyLinkRedeems(cfg, t0, p);
    PreludeDrawsFresh(cfg, p);
  }

  /**
    Sweeps change no answer to a confirmation, in any run that never draws a token twice, if and
    only if the cooldown of every purpose whose links live at all is at most a microsecond longer
    than they do.
  */
  lemma RedemptionsUnobservableExactlyWhen(cfg: Config, t0: Time)
    ensures (forall acts :: FreshDraws(acts) ==>
               Answers(Exec(cfg, Init(t0), acts).redeemed) == Answers(Exec(cfg, Init(t0), WithoutSweeps(acts)).redeemed))
       <==> SweepKeepsRedeemable(cfg)
  {
    if SweepKeepsRedeemable(cfg) {
      forall acts | FreshDraws(acts)
        ensures Answers(Exec(cfg, Init(t0), acts).redeemed) == Answers(Exec(cfg, Init(t0), WithoutSweeps(acts)).redeemed)
      {
        RedemptionsAlike(cfg, Init(t0), Init(t0), acts);
      }
    } else {
      var p: Purpose :| cfg.cooldown(p) > cfg.lifetime(p) + 1 && cfg.lifetime(p) > 0;
      var acts := SweepLetsARedemptionThrough(cfg, t0, p);
      assert |Answers(Exec(cfg, Init(t0), acts).redeemed)| == 1;
      assert |Answers(Exec(cfg, Init(t0), WithoutSweeps(acts)).redeemed)| == 0;
    }
  }

  // ----- The services, in place -----

  class LinkService {
    var clock: Time
    var accounts: set<UserId>
    var verified: set<UserId>
    var links: Links
    var issued: seq<Issue>
    var redeemed: seq<Redemption>
    const cfg: Config

    ghost function View(): State
      reads this
    {
      State(clock, accounts, verified, links, issued, redeemed)
    }

    constructor (cfg: Config, now: Time)
      ensures View() == Init(now) && this.cfg == cfg
    {
      clock, accounts, verified, links, issued, redeemed := now, {}, {}, map[], [], [];
      this.cfg := cfg;
    }

    /** Nothing if one went out recently; otherwise revoke, then create. */
    method IssueLink(user: UserId, purpose: Purpose, token: Token) returns (sent: bool)
      requires user in accounts && !Minted(View(), token)
      requires purpose == EmailVerification ==> user !in verified
      modifies this
      ensures View() == Next(cfg, old(View()), Ask(user, purpose, token))
      ensures sent <==> |issued| == |old(issued)| + 1
    {
      if SentRecently(links, user, purpose, clock, cfg.cooldown(purpose)) {
        return false;
      }
      links := RevokeAllFor(links, user, purpose, clock);
      links := links[token := Link(|issued|, user, purpose, clock, clock + cfg.lifetime(purpose), None)];
      issued := issued + [Issue(token, user, purpose, clock)];
      return true;
    }

    /** Spend the link, and with a reset everything else of its purpose. */
    method ConfirmToken(purpose: Purpose, token: Token) returns (user: Option<UserId>)
      modifies this
      ensures View() == Next(cfg, old(View()), Confirm(purpose, token))
      ensures user.Some? <==> |redeemed| == |old(redeemed)| + 1
    {
      var stored := GetActive(links, token, purpose, clock);
      if stored.None? || stored.value.user !in accounts {
        return None;
      }
      var l := stored.value;
      links := MarkUsed(links, token, clock);
      if purpose == PasswordReset {
        links := RevokeAllFor(links, l.user, purpose, clock);
      } else if l.user !in verified {
        verified := verified + {l.user};
      }
      redeemed := redeemed + [Redemption(l.id, token, l.user, purpose, clock, |issued|)];
      return Some(l.user);
    }

    method ExpireTokens()
      modifies this
      ensures View() == Next(cfg, old(View()), Sweep)
    {
      links := DeleteExpired(links, clock);
    }
  }
}
