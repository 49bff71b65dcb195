/**
  Any number of keyed calls against one table, interleaved.  A claim is three separate
  transactions-worth of steps (look, insert, look again), because two calls that both see
  no row must still not both run.  Resolving a row that was found is one step.

  A run is a list of actions; an action that does not apply leaves the state alone, so
  every list is a run.  The one hypothesis is `Timely`: a call that is running its route
  finishes, or dies, before its claim is older than the in-flight timeout.
*/
module IdempotencyRuns {
  import opened Common
  import opened Fingerprint
  import opened IdempotencyStore

  const MAX_STORED_BODY_BYTES := 65536
  const JSON_CONTENT_TYPE := "application/json"

  /** A finished response.  `text` is its body decoded as UTF-8, if it can be. */
  datatype Captured = Captured(status: int, size: nat, text: Option<string>, contentType: Option<string>)

  predicate Storable(c: Captured) {
    && 200 <= c.status < 300
    && c.size <= MAX_STORED_BODY_BYTES
    && (c.size == 0 || (c.contentType.Some? && JSON_CONTENT_TYPE <= c.contentType.value))
  }

  datatype Config = Config(timeout: nat, retention: nat)

  /**
    Where one call stands.  `since` is when its claim's transaction began, which is what the
    database stamps on the row it inserts.
  */
  datatype Phase =
    | Inserting(attempt: Attempt, since: Time)
    | Rereading(attempt: Attempt)
    | Running(attempt: Attempt, startedAt: Time)
    | Answered(attempt: Attempt, claim: Claim)
    | Ended(attempt: Attempt)

  datatype State = State(clock: Time, rows: Table, calls: map<nat, Phase>)

  datatype Action =
    | Tick(elapsed: nat)
    | Arrive(id: nat, attempt: Attempt)
    | Insert(id: nat)
    | Reread(id: nat)
    | Respond(id: nat, captured: Captured)
    | Raise(id: nat)
    | Die(id: nat)
    | Prune(chosen: set<RowKey>)

  function Init(now: Time): State {
    State(now, map[], map[])
  }

  function ResolveCall(cfg: Config, s: State, id: nat, a: Attempt): State
    requires KeyOf(a) in s.rows
  {
    var (e, c) := Resolve(s.rows[KeyOf(a)], Preimage(a), s.clock, cfg.timeout);
    s.(rows := s.rows[KeyOf(a) := e],
       calls := s.calls[id := if c.Fresh? then Running(a, s.clock) else Answered(a, c)])
  }

  function ArriveCall(cfg: Config, s: State, id: nat, a: Attempt): State {
    if id in s.calls then s
    else if KeyOf(a) in s.rows then ResolveCall(cfg, s, id, a)
    else s.(calls := s.calls[id := Inserting(a, s.clock)])
  }

  function InsertCall(s: State, id: nat): State {
    if id !in s.calls || !s.calls[id].Inserting? then s
    else
      var Inserting(a, since) := s.calls[id];
      if KeyOf(a) in s.rows then s.(calls := s.calls[id := Rereading(a)])
      else s.(rows := s.rows[KeyOf(a) := Claimed(Preimage(a), since)],
              calls := s.calls[id := Running(a, since)])
  }

  function RereadCall(cfg: Config, s: State, id: nat): State {
    if id !in s.calls || !s.calls[id].Rereading? then s
    else
      var a := s.calls[id].attempt;
      if KeyOf(a) in s.rows then ResolveCall(cfg, s, id, a)
      else s.(calls := s.calls[id := Answered(a, InFlight)])
  }

  /** The route returned or raised: remember the answer, or forget the key. */
  function FinishCall(s: State, id: nat, answer: Option<Captured>): State {
    if id !in s.calls || !s.calls[id].Running? then s
    else
      var a := s.calls[id].attempt;
      var ended := s.(calls := s.calls[id := Ended(a)]);
      if answer.None? || !Storable(answer.value) then ended.(rows := ReleaseRow(s.rows, KeyOf(a)))
      else if answer.value.text.None? then ended
      else
        var r := StoredResponse(answer.value.status, answer.value.text.value, answer.value.contentType);
        ended.(rows := CompleteRow(s.rows, KeyOf(a), r, s.clock))
  }

  /** The process dies, or its last write to the table fails: nothing is stored or released. */
  function DieCall(s: State, id: nat): State {
    if id !in s.calls || !s.calls[id].Running? then s
    else s.(calls := s.calls[id := Ended(s.calls[id].attempt)])
  }

  function Next(cfg: Config, s: State, act: Action): State {
    match act
    case Tick(elapsed) => s.(clock := s.clock + elapsed)
    case Arrive(id, a) => ArriveCall(cfg, s, id, a)
    case Insert(id) => InsertCall(s, id)
    case Reread(id) => RereadCall(cfg, s, id)
    case Respond(id, captured) => FinishCall(s, id, Some(captured))
    case Raise(id) => FinishCall(s, id, None)
    case Die(id) => DieCall(s, id)
    case Prune(chosen) => s.(rows := PruneRows(s.rows, chosen, s.clock, cfg.retention))
  }

  function Exec(cfg: Config, s: State, acts: seq<Action>): State
    decreases |acts|
  {
    if acts == [] then s else Exec(cfg, Next(cfg, s, acts[0]), acts[1..])
  }

  predicate IsRunner(s: State, id: nat, k: RowKey) {
    id in s.calls && s.calls[id].Running? && KeyOf(s.calls[id].attempt) == k
  }

  ghost predicate Timely(cfg: Config, s: State) {
    forall id :: id in s.calls && s.calls[id].Running? ==> s.clock - s.calls[id].startedAt <= cfg.timeout
  }

  ghost predicate TimelyRun(cfg: Config, s: State, acts: seq<Action>)
    decreases |acts|
  {
    Timely(cfg, s) && (acts != [] ==> TimelyRun(cfg, Next(cfg, s, acts[0]), acts[1..]))
  }

  ghost predicate AtMostOneRunner(s: State) {
    forall i, j, k :: IsRunner(s, i, k) && IsRunner(s, j, k) ==> i == j
  }

  /** A runner's row is there, unfinished, and carries that runner's fingerprint and start. */
  ghost predicate RunnersOwnTheirRows(s: State) {
    forall id :: id in s.calls && s.calls[id].Running? ==>
      var Running(a, at) := s.calls[id];
      KeyOf(a) in s.rows && s.rows[KeyOf(a)] == Claimed(Preimage(a), at)
  }

  /** Only successes are ever stored. */
  ghost predicate OnlySuccessesStored(s: State) {
    forall k :: k in s.rows && !Unfinished(s.rows[k]) ==> 200 <= s.rows[k].status.value < 300
  }

  ghost predicate Inv(s: State) {
    AtMostOneRunner(s) && RunnersOwnTheirRows(s) && OnlySuccessesStored(s)
  }

  lemma ResolveKeepsInv(cfg: Config, s: State, id: nat, a: Attempt)
    requires Inv(s) && Timely(cfg, s)
    requires KeyOf(a) in s.rows
    requires id in s.calls ==> !s.calls[id].Running?
    ensures Inv(ResolveCall(cfg, s, id, a))
  {
    var t := ResolveCall(cfg, s, id, a);
    forall i, k | IsRunner(t, i, k) && i != id
      ensures IsRunner(s, i, k)
      ensures IsRunner(t, id, k) ==> k != KeyOf(a)
    {
    }
  }

  lemma FinishKeepsInv(s: State, id: nat, answer: Option<Captured>)
    requires Inv(s)
    ensures Inv(FinishCall(s, id, answer))
  {
    var t := FinishCall(s, id, answer);
    assert forall i, k :: IsRunner(t, i, k) ==> IsRunner(s, i, k);
    if id in s.calls && s.calls[id].Running? {
      assert IsRunner(s, id, KeyOf(s.calls[id].attempt));
      assert forall i, k :: IsRunner(t, i, k) ==> k != KeyOf(s.calls[id].attempt);
      forall i | i in t.calls && t.calls[i].Running?
        ensures KeyOf(t.calls[i].attempt) in t.rows
        ensures t.rows[KeyOf(t.calls[i].attempt)] == Claimed(Preimage(t.calls[i].attempt), t.calls[i].startedAt)
      {
        assert IsRunner(t, i, KeyOf(t.calls[i].attempt));
      }
    }
  }

  lemma InsertKeepsInv(s: State, id: nat)
    requires Inv(s)
    ensures Inv(InsertCall(s, id))
  {
    var t := InsertCall(s, id);
    assert forall i, k :: IsRunner(t, i, k) && i != id ==> IsRunner(s, i, k);
    assert forall i, k :: IsRunner(s, i, k) ==> k in s.rows;
  }

  /** A step that starts no runner and leaves the rows of those there are keeps the invariant. */
  lemma QuietStepKeepsInv(s: State, t: State)
    requires Inv(s)
    requires forall i :: i in t.calls && t.calls[i].Running? ==> i in s.calls && s.calls[i] == t.calls[i]
    requires forall k :: k in t.rows ==> k in s.rows && t.rows[k] == s.rows[k]
    requires forall i :: i in t.calls && t.calls[i].Running? ==> KeyOf(t.calls[i].attempt) in t.rows
    ensures Inv(t)
  {
    assert forall i, k :: IsRunner(t, i, k) ==> IsRunner(s, i, k);
  }

  lemma StepKeepsInv(cfg: Config, s: State, act: Action)
    requires cfg.timeout <= cfg.retention
    requires Inv(s) && Timely(cfg, s)
    ensures Inv(Next(cfg, s, act))
  {
    match act
    case Arrive(id, a) =>
      if id !in s.calls && KeyOf(a) in s.rows {
        ResolveKeepsInv(cfg, s, id, a);
      } else {
        QuietStepKeepsInv(s, Next(cfg, s, act));
      }
    case Insert(id) => InsertKeepsInv(s, id);
    case Reread(id) =>
      if id in s.calls && s.calls[id].Rereading? && KeyOf(s.calls[id].attempt) in s.rows {
        ResolveKeepsInv(cfg, s, id, s.calls[id].attempt);
      } else {
        QuietStepKeepsInv(s, Next(cfg, s, act));
      }
    case Respond(id, captured) => FinishKeepsInv(s, id, Some(captured));
    case Raise(id) => FinishKeepsInv(s, id, None);
    case _ => QuietStepKeepsInv(s, Next(cfg, s, act));
  }

  /** Safety over whole runs: at most one call per (user, key) runs the route, and it owns its row. */
  lemma {:induction false} RunKeepsInv(cfg: Config, s: State, acts: seq<Action>)
    requires cfg.timeout <= cfg.retention
    requires Inv(s) && TimelyRun(cfg, s, acts)
    ensures Inv(Exec(cfg, s, acts)) && Timely(cfg, Exec(cfg, s, acts))
    decreases |acts|
  {
    if acts != [] {
      StepKeepsInv(cfg, s, acts[0]);
      RunKeepsInv(cfg, Next(cfg, s, acts[0]), acts[1..]);
    }
  }

  // ----- What a stored answer guarantees -----

  predicate PrunesKey(cfg: Config, s: State, act: Action, k: RowKey) {
    act.Prune? && k in act.chosen && k in s.rows && PastRetention(s.rows[k], s.clock, cfg.retention)
  }

  /** Which is to say: the step is a prune that takes the row away. */
  lemma PrunedExactlyWhen(cfg: Config, s: State, chosen: set<RowKey>, k: RowKey)
    requires k in s.rows
    ensures PrunesKey(cfg, s, Prune(chosen), k) <==> k !in Next(cfg, s, Prune(chosen)).rows
    ensures k !in Next(cfg, s, Prune(chosen)).rows <==> k in chosen && s.rows[k].createdAt < s.clock - cfg.retention
    ensures forall other :: other in Next(cfg, s, Prune(chosen)).rows ==> other in s.rows
  {
  }

  ghost predicate NeverPrunes(cfg: Config, s: State, acts: seq<Action>, k: RowKey)
    decreases |acts|
  {
    acts != [] ==> !PrunesKey(cfg, s, acts[0], k) && NeverPrunes(cfg, Next(cfg, s, acts[0]), acts[1..], k)
  }

  /** The one answer a finished row gives: the stored response to its own request, a refusal to any other. */
  function AnswerOf(e: Entry, a: Attempt): Claim
    requires !Unfinished(e)
  {
    if e.hash == Preimage(a) then Replay(StoredAnswer(e)) else Mismatch
  }

  predicate HasAnswer(s: State, id: nat) {
    id in s.calls && s.calls[id].Answered?
  }

  /** Between s and t, the key's row stood still, nobody ran its route, and every new answer is the stored one. */
  ghost predicate OnlyReplayed(s: State, t: State, k: RowKey) {
    && k in s.rows && !Unfinished(s.rows[k])
    && k in t.rows && t.rows[k] == s.rows[k]
    && (forall id :: !IsRunner(t, id, k))
    && (forall id :: HasAnswer(s, id) ==> HasAnswer(t, id) && t.calls[id] == s.calls[id])
    && (forall id :: HasAnswer(t, id) && !HasAnswer(s, id) && KeyOf(t.calls[id].attempt) == k ==>
          t.calls[id].claim == AnswerOf(s.rows[k], t.calls[id].attempt))
  }

  lemma ResolveOnlyReplays(cfg: Config, s: State, id: nat, a: Attempt, k: RowKey)
    requires Inv(s) && KeyOf(a) in s.rows && !HasAnswer(s, id)
    requires k in s.rows && !Unfinished(s.rows[k])
    ensures OnlyReplayed(s, ResolveCall(cfg, s, id, a), k)
  {
  }

  lemma FinishOnlyReplays(s: State, id: nat, answer: Option<Captured>, k: RowKey)
    requires Inv(s)
    requires k in s.rows && !Unfinished(s.rows[k])
    ensures OnlyReplayed(s, FinishCall(s, id, answer), k)
  {
  }

  lemma StepOnlyReplays(cfg: Config, s: State, act: Action, k: RowKey)
    requires Inv(s)
    requires k in s.rows && !Unfinished(s.rows[k]) && !PrunesKey(cfg, s, act, k)
    ensures OnlyReplayed(s, Next(cfg, s, act), k)
  {
    assert forall id :: !IsRunner(s, id, k);
    match act
    case Arrive(id, a) =>
      if id !in s.calls && KeyOf(a) in s.rows {
        ResolveOnlyReplays(cfg, s, id, a, k);
      }
    case Reread(id) =>
      if id in s.calls && s.calls[id].Rereading? && KeyOf(s.calls[id].attempt) in s.rows {
        ResolveOnlyReplays(cfg, s, id, s.calls[id].attempt, k);
      }
    case Respond(id, captured) =>
      FinishOnlyReplays(s, id, Some(captured), k);
    case Raise(id) =>
      FinishOnlyReplays(s, id, None, k);
    case _ =>
  }

  /**
    Once an answer is stored under a key, no later call with that key runs the route until
    the row is pruned: the stored request is answered with exactly the stored response and
    any other request is refused, whatever else is interleaved.
  */
  lemma {:induction false} StoredAnswerSettlesTheKey(cfg: Config, s: State, acts: seq<Action>, k: RowKey)
    requires cfg.timeout <= cfg.retention
    requires Inv(s) && TimelyRun(cfg, s, acts) && NeverPrunes(cfg, s, acts, k)
    requires k in s.rows && !Unfinished(s.rows[k])
    ensures OnlyReplayed(s, Exec(cfg, s, acts), k)
    decreases |acts|
  {
    if acts == [] {
      assert forall id :: !IsRunner(s, id, k);
    } else {
      var s' := Next(cfg, s, acts[0]);
      StepOnlyReplays(cfg, s, acts[0], k);
      StepKeepsInv(cfg, s, acts[0]);
      StoredAnswerSettlesTheKey(cfg, s', acts[1..], k);
      var t := Exec(cfg, s', acts[1..]);
      forall id | HasAnswer(t, id) && !HasAnswer(s, id) && KeyOf(t.calls[id].attempt) == k
        ensures t.calls[id].claim == AnswerOf(s.rows[k], t.calls[id].attempt)
      {
        if HasAnswer(s', id) {
          assert t.calls[id] == s'.calls[id];
        }
      }
    }
  }

  predicate SameKey(b: Attempt, a: Attempt) {
    KeyOf(b) == KeyOf(a) && NulFreeHead(b)
  }

  /** What a call `b` sharing its key with `a` should hear once `a` was answered with `captured`. */
  function ExpectedAnswer(a: Attempt, captured: Captured, b: Attempt): Claim
    requires captured.text.Some?
  {
    if SameRequest(a, b)
    then Replay(StoredResponse(captured.status, captured.text.value, captured.contentType))
    else Mismatch
  }

  /** Which answers are kept: a success, small enough, empty or JSON; one whose body is not text stays unfinished. */
  lemma WhichAnswersAreKept(cfg: Config, s: State, id: nat, c: Captured, later: Time)
    requires Inv(s) && id in s.calls && s.calls[id].Running?
    ensures var a := s.calls[id].attempt;
      var kept := 200 <= c.status < 300 && c.size <= 65536
                  && (c.size == 0 || (c.contentType.Some? && "application/json" <= c.contentType.value));
      var t := Next(cfg, s, Respond(id, c));
      && t.calls[id] == Ended(a)
      && (kept && c.text.Some? ==>
            SoloClaim(t.rows, a, later, cfg.timeout) == (t.rows, Replay(StoredResponse(c.status, c.text.value, c.contentType))))
      && (kept && c.text.None? ==> t.rows == s.rows)
      && (!kept ==> t.rows == s.rows - {KeyOf(a)} && SoloClaim(t.rows, a, later, cfg.timeout).1 == Fresh)
  {
    var a := s.calls[id].attempt;
    var rows := Next(cfg, s, Respond(id, c)).rows;
    if KeyOf(a) in rows {
      assert rows[KeyOf(a) := rows[KeyOf(a)]] == rows;
    }
  }

  /** A route that raises forgets the key, and the next call may try again; one that dies leaves its claim behind. */
  lemma FailuresAreNotKept(cfg: Config, s: State, id: nat, later: Time)
    requires Inv(s) && id in s.calls && s.calls[id].Running?
    ensures var a := s.calls[id].attempt;
      && Next(cfg, s, Raise(id)) == s.(rows := s.rows - {KeyOf(a)}, calls := s.calls[id := Ended(a)])
      && SoloClaim(Next(cfg, s, Raise(id)).rows, a, later, cfg.timeout).1 == Fresh
      && Next(cfg, s, Die(id)) == s.(calls := s.calls[id := Ended(a)])
  {
  }

  /**
    The whole story of one key, from an empty table: some call ran the route and succeeded
    with no body or a JSON one of at most 64 KiB; from then on every other call with the key gets that status,
    body and content type if it sent the same method, path and body, and MISMATCH if not.
  */
  lemma ExactlyOnce(cfg: Config, t0: Time, before: seq<Action>, id: nat, captured: Captured, after: seq<Action>)
    requires cfg.timeout <= cfg.retention
    requires TimelyRun(cfg, Init(t0), before)
    requires var s := Exec(cfg, Init(t0), before);
      && id in s.calls && s.calls[id].Running? && NulFreeHead(s.calls[id].attempt)
      && 200 <= captured.status < 300 && captured.size <= 65536 && captured.text.Some?
      && (captured.size == 0 || (captured.contentType.Some? && "application/json" <= captured.contentType.value))
      && TimelyRun(cfg, Next(cfg, s, Respond(id, captured)), after)
      && NeverPrunes(cfg, Next(cfg, s, Respond(id, captured)), after, KeyOf(s.calls[id].attempt))
    ensures var s := Exec(cfg, Init(t0), before);
      var a := s.calls[id].attempt;
      var done := Next(cfg, s, Respond(id, captured));
      var end := Exec(cfg, done, after);
      && (forall j :: !IsRunner(end, j, KeyOf(a)))
      && (forall j :: HasAnswer(end, j) && !HasAnswer(done, j) && SameKey(end.calls[j].attempt, a) ==>
            end.calls[j].claim == ExpectedAnswer(a, captured, end.calls[j].attempt))
  {
    RunKeepsInv(cfg, Init(t0), before);
    var s := Exec(cfg, Init(t0), before);
    var a := s.calls[id].attempt;
    var done := Next(cfg, s, Respond(id, captured));
    StepKeepsInv(cfg, s, Respond(id, captured));
    StoredAnswerSettlesTheKey(cfg, done, after, KeyOf(a));
    var end := Exec(cfg, done, after);
    forall j | HasAnswer(end, j) && !HasAnswer(done, j) && SameKey(end.calls[j].attempt, a)
      ensures end.calls[j].claim == ExpectedAnswer(a, captured, end.calls[j].attempt)
    {
      FingerprintIdentifiesRequest(a, end.calls[j].attempt);
    }
  }

  /** A claim whose three steps run back to back is the service's own sequential claim. */
  lemma UninterruptedClaim(cfg: Config, s: State, id: nat, a: Attempt)
    requires id !in s.calls
    ensures var t := Exec(cfg, s, [Arrive(id, a), Insert(id), Reread(id)]);
      var (rows, c) := SoloClaim(s.rows, a, s.clock, cfg.timeout);
      t == s.(rows := rows, calls := s.calls[id := if c.Fresh? then Running(a, s.clock) else Answered(a, c)])
  {
    var acts := [Arrive(id, a), Insert(id), Reread(id)];
    var s1 := Next(cfg, s, acts[0]);
    var s2 := Next(cfg, s1, Insert(id));
    var s3 := Next(cfg, s2, Reread(id));
    assert acts[1..] == [Insert(id), Reread(id)] && acts[1..][1..] == [Reread(id)] && acts[1..][1..][1..] == [];
    assert Exec(cfg, s, acts) == Exec(cfg, s1, acts[1..]) == Exec(cfg, s2, acts[1..][1..]) == Exec(cfg, s3, []);
  }

  /** Two calls that both find no row: the first insert runs, and the other is told to wait, or that it does not match. */
  lemma RaceHasOneWinner(cfg: Config, s: State, i: nat, j: nat, a: Attempt, b: Attempt)
    requires i !in s.calls && j !in s.calls && i != j && KeyOf(a) == KeyOf(b) && KeyOf(a) !in s.rows
    ensures var looked := Next(cfg, Next(cfg, s, Arrive(i, a)), Arrive(j, b));
      var t := Next(cfg, Next(cfg, Next(cfg, looked, Insert(i)), Insert(j)), Reread(j));
      && t.rows == s.rows[KeyOf(a) := Claimed(Preimage(a), s.clock)]
      && t.calls[i] == Running(a, s.clock)
      && t.calls[j] == Answered(b, if Preimage(a) == Preimage(b) then InFlight else Mismatch)
  {
    var looked := Next(cfg, Next(cfg, s, Arrive(i, a)), Arrive(j, b));
    assert looked.calls[i] == Inserting(a, s.clock) && looked.calls[j] == Inserting(b, s.clock);
    var won := Next(cfg, looked, Insert(i));
    var lost := Next(cfg, won, Insert(j));
    assert lost.calls[j] == Rereading(b) && lost.rows == won.rows;
    assert lost.rows[KeyOf(b) := lost.rows[KeyOf(b)]] == lost.rows;
  }

  /** And if the winner is gone again by the time the other looks, it is told to wait. */
  lemma VanishedWinner(cfg: Config, s: State, j: nat, b: Attempt)
    requires j in s.calls && s.calls[j] == Rereading(b) && KeyOf(b) !in s.rows
    ensures Next(cfg, s, Reread(j)) == s.(calls := s.calls[j := Answered(b, InFlight)])
  {
  }

  /** So no key wedges: past the timeout an unopposed claim runs the route or gets the stored row's answer. */
  lemma KeyNeverWedges(cfg: Config, s: State, id: nat, a: Attempt)
    requires id !in s.calls
    requires KeyOf(a) in s.rows ==> s.rows[KeyOf(a)].createdAt + cfg.timeout < s.clock
    ensures var t := Exec(cfg, s, [Arrive(id, a), Insert(id), Reread(id)]);
      if KeyOf(a) !in s.rows || Unfinished(s.rows[KeyOf(a)])
      then IsRunner(t, id, KeyOf(a))
      else HasAnswer(t, id) && t.calls[id].claim == AnswerOf(s.rows[KeyOf(a)], a)
  {
    UninterruptedClaim(cfg, s, id, a);
    NeverWedged(s.rows, a, s.clock, cfg.timeout);
  }

  // ----- The two hypotheses are needed -----

  lemma ExecStep(cfg: Config, s: State, act: Action, acts: seq<Action>)
    ensures Exec(cfg, s, [act] + acts) == Exec(cfg, Next(cfg, s, act), acts)
    ensures TimelyRun(cfg, s, [act] + acts) <==> Timely(cfg, s) && TimelyRun(cfg, Next(cfg, s, act), acts)
  {
  }

  /** A call that outlives the timeout loses its claim, and the route runs twice at once. */
  lemma OutlivingTheTimeout(cfg: Config, t0: Time, a: Attempt)
    ensures exists acts :: !AtMostOneRunner(Exec(cfg, Init(t0), acts))
  {
    var s0 := Init(t0);
    var s1 := Next(cfg, s0, Arrive(0, a));
    var s2 := Next(cfg, s1, Insert(0));
    var s3 := Next(cfg, s2, Tick(cfg.timeout + 1));
    var s4 := Next(cfg, s3, Arrive(1, a));
    ExecStep(cfg, s3, Arrive(1, a), []);
    ExecStep(cfg, s2, Tick(cfg.timeout + 1), [Arrive(1, a)]);
    ExecStep(cfg, s1, Insert(0), [Tick(cfg.timeout + 1)] + [Arrive(1, a)]);
    ExecStep(cfg, s0, Arrive(0, a), [Insert(0)] + ([Tick(cfg.timeout + 1)] + [Arrive(1, a)]));
    assert IsRunner(s4, 0, KeyOf(a)) && IsRunner(s4, 1, KeyOf(a));
  }

  /** A call that claimed its key at t0 and is still running when its claim is as old as the timeout. */
  function Waiting(cfg: Config, t0: Time, a: Attempt): State {
    State(t0 + cfg.timeout, map[KeyOf(a) := Claimed(Preimage(a), t0)], map[0 := Running(a, t0)])
  }

  lemma WaitingIsReached(cfg: Config, t0: Time, a: Attempt, rest: seq<Action>)
    ensures var acts := [Arrive(0, a)] + ([Insert(0)] + ([Tick(cfg.timeout)] + rest));
      && Exec(cfg, Init(t0), acts) == Exec(cfg, Waiting(cfg, t0, a), rest)
      && (TimelyRun(cfg, Init(t0), acts) <==> TimelyRun(cfg, Waiting(cfg, t0, a), rest))
  {
    var s1 := Next(cfg, Init(t0), Arrive(0, a));
    var s2 := Next(cfg, s1, Insert(0));
    var s3 := Next(cfg, s2, Tick(cfg.timeout));
    assert s3 == Waiting(cfg, t0, a);
    ExecStep(cfg, Init(t0), Arrive(0, a), [Insert(0)] + ([Tick(cfg.timeout)] + rest));
    ExecStep(cfg, s1, Insert(0), [Tick(cfg.timeout)] + rest);
    ExecStep(cfg, s2, Tick(cfg.timeout), rest);
  }

  /** A pruner set to forget rows sooner than the timeout forgets a live call's claim. */
  lemma {:induction false} ShortRetention(cfg: Config, t0: Time, a: Attempt) returns (acts: seq<Action>)
    requires cfg.retention < cfg.timeout
    ensures TimelyRun(cfg, Init(t0), acts) && !AtMostOneRunner(Exec(cfg, Init(t0), acts))
  {
    var prune := Prune({KeyOf(a)});
    var s3 := Waiting(cfg, t0, a);
    var s4 := Next(cfg, s3, prune);
    assert KeyOf(a) !in s4.rows && s4.calls == s3.calls;
    var s5 := Next(cfg, s4, Arrive(1, a));
    var s6 := Next(cfg, s5, Insert(1));
    var a5 := [Insert(1)] + [];
    var a4 := [Arrive(1, a)] + a5;
    acts := [Arrive(0, a)] + ([Insert(0)] + ([Tick(cfg.timeout)] + ([prune] + a4)));
    ExecStep(cfg, s5, Insert(1), []);
    ExecStep(cfg, s4, Arrive(1, a), a5);
    ExecStep(cfg, s3, prune, a4);
    WaitingIsReached(cfg, t0, a, [prune] + a4);
    assert IsRunner(s6, 0, KeyOf(a)) && IsRunner(s6, 1, KeyOf(a));
  }

  /** Exactly when the deployment's two settings are safe: retention must cover the in-flight timeout. */
  lemma RetentionMustCoverTimeout(cfg: Config, t0: Time)
    ensures (forall acts :: TimelyRun(cfg, Init(t0), acts) ==> AtMostOneRunner(Exec(cfg, Init(t0), acts)))
       <==> cfg.timeout <= cfg.retention
  {
    if cfg.timeout <= cfg.retention {
      forall acts | TimelyRun(cfg, Init(t0), acts)
        ensures AtMostOneRunner(Exec(cfg, Init(t0), acts))
      {
        RunKeepsInv(cfg, Init(t0), acts);
      }
    } else {
      var acts := ShortRetention(cfg, t0, Attempt(0, "", [], [], []));
    }
  }
}
