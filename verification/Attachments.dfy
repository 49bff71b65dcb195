/**
  The books behind attachments, with the session reduced to the two sets of deletions it has
  armed: those a commit would run and those a rollback would run.
*/
module AttachmentLedger {
  import opened Common
  import opened LocalStorage

  /** Attachment rows by their unique storage key, each with its recorded size. */
  type Rows = map<Key, nat>

  datatype Ledger = Ledger(
    committed: Rows,
    working: Rows,
    savepoints: seq<Rows>,
    storage: map<Key, seq<Byte>>,
    tasks: set<Key>,
    leaked: set<Key>,
    minted: set<Key>,
    onCommit: set<Key>,
    onRollback: set<Key>)

  function Stored(l: Ledger, key: Key, blob: seq<Byte>): Ledger {
    l.(storage := l.storage[key := blob], minted := l.minted + {key}, onRollback := l.onRollback + {key})
  }

  function Refused(l: Ledger, key: Key): Ledger {
    l.(minted := l.minted + {key})
  }

  function Inserted(l: Ledger, key: Key, size: nat): Ledger {
    l.(working := l.working[key := size])
  }

  function Removed(l: Ledger, key: Key): Ledger {
    l.(working := l.working - {key}, onCommit := l.onCommit + {key})
  }

  function Saving(l: Ledger): Ledger {
    l.(savepoints := l.savepoints + [l.working])
  }

  function Released(l: Ledger): Ledger
    requires l.savepoints != []
  {
    l.(savepoints := l.savepoints[..|l.savepoints| - 1])
  }

  function Undone(l: Ledger): Ledger
    requires l.savepoints != []
  {
    Released(l).(working := l.savepoints[|l.savepoints| - 1])
  }

  function Ended(l: Ledger, committed: bool): Ledger {
    var rows := if committed then l.working else l.committed;
    l.(committed := rows, working := rows, savepoints := [],
       tasks := l.tasks + (if committed then l.onCommit else l.onRollback), onCommit := {}, onRollback := {})
  }

  function Deleted(l: Ledger, key: Key): Ledger {
    l.(tasks := l.tasks - {key}, storage := l.storage - {key})
  }

  function Leaked(l: Ledger, key: Key): Ledger {
    l.(tasks := l.tasks - {key}, leaked := l.leaked + {key})
  }

  /** Rows the transaction could end up with: each has its whole blob, and the hooks cover the difference. */
  ghost predicate Covered(l: Ledger, rows: Rows) {
    && (forall k :: k in rows ==> k in l.storage && |l.storage[k]| == rows[k])
    && rows.Keys !! l.tasks && rows.Keys !! l.leaked
    && l.committed.Keys - rows.Keys <= l.onCommit
    && rows.Keys - l.committed.Keys <= l.onRollback
  }

  ghost predicate Balanced(l: Ledger) {
    && Covered(l, l.committed)
    && Covered(l, l.working)
    && (forall i :: 0 <= i < |l.savepoints| ==> Covered(l, l.savepoints[i]))
    && l.onRollback !! l.committed.Keys + l.tasks + l.leaked
    && l.onRollback <= l.storage.Keys
    && l.storage.Keys <= l.committed.Keys + l.onRollback + l.tasks + l.leaked
    && l.storage.Keys + l.tasks + l.leaked + l.onCommit <= l.minted
  }

  /**
    The hooks agree with the rows about to be committed: nothing a commit would delete is a
    row, and every fresh upload is either a row or about to be deleted.
  */
  ghost predicate Agree(l: Ledger) {
    l.onCommit !! l.working.Keys && l.onRollback <= l.working.Keys + l.onCommit
  }

  lemma StoringBalances(l: Ledger, key: Key, blob: seq<Byte>)
    requires Balanced(l) && key !in l.minted
    ensures Balanced(Stored(l, key, blob))
  {
  }

  lemma InsertingBalances(l: Ledger, key: Key, blob: seq<Byte>)
    requires Balanced(l) && key !in l.minted
    ensures var i := Inserted(Stored(l, key, blob), key, |blob|);
      Balanced(i) && (Agree(l) ==> Agree(i))
  {
    StoringBalances(l, key, blob);
    var s := Stored(l, key, blob);
    assert forall rows :: Covered(s, rows) ==> Covered(Inserted(s, key, |blob|), rows);
  }

  lemma RefusingBalances(l: Ledger, key: Key)
    requires Balanced(l)
    ensures Balanced(Refused(l, key)) && (Agree(l) ==> Agree(Refused(l, key)))
  {
  }

  lemma RemovingBalances(l: Ledger, key: Key)
    requires Balanced(l) && key in l.working
    ensures Balanced(Removed(l, key)) && (Agree(l) ==> Agree(Removed(l, key)))
  {
  }

  lemma SavingBalances(l: Ledger)
    requires Balanced(l)
    ensures Balanced(Saving(l)) && (Agree(l) ==> Agree(Saving(l)))
  {
    assert forall rows :: Covered(l, rows) ==> Covered(Saving(l), rows);
  }

  lemma ReleasingBalances(l: Ledger)
    requires Balanced(l) && l.savepoints != []
    ensures Balanced(Released(l)) && (Agree(l) ==> Agree(Released(l)))
  {
    assert forall rows :: Covered(l, rows) ==> Covered(Released(l), rows);
  }

  lemma UndoingBalances(l: Ledger)
    requires Balanced(l) && l.savepoints != []
    ensures Balanced(Undone(l))
    ensures Agree(l) && l.savepoints[|l.savepoints| - 1] == l.working ==> Agree(Undone(l))
  {
    assert forall rows :: Covered(l, rows) ==> Covered(Undone(l), rows);
  }

  lemma DeletingBalances(l: Ledger, key: Key)
    requires Balanced(l) && key in l.tasks
    ensures Balanced(Deleted(l, key)) && (Agree(l) ==> Agree(Deleted(l, key)))
  {
    assert forall rows :: Covered(l, rows) ==> Covered(Deleted(l, key), rows);
  }

  lemma LeakingBalances(l: Ledger, key: Key)
    requires Balanced(l) && key in l.tasks
    ensures Balanced(Leaked(l, key)) && (Agree(l) ==> Agree(Leaked(l, key)))
  {
    assert forall rows :: Covered(l, rows) ==> Covered(Leaked(l, key), rows);
  }

  lemma RollbackBalances(l: Ledger)
    requires Balanced(l)
    ensures Balanced(Ended(l, false)) && Agree(Ended(l, false))
  {
  }

  /** A commit is clean if and only if the hooks agree with the rows at that moment. */
  lemma CommitBalancesExactlyWhenAgreed(l: Ledger)
    requires Balanced(l)
    ensures Balanced(Ended(l, true)) <==> Agree(l)
    ensures Agree(Ended(l, true))
  {
    var e := Ended(l, true);
    if Agree(l) {
      assert Covered(e, e.committed);
    }
    if Balanced(e) {
      assert Covered(e, e.working);
      assert l.onCommit <= e.tasks;
      assert forall k :: k in l.onRollback ==> k in e.storage && k !in l.tasks && k !in l.leaked;
    }
  }
}

/**
  Uploaded blobs against transactional rows.  A blob reaches storage at once; its row lives
  or dies with the session's transaction.  Adding registers "delete the blob if this rolls
  back", removing registers "delete the blob if this commits", both through the outcome
  hooks, and the deletions run later as background tasks.
*/
module Attachments {
  import opened Common
  import opened LocalStorage
  import opened TransactionalHooks
  import opened AttachmentLedger

  /**
    One session over the whole life of a process.  `minted` are the keys ever drawn (they
    are uuids, so never drawn twice); `leaked` the keys whose background deletion failed.
  */
  datatype World = World(
    limit: nat,
    committed: Rows,
    working: Rows,
    savepoints: seq<Rows>,
    session: Session<Key>,
    storage: map<Key, seq<Byte>>,
    tasks: set<Key>,
    leaked: set<Key>,
    minted: set<Key>)

  datatype Action =
    | Add(key: Key, chunks: seq<seq<Byte>>)
    | AddInsertFails(key: Key, chunks: seq<seq<Byte>>)
    | Remove(key: Key)
    | Savepoint
    | ReleaseSavepoint
    | RollbackSavepoint
    | Commit
    | Rollback
    | LoopTurns
    | CleanupSucceeds(key: Key)
    | CleanupFails(key: Key)

  function Init(limit: nat): World {
    World(limit, map[], map[], [], Idle(), map[], {}, {}, {})
  }

  /** Save the upload and, if it was accepted, arm its deletion on rollback. */
  function Upload(w: World, key: Key, chunks: seq<seq<Byte>>): World {
    var saved := w.(storage := Saved(w.storage, key, chunks, w.limit), minted := w.minted + {key});
    if |Joined(chunks)| <= w.limit
    then saved.(session := TransactionalHooks.Next(w.session, Register(Hooks(None, Some(key)))))
    else saved
  }

  /** The callbacks an event ran: the tail it added to the session's log. */
  function Scheduled(before: Session<Key>, after: Session<Key>): set<Key> {
    set i | |before.log| <= i < |after.log| :: after.log[i].callback
  }

  /** The outer transaction ends; savepoints still open go with it, silently. */
  function Finish(w: World, committed: bool): World {
    var outer := w.session.(depth := 0);
    var ended := TransactionalHooks.Next(outer, Outcome(committed));
    var rows := if committed then w.working else w.committed;
    w.(committed := rows, working := rows, savepoints := [], session := ended,
       tasks := w.tasks + Scheduled(outer, ended))
  }

  function Next(w: World, act: Action): World {
    match act
    case Add(key, chunks) =>
      if key in w.minted then w
      else
        var u := Upload(w, key, chunks);
        if |Joined(chunks)| <= w.limit then u.(working := u.working[key := |Joined(chunks)|]) else u
    case AddInsertFails(key, chunks) =>
      if key in w.minted then w else Finish(Upload(w, key, chunks), false)
    case Remove(key) =>
      if key !in w.working then w
      else w.(working := w.working - {key},
              session := TransactionalHooks.Next(w.session, Register(Hooks(Some(key), None))))
    case Savepoint =>
      w.(savepoints := w.savepoints + [w.working], session := TransactionalHooks.Next(w.session, BeginSavepoint))
    case ReleaseSavepoint =>
      if w.savepoints == [] then w
      else w.(savepoints := w.savepoints[..|w.savepoints| - 1],
              session := TransactionalHooks.Next(w.session, EndSavepoint(true)))
    case RollbackSavepoint =>
      if w.savepoints == [] then w
      else w.(working := w.savepoints[|w.savepoints| - 1],
              savepoints := w.savepoints[..|w.savepoints| - 1],
              session := TransactionalHooks.Next(w.session, EndSavepoint(false)))
    case Commit => Finish(w, true)
    case Rollback => Finish(w, false)
    case LoopTurns => w.(session := TransactionalHooks.Next(w.session, LoopTurn))
    case CleanupSucceeds(key) =>
      if key in w.tasks then w.(tasks := w.tasks - {key}, storage := w.storage - {key}) else w
    case CleanupFails(key) =>
      if key in w.tasks then w.(tasks := w.tasks - {key}, leaked := w.leaked + {key}) else w
  }

  function Exec(w: World, acts: seq<Action>): World
    decreases |acts|
  {
    if acts == [] then w else Exec(Next(w, acts[0]), acts[1..])
  }

  /** The keys that would be deleted if the outer transaction ended this way now. */
  function Armed(s: Session<Key>, committed: bool): set<Key> {
    set i | 0 <= i < |s.listeners| && !s.listeners[i].retired && Chosen(s.listeners[i].hooks, committed).Some?
      :: Chosen(s.listeners[i].hooks, committed).value
  }

  function AsSet(k: Option<Key>): set<Key> {
    if k.Some? then {k.value} else {}
  }

  // ----- What each session event does to the armed deletions -----

  lemma RegisterArms(s: Session<Key>, h: Hooks<Key>, committed: bool)
    ensures var t := TransactionalHooks.Next(s, Register(h));
      && Armed(t, committed) == Armed(s, committed) + AsSet(Chosen(h, committed))
      && t.log == s.log
  {
    var t := TransactionalHooks.Next(s, Register(h));
    assert t.listeners[|s.listeners|] == Listener(s.nextId, h, false);
    assert forall i :: 0 <= i < |s.listeners| ==> t.listeners[i] == s.listeners[i];
  }

  lemma SavepointEndsSilently(s: Session<Key>, committed: bool)
    ensures TransactionalHooks.Next(s, EndSavepoint(committed)) == s.(depth := if s.depth == 0 then 0 else s.depth - 1)
  {
    NestedDispatchIsSilent(s.listeners, committed);
  }

  lemma {:induction false} KeepMembers(ls: seq<Listener<Key>>, doomed: set<nat>)
    ensures forall l :: l in Keep(ls, doomed) ==> l in ls
    ensures forall l :: l in ls && l.id !in doomed ==> l in Keep(ls, doomed)
  {
    if ls != [] {
      KeepMembers(ls[1..], doomed);
    }
  }

  lemma ArmedByMembership(s: Session<Key>, committed: bool)
    ensures forall k :: k in Armed(s, committed) <==>
      exists l :: l in s.listeners && !l.retired && Chosen(l.hooks, committed) == Some(k)
  {
  }

  lemma LoopTurnArmsNothing(s: Session<Key>, committed: bool)
    requires Valid(s)
    ensures Armed(TransactionalHooks.Next(s, LoopTurn), committed) == Armed(s, committed)
  {
    var t := TransactionalHooks.Next(s, LoopTurn);
    KeepMembers(s.listeners, s.doomed);
    ArmedByMembership(s, committed);
    ArmedByMembership(t, committed);
  }

  lemma {:induction false} ReactionsAreArmed(ls: seq<Listener<Key>>, committed: bool, k: Key)
    ensures (exists i :: 0 <= i < |ReactAll(ls, committed, false)| && ReactAll(ls, committed, false)[i].callback == k)
       <==> (exists l :: l in ls && !l.retired && Chosen(l.hooks, committed) == Some(k))
  {
    if ls != [] {
      ReactionsAreArmed(ls[1..], committed, k);
      var first := React(ls[0], committed, false);
      var rest := ReactAll(ls[1..], committed, false);
      var all := ReactAll(ls, committed, false);
      assert all == first + rest;
      if !ls[0].retired && Chosen(ls[0].hooks, committed) == Some(k) {
        assert all[0].callback == k;
        assert ls[0] in ls;
      } else {
        if i :| 0 <= i < |rest| && rest[i].callback == k {
          assert all[|first| + i].callback == k;
        }
        if i :| 0 <= i < |all| && all[i].callback == k {
          assert rest[i - |first|].callback == k;
        }
        assert forall l :: l in ls <==> l == ls[0] || l in ls[1..];
      }
    }
  }

  lemma FiredAreScheduled(s: Session<Key>, t: Session<Key>, fired: seq<Fired<Key>>, k: Key)
    requires t.log == s.log + fired
    ensures k in Scheduled(s, t) <==> exists i :: 0 <= i < |fired| && fired[i].callback == k
  {
    assert forall i :: 0 <= i < |fired| ==> t.log[|s.log| + i] == fired[i];
    if i :| 0 <= i < |fired| && fired[i].callback == k {
      assert t.log[|s.log| + i].callback == k;
    }
    if k in Scheduled(s, t) {
      var j :| |s.log| <= j < |t.log| && t.log[j].callback == k;
      assert fired[j - |s.log|].callback == k;
    }
  }

  lemma OutcomeDisarms(s: Session<Key>, committed: bool, c: bool)
    requires s.depth == 0
    ensures Armed(TransactionalHooks.Next(s, Outcome(committed)), c) == {}
  {
    var t := TransactionalHooks.Next(s, Outcome(committed));
    assert forall i :: 0 <= i < |t.listeners| ==> t.listeners[i].retired;
  }

  /** The outer outcome schedules exactly the armed deletions, and disarms every pair. */
  lemma OutcomeRunsArmed(s: Session<Key>, committed: bool)
    requires s.depth == 0
    ensures var t := TransactionalHooks.Next(s, Outcome(committed));
      && Scheduled(s, t) == Armed(s, committed)
      && (forall c :: Armed(t, c) == {})
  {
    var t := TransactionalHooks.Next(s, Outcome(committed));
    var fired := ReactAll(s.listeners, committed, false);
    ArmedByMembership(s, committed);
    forall k
      ensures k in Scheduled(s, t) <==> k in Armed(s, committed)
    {
      ReactionsAreArmed(s.listeners, committed, k);
      FiredAreScheduled(s, t, fired, k);
    }
    OutcomeDisarms(s, committed, true);
    OutcomeDisarms(s, committed, false);
  }

  // ----- The invariant -----

  function Books(w: World): Ledger {
    Ledger(w.committed, w.working, w.savepoints, w.storage, w.tasks, w.leaked, w.minted,
           Armed(w.session, true), Armed(w.session, false))
  }

  ghost predicate Sound(w: World) {
    Valid(w.session) && w.session.depth == |w.savepoints|
  }

  ghost predicate Inv(w: World) {
    Sound(w) && Balanced(Books(w))
  }

  /** A pair registered for one outcome is armed for it and for nothing else. */
  lemma RegisterBooks(w: World, h: Hooks<Key>)
    requires Sound(w)
    ensures var t := TransactionalHooks.Next(w.session, Register(h));
      && Valid(t) && t.depth == |w.savepoints|
      && Armed(t, true) == Armed(w.session, true) + AsSet(h.onCommit)
      && Armed(t, false) == Armed(w.session, false) + AsSet(h.onRollback)
  {
    StepRefines(w.session, Register(h));
    RegisterArms(w.session, h, true);
    RegisterArms(w.session, h, false);
  }

  lemma UploadBooks(w: World, key: Key, chunks: seq<seq<Byte>>)
    requires Sound(w) && key !in w.storage
    ensures var u := Upload(w, key, chunks);
      && Sound(u)
      && Books(u) ==
        if |Joined(chunks)| <= w.limit then Stored(Books(w), key, Joined(chunks)) else Refused(Books(w), key)
  {
    RegisterBooks(w, Hooks(None, Some(key)));
    assert w.storage - {key} == w.storage;
  }

  lemma FinishBooks(w: World, committed: bool)
    requires Valid(w.session)
    ensures var t := Finish(w, committed);
      Sound(t) && Books(t) == Ended(Books(w), committed)
  {
    var outer := w.session.(depth := 0);
    StepRefines(outer, Outcome(committed));
    OutcomeRunsArmed(outer, committed);
    assert Armed(outer, true) == Armed(w.session, true) && Armed(outer, false) == Armed(w.session, false);
  }

  lemma RemoveBooks(w: World, key: Key)
    requires Sound(w) && key in w.working
    ensures var t := Next(w, Remove(key));
      Sound(t) && Books(t) == Removed(Books(w), key)
  {
    RegisterBooks(w, Hooks(Some(key), None));
  }

  /** Savepoints and loop turns arm and disarm nothing. */
  lemma SessionStepArmsNothing(w: World, act: Action)
    requires Sound(w)
    requires act.Savepoint? || act.ReleaseSavepoint? || act.RollbackSavepoint? || act.LoopTurns?
    ensures var t := Next(w, act);
      && Sound(t)
      && Armed(t.session, true) == Armed(w.session, true) && Armed(t.session, false) == Armed(w.session, false)
  {
    SavepointEndsSilently(w.session, true);
    SavepointEndsSilently(w.session, false);
    StepRefines(w.session, LoopTurn);
    LoopTurnArmsNothing(w.session, true);
    LoopTurnArmsNothing(w.session, false);
  }

  lemma SessionStepBooks(w: World, act: Action)
    requires Sound(w)
    requires act.Savepoint? || act.ReleaseSavepoint? || act.RollbackSavepoint? || act.LoopTurns?
    ensures var t := Next(w, act);
      && Sound(t)
      && (act.Savepoint? ==> Books(t) == Saving(Books(w)))
      && (act.LoopTurns? || w.savepoints == [] ==> act.Savepoint? || Books(t) == Books(w))
      && (act.ReleaseSavepoint? && w.savepoints != [] ==> Books(t) == Released(Books(w)))
      && (act.RollbackSavepoint? && w.savepoints != [] ==> Books(t) == Undone(Books(w)))
  {
    SessionStepArmsNothing(w, act);
  }

  /** A step that rolls back a savepoint and with it a change to the attachment rows. */
  predicate UndoesRows(w: World, act: Action) {
    act.RollbackSavepoint? && w.savepoints != [] && w.savepoints[|w.savepoints| - 1] != w.working
  }

  lemma AddKeepsInv(w: World, key: Key, chunks: seq<seq<Byte>>)
    requires Inv(w) && key !in w.minted
    ensures Inv(Next(w, Add(key, chunks)))
    ensures Agree(Books(w)) ==> Agree(Books(Next(w, Add(key, chunks))))
  {
    var t := Next(w, Add(key, chunks));
    UploadBooks(w, key, chunks);
    if |Joined(chunks)| <= w.limit {
      InsertingBalances(Books(w), key, Joined(chunks));
      assert Books(t) == Inserted(Stored(Books(w), key, Joined(chunks)), key, |Joined(chunks)|);
    } else {
      RefusingBalances(Books(w), key);
    }
  }

  lemma FailedAddKeepsInv(w: World, key: Key, chunks: seq<seq<Byte>>)
    requires Inv(w) && key !in w.minted
    ensures Inv(Next(w, AddInsertFails(key, chunks))) && Agree(Books(Next(w, AddInsertFails(key, chunks))))
  {
    UploadBooks(w, key, chunks);
    var u := Upload(w, key, chunks);
    assert Balanced(Books(u)) by {
      StoringBalances(Books(w), key, Joined(chunks));
      RefusingBalances(Books(w), key);
    }
    FinishBooks(u, false);
    RollbackBalances(Books(u));
  }

  lemma CleanupSucceedsKeepsInv(w: World, key: Key)
    requires Inv(w) && key in w.tasks
    ensures var t := Next(w, CleanupSucceeds(key));
      Inv(t) && (Agree(Books(w)) ==> Agree(Books(t)))
  {
    assert Books(Next(w, CleanupSucceeds(key))) == Deleted(Books(w), key);
    DeletingBalances(Books(w), key);
  }

  lemma CleanupFailsKeepsInv(w: World, key: Key)
    requires Inv(w) && key in w.tasks
    ensures var t := Next(w, CleanupFails(key));
      Inv(t) && (Agree(Books(w)) ==> Agree(Books(t)))
  {
    assert Books(Next(w, CleanupFails(key))) == Leaked(Books(w), key);
    LeakingBalances(Books(w), key);
  }

  lemma SessionStepKeepsInv(w: World, act: Action)
    requires Inv(w)
    requires act.Savepoint? || act.ReleaseSavepoint? || act.RollbackSavepoint? || act.LoopTurns?
    ensures Inv(Next(w, act))
    ensures Agree(Books(w)) && !UndoesRows(w, act) ==> Agree(Books(Next(w, act)))
  {
    SessionStepBooks(w, act);
    if act.Savepoint? {
      SavingBalances(Books(w));
    } else if act.ReleaseSavepoint? && w.savepoints != [] {
      ReleasingBalances(Books(w));
    } else if act.RollbackSavepoint? && w.savepoints != [] {
      UndoingBalances(Books(w));
    }
  }

  lemma RemoveKeepsInv(w: World, key: Key)
    requires Inv(w) && key in w.working
    ensures var t := Next(w, Remove(key));
      Inv(t) && (Agree(Books(w)) ==> Agree(Books(t)))
  {
    RemoveBooks(w, key);
    assert Books(Next(w, Remove(key))) == Removed(Books(w), key);
    RemovingBalances(Books(w), key);
  }

  lemma CommitKeepsInv(w: World)
    requires Inv(w) && Agree(Books(w))
    ensures Inv(Next(w, Commit)) && Agree(Books(Next(w, Commit)))
  {
    FinishBooks(w, true);
    assert Books(Next(w, Commit)) == Ended(Books(w), true);
    CommitBalancesExactlyWhenAgreed(Books(w));
  }

  lemma RollbackKeepsInv(w: World)
    requires Inv(w)
    ensures Inv(Next(w, Rollback)) && Agree(Books(Next(w, Rollback)))
  {
    FinishBooks(w, false);
    assert Books(Next(w, Rollback)) == Ended(Books(w), false);
    RollbackBalances(Books(w));
  }

  /** Every step keeps the invariant, provided a commit is only made while the hooks agree. */
  lemma StepKeepsInv(w: World, act: Action)
    requires Inv(w) && (act.Commit? ==> Agree(Books(w)))
    ensures Inv(Next(w, act))
    ensures Agree(Books(w)) && !UndoesRows(w, act) ==> Agree(Books(Next(w, act)))
  {
    match act
    case Add(key, chunks) =>
      if key !in w.minted {
        AddKeepsInv(w, key, chunks);
      }
    case AddInsertFails(key, chunks) =>
      if key !in w.minted {
        FailedAddKeepsInv(w, key, chunks);
      }
    case Remove(key) =>
      if key in w.working {
        RemoveKeepsInv(w, key);
      }
    case Commit => CommitKeepsInv(w);
    case Rollback => RollbackKeepsInv(w);
    case CleanupSucceeds(key) =>
      if key in w.tasks {
        CleanupSucceedsKeepsInv(w, key);
      }
    case CleanupFails(key) =>
      if key in w.tasks {
        CleanupFailsKeepsInv(w, key);
      }
    case _ =>
      SessionStepKeepsInv(w, act);
  }

  /** A commit keeps the books balanced if and only if the hooks agree with the rows at that moment. */
  lemma CommitIsCleanExactlyWhenHooksAgree(w: World)
    requires Inv(w)
    ensures Inv(Next(w, Commit)) <==> Agree(Books(w))
  {
    FinishBooks(w, true);
    assert Books(Next(w, Commit)) == Ended(Books(w), true);
    CommitBalancesExactlyWhenAgreed(Books(w));
  }

  ghost predicate UndoFree(w: World, acts: seq<Action>)
    decreases |acts|
  {
    acts != [] ==> !UndoesRows(w, acts[0]) && UndoFree(Next(w, acts[0]), acts[1..])
  }

  /**
    For every run of uploads, removals, failed inserts, commits, rollbacks, nested savepoints
    and background cleanups in which no rolled-back savepoint undoes attachment rows, every
    committed row has its whole blob in storage at every moment.
  */
  lemma {:induction false} EveryRowHasItsBlob(w: World, acts: seq<Action>)
    requires Inv(w) && Agree(Books(w)) && UndoFree(w, acts)
    ensures var t := Exec(w, acts);
      && Inv(t) && Agree(Books(t))
      && forall k :: k in t.committed ==> k in t.storage && |t.storage[k]| == t.committed[k]
    decreases |acts|
  {
    if acts == [] {
      assert Covered(Books(w), w.committed);
    } else {
      StepKeepsInv(w, acts[0]);
      EveryRowHasItsBlob(Next(w, acts[0]), acts[1..]);
    }
  }

  /** How the service uses it: attachment work happens with no savepoint open. */
  ghost predicate OuterLevelOnly(w: World, acts: seq<Action>)
    decreases |acts|
  {
    acts != [] ==>
      && (acts[0].Add? || acts[0].Remove? ==> w.savepoints == [])
      && OuterLevelOnly(Next(w, acts[0]), acts[1..])
  }

  ghost predicate SavepointsCurrent(w: World) {
    forall i :: 0 <= i < |w.savepoints| ==> w.savepoints[i] == w.working
  }

  lemma OuterStepKeepsSavepoints(w: World, act: Action)
    requires SavepointsCurrent(w) && (act.Add? || act.Remove? ==> w.savepoints == [])
    ensures SavepointsCurrent(Next(w, act)) && !UndoesRows(w, act)
  {
  }

  lemma {:induction false} OuterLevelWorkIsNeverUndone(w: World, acts: seq<Action>)
    requires OuterLevelOnly(w, acts) && SavepointsCurrent(w)
    ensures UndoFree(w, acts)
    decreases |acts|
  {
    if acts != [] {
      OuterStepKeepsSavepoints(w, acts[0]);
      OuterLevelWorkIsNeverUndone(Next(w, acts[0]), acts[1..]);
    }
  }

  /** Nothing is waiting on an outcome: no pair is live. */
  predicate Quiet(w: World) {
    Armed(w.session, true) == {} && Armed(w.session, false) == {}
  }

  /** No orphans: when the session is idle and cleanup has run, storage holds exactly the committed rows' blobs. */
  lemma NoOrphans(limit: nat, acts: seq<Action>)
    requires UndoFree(Init(limit), acts)
    requires var t := Exec(Init(limit), acts);
      Quiet(t) && t.tasks == {}
    ensures var t := Exec(Init(limit), acts);
      && t.committed.Keys <= t.storage.Keys <= t.committed.Keys + t.leaked
      && t.committed.Keys !! t.leaked
      && (t.leaked == {} ==> t.storage.Keys == t.committed.Keys)
  {
    var t := Exec(Init(limit), acts);
    EveryRowHasItsBlob(Init(limit), acts);
    assert Covered(Books(t), t.committed);
  }

  /** Ending the outer transaction is what makes a session quiet. */
  lemma OutcomeQuiets(w: World, act: Action)
    requires act.Commit? || act.Rollback?
    ensures Quiet(Next(w, act)) && Next(w, act).working == Next(w, act).committed
  {
  }

  /** Closing the open savepoints one by one first, either way, changes nothing for the hooks. */
  lemma {:induction false} UnwindingIsSilent(s: Session<Key>, committed: bool)
    ensures Run(s, seq(s.depth, _ => EndSavepoint(committed))) == s.(depth := 0)
    decreases s.depth
  {
    var es: seq<Event<Key>> := seq(s.depth, _ => EndSavepoint(committed));
    if s.depth > 0 {
      SavepointEndsSilently(s, committed);
      var t := TransactionalHooks.Next(s, EndSavepoint(committed));
      assert es[1..] == seq(t.depth, _ => EndSavepoint(committed));
      UnwindingIsSilent(t, committed);
    }
  }

  // ----- Outside the guarantee -----

  function Undoing(act: Action): seq<Action> {
    [Savepoint, act, RollbackSavepoint]
  }

  lemma ExecThree(w: World, a: Action, b: Action, c: Action)
    ensures Exec(w, [a, b, c]) == Next(Next(Next(w, a), b), c)
  {
    assert [a, b, c][1..] == [b, c] && [b, c][1..] == [c] && [c][1..] == [];
    assert Exec(Next(w, a), [b, c]) == Exec(Next(Next(w, a), b), [c]);
    assert Exec(Next(Next(w, a), b), [c]) == Exec(Next(Next(Next(w, a), b), c), []);
  }

  lemma UndoneRemovalBooks(w: World, key: Key)
    requires Sound(w) && key in w.working
    ensures var undone := Exec(w, Undoing(Remove(key)));
      Sound(undone) && Books(undone) == Books(w).(onCommit := Books(w).onCommit + {key})
  {
    var a := Next(w, Savepoint);
    var b := Next(a, Remove(key));
    ExecThree(w, Savepoint, Remove(key), RollbackSavepoint);
    SessionStepBooks(w, Savepoint);
    RemoveBooks(a, key);
    SessionStepBooks(b, RollbackSavepoint);
    assert b.savepoints == w.savepoints + [w.working];
  }

  lemma ArmedRowLosesItsBlob(w: World, key: Key)
    requires Sound(w) && key in w.working && key in Armed(w.session, true)
    ensures !Agree(Books(w))
    ensures var end := Next(Next(w, Commit), CleanupSucceeds(key));
      key in end.committed && key !in end.storage
  {
    assert key in Books(w).onCommit && key in Books(w).working;
    FinishBooks(w, true);
    var done := Next(w, Commit);
    assert Books(done).tasks == w.tasks + Armed(w.session, true);
    assert key in done.tasks && key in done.committed;
  }

  /** A removal undone by its savepoint leaves its deletion armed: the commit keeps the row and loses its blob. */
  lemma UndoneRemovalLosesTheBlob(w: World, key: Key)
    requires Sound(w) && key in w.working
    ensures var undone := Exec(w, Undoing(Remove(key)));
      var end := Next(Next(undone, Commit), CleanupSucceeds(key));
      !Agree(Books(undone)) && key in end.committed && key !in end.storage
  {
    var undone := Exec(w, Undoing(Remove(key)));
    UndoneRemovalBooks(w, key);
    assert undone.working == Books(undone).working && Armed(undone.session, true) == Books(undone).onCommit;
    ArmedRowLosesItsBlob(undone, key);
  }

  lemma UndoneUploadBooks(w: World, key: Key, chunks: seq<seq<Byte>>)
    requires Sound(w) && key !in w.minted && key !in w.storage && |Joined(chunks)| <= w.limit
    ensures var undone := Exec(w, Undoing(Add(key, chunks)));
      Sound(undone) && Books(undone) == Stored(Books(w), key, Joined(chunks))
  {
    var a := Next(w, Savepoint);
    var u := Upload(a, key, chunks);
    var b := Next(a, Add(key, chunks));
    ExecThree(w, Savepoint, Add(key, chunks), RollbackSavepoint);
    SessionStepBooks(w, Savepoint);
    UploadBooks(a, key, chunks);
    assert b == u.(working := u.working[key := |Joined(chunks)|]);
    assert Books(b) == Inserted(Books(u), key, |Joined(chunks)|);
    SessionStepBooks(b, RollbackSavepoint);
    assert b.savepoints == w.savepoints + [w.working];
  }

  /** A stored key that no row, task or hook knows of. */
  ghost predicate Orphaned(l: Ledger, key: Key) {
    && key in l.storage && l.storage.Keys <= l.minted
    && key !in l.committed && key !in l.working && (forall i :: 0 <= i < |l.savepoints| ==> key !in l.savepoints[i])
    && key !in l.tasks && key !in l.onCommit && key !in l.onRollback
  }

  lemma CommittedUploadIsOrphaned(w: World, key: Key)
    requires Sound(w) && key in w.storage && w.storage.Keys <= w.minted
    requires key !in w.working && key !in w.tasks && key !in Armed(w.session, true)
    ensures Sound(Next(w, Commit)) && Orphaned(Books(Next(w, Commit)), key)
  {
    FinishBooks(w, true);
    assert Books(Next(w, Commit)) == Ended(Books(w), true);
  }

  /** Nothing mentions a key that was never drawn. */
  ghost predicate Nowhere(w: World, key: Key) {
    && key !in w.minted && w.storage.Keys <= w.minted
    && key !in w.working && key !in w.tasks && key !in Armed(w.session, true)
  }

  lemma FreshKeyIsNowhere(w: World, key: Key)
    requires Inv(w) && key !in w.minted
    ensures Nowhere(w, key)
  {
    assert Covered(Books(w), w.working);
  }

  lemma UndoneUploadIsStored(w: World, key: Key, chunks: seq<seq<Byte>>)
    requires Sound(w) && Nowhere(w, key) && |Joined(chunks)| <= w.limit
    ensures var undone := Exec(w, Undoing(Add(key, chunks)));
      && Sound(undone) && key in undone.storage && undone.storage.Keys <= undone.minted
      && key !in undone.working && key !in undone.tasks && key !in Armed(undone.session, true)
  {
    UndoneUploadBooks(w, key, chunks);
    var l := Books(Exec(w, Undoing(Add(key, chunks))));
    assert l == Stored(Books(w), key, Joined(chunks));
    assert key in l.storage && l.storage.Keys <= l.minted && key !in l.working && key !in l.tasks && key !in l.onCommit;
  }

  /** An upload undone by its savepoint and then committed is an orphan. */
  lemma UndoneUploadIsOrphaned(w: World, key: Key, chunks: seq<seq<Byte>>)
    requires Inv(w) && key !in w.minted && |Joined(chunks)| <= w.limit
    ensures var end := Next(Exec(w, Undoing(Add(key, chunks))), Commit);
      Sound(end) && Orphaned(Books(end), key)
  {
    FreshKeyIsNowhere(w, key);
    UndoneUploadIsStored(w, key, chunks);
    CommittedUploadIsOrphaned(Exec(w, Undoing(Add(key, chunks))), key);
  }

  lemma OrphanSurvivesUpload(w: World, key: Key, other: Key, chunks: seq<seq<Byte>>)
    requires Sound(w) && Orphaned(Books(w), key) && other !in w.minted
    ensures other != key && Sound(Upload(w, other, chunks)) && Orphaned(Books(Upload(w, other, chunks)), key)
  {
    UploadBooks(w, other, chunks);
  }

  lemma OrphanSurvivesStep(w: World, key: Key, act: Action)
    requires Sound(w) && Orphaned(Books(w), key)
    ensures Sound(Next(w, act)) && Orphaned(Books(Next(w, act)), key)
  {
    match act
    case Add(other, chunks) =>
      if other !in w.minted {
        OrphanSurvivesUpload(w, key, other, chunks);
      }
    case AddInsertFails(other, chunks) =>
      if other !in w.minted {
        OrphanSurvivesUpload(w, key, other, chunks);
        FinishBooks(Upload(w, other, chunks), false);
      }
    case Remove(other) =>
      if other in w.working {
        RemoveBooks(w, other);
      }
    case Commit => FinishBooks(w, true);
    case Rollback => FinishBooks(w, false);
    case CleanupSucceeds(other) =>
    case CleanupFails(other) =>
    case _ => SessionStepBooks(w, act);
  }

  /** And stays one for ever: whatever the session does next, no row, hook or task ever names the key again. */
  lemma {:induction false} OrphansStay(w: World, key: Key, acts: seq<Action>)
    requires Sound(w) && Orphaned(Books(w), key)
    ensures Orphaned(Books(Exec(w, acts)), key)
    decreases |acts|
  {
    if acts != [] {
      OrphanSurvivesStep(w, key, acts[0]);
      OrphansStay(Next(w, acts[0]), key, acts[1..]);
    }
  }
}
