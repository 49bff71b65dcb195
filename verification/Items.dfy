/**
  Optimistic concurrency on items across interleaved transactions.  A transaction loads an
  item, may refuse it for its version, edits its own copy, and flushes with UPDATE ... WHERE
  version = the version it loaded.  The database's part is its contract: a flush waits for
  a row another transaction has already written, and then sees what that one left.
*/
module Items {
  import opened Common
  import opened Etag

  type ItemId = int
  type TxId = nat

  datatype Content = Content(owner: int, title: string, description: Option<string>, deletedAt: Option<Time>)

  datatype Row = Row(version: int, content: Content)

  /** A patch carries only the fields the caller set; a deletion stamps the row. */
  datatype Edit =
    | Update(title: Option<string>, description: Option<Option<string>>)
    | SoftDelete(now: Time)

  function Apply(e: Edit, c: Content): Content {
    match e
    case Update(title, description) =>
      c.(title := if title.Some? then title.value else c.title,
         description := if description.Some? then description.value else c.description)
    case SoftDelete(now) => c.(deletedAt := Some(now))
  }

  /** An effective write: what it was computed from, how, what it left, the If-Match it came with, and who asked for it. */
  datatype Write = Write(base: Row, edit: Edit, result: Row, ifMatch: Option<int>, author: int)

  /** The call a loaded item is waiting to be written for: whose it is, and the version insisted on. */
  datatype Call = Call(owner: int, ifMatch: Option<int>)

  /** `loaded` is the session's copy of each item; each write spends the call that loaded it. */
  datatype Tx = Tx(loaded: map<ItemId, Row>, calls: map<ItemId, Call>, pending: map<ItemId, seq<Write>>)

  datatype Timeline = Timeline(first: Row, writes: seq<Write>)

  datatype State = State(
    db: map<ItemId, Row>,
    locks: map<ItemId, TxId>,
    txs: map<TxId, Tx>,
    history: map<ItemId, Timeline>,
    served: set<(ItemId, Row, int)>)

  datatype Action =
    | Create(id: ItemId, owner: int, title: string, description: Option<string>)
    | Serve(id: ItemId, owner: int)
    | Begin(tx: TxId)
    | Load(tx: TxId, id: ItemId, owner: int, ifMatch: Option<int>)
    | Flush(tx: TxId, id: ItemId, edit: Edit)
    | Commit(tx: TxId)
    | Rollback(tx: TxId)

  function Init(): State {
    State(map[], map[], map[], map[], {})
  }

  predicate Visible(r: Row, owner: int) {
    r.content.owner == owner && r.content.deletedAt.None?
  }

  /** The row a transaction's own SELECT finds: its flushed one, else the committed one. */
  function Found(s: State, tx: Tx, id: ItemId): Option<Row> {
    if id in tx.pending && id in tx.loaded then Some(tx.loaded[id])
    else if id in s.db then Some(s.db[id])
    else None
  }

  function EndTx(s: State, tx: TxId): State {
    s.(txs := s.txs - {tx}, locks := map id | id in s.locks && s.locks[id] != tx :: s.locks[id])
  }

  /** The copy a load hands out, if the item is there for this owner at the version asked for. */
  function Loadable(s: State, t: Tx, id: ItemId, owner: int, ifMatch: Option<int>): Option<Row> {
    var found := Found(s, t, id);
    if found.None? || !Visible(found.value, owner) then None
    else
      var row := if id in t.loaded then t.loaded[id] else found.value;
      if ifMatch.Some? && row.version != ifMatch.value then None else Some(row)
  }

  function Holding(t: Tx, id: ItemId, row: Row, call: Call): Tx {
    t.(loaded := t.loaded[id := row], calls := t.calls[id := call])
  }

  function LoadItem(s: State, tx: TxId, id: ItemId, owner: int, ifMatch: Option<int>): State
    requires tx in s.txs
  {
    var row := Loadable(s, s.txs[tx], id, owner, ifMatch);
    if row.None? then EndTx(s, tx)
    else s.(txs := s.txs[tx := Holding(s.txs[tx], id, row.value, Call(owner, ifMatch))])
  }

  function Wrote(t: Tx, id: ItemId, edit: Edit): Tx
    requires id in t.loaded && id in t.calls
  {
    var base := t.loaded[id];
    var result := Row(base.version + 1, Apply(edit, base.content));
    var write := Write(base, edit, result, t.calls[id].ifMatch, t.calls[id].owner);
    var before := if id in t.pending then t.pending[id] else [];
    Tx(t.loaded[id := result], t.calls - {id}, t.pending[id := before + [write]])
  }

  predicate NoChange(t: Tx, id: ItemId, edit: Edit)
    requires id in t.loaded
  {
    Apply(edit, t.loaded[id].content) == t.loaded[id].content
  }

  predicate HeldByOther(s: State, tx: TxId, id: ItemId) {
    id in s.locks && s.locks[id] != tx
  }

  predicate Stale(s: State, t: Tx, id: ItemId)
    requires id in t.loaded
  {
    id !in t.pending && (id !in s.db || s.db[id].version != t.loaded[id].version)
  }

  /** No net change emits nothing; a row another transaction holds is waited for; a moved version ends the transaction. */
  function FlushItem(s: State, tx: TxId, id: ItemId, edit: Edit): State
    requires tx in s.txs && id in s.txs[tx].loaded && id in s.txs[tx].calls
  {
    var t := s.txs[tx];
    if NoChange(t, id, edit) || HeldByOther(s, tx, id) then s
    else if Stale(s, t, id) then EndTx(s, tx)
    else s.(txs := s.txs[tx := Wrote(t, id, edit)], locks := s.locks[id := tx])
  }

  function CommitTx(s: State, tx: TxId): State
    requires tx in s.txs
  {
    var t := s.txs[tx];
    var db := map id | id in s.db :: if id in t.pending && id in t.loaded then t.loaded[id] else s.db[id];
    var history := map id | id in s.history ::
      if id in t.pending then s.history[id].(writes := s.history[id].writes + t.pending[id]) else s.history[id];
    EndTx(s.(db := db, history := history), tx)
  }

  function Next(s: State, act: Action): State {
    match act
    case Create(id, owner, title, description) =>
      if id in s.db then s
      else
        var first := Row(1, Content(owner, title, description, None));
        s.(db := s.db[id := first], history := s.history[id := Timeline(first, [])])
    case Serve(id, owner) =>
      if id in s.db && Visible(s.db[id], owner) then s.(served := s.served + {(id, s.db[id], owner)}) else s
    case Begin(tx) => if tx in s.txs then s else s.(txs := s.txs[tx := Tx(map[], map[], map[])])
    case Load(tx, id, owner, ifMatch) => if tx in s.txs then LoadItem(s, tx, id, owner, ifMatch) else s
    case Flush(tx, id, edit) =>
      if tx in s.txs && id in s.txs[tx].loaded && id in s.txs[tx].calls then FlushItem(s, tx, id, edit) else s
    case Commit(tx) => if tx in s.txs then CommitTx(s, tx) else s
    case Rollback(tx) => EndTx(s, tx)
  }

  function Exec(s: State, acts: seq<Action>): State
    decreases |acts|
  {
    if acts == [] then s else Exec(Next(s, acts[0]), acts[1..])
  }

  // ----- Chains of writes -----

  function LastRow(first: Row, ws: seq<Write>): Row {
    if ws == [] then first else ws[|ws| - 1].result
  }

  /** A write by the item's owner that starts from `before`, not deleted, moves its version on by one, and was asked for at that version if at any. */
  predicate Follows(w: Write, before: Row) {
    && w.base == before
    && w.result == Row(before.version + 1, Apply(w.edit, before.content))
    && (w.ifMatch.Some? ==> w.ifMatch.value == before.version)
    && w.author == before.content.owner && before.content.deletedAt.None?
  }

  /** Each write starts from exactly what the one before it left. */
  ghost predicate Chain(first: Row, ws: seq<Write>) {
    forall i :: 0 <= i < |ws| ==> Follows(ws[i], LastRow(first, ws[..i]))
  }

  lemma LastRowConcat(first: Row, a: seq<Write>, b: seq<Write>)
    ensures LastRow(first, a + b) == LastRow(LastRow(first, a), b)
  {
    if b == [] {
      assert a + b == a;
    }
  }

  lemma ChainAppend(first: Row, a: seq<Write>, b: seq<Write>)
    requires Chain(first, a) && Chain(LastRow(first, a), b)
    ensures Chain(first, a + b) && LastRow(first, a + b) == LastRow(LastRow(first, a), b)
  {
    var ws := a + b;
    LastRowConcat(first, a, b);
    forall i | 0 <= i < |ws|
      ensures Follows(ws[i], LastRow(first, ws[..i]))
    {
      if i < |a| {
        assert ws[..i] == a[..i];
      } else {
        var j := i - |a|;
        assert Follows(b[j], LastRow(LastRow(first, a), b[..j]));
        LastRowConcat(first, a, b[..j]);
        assert ws[..i] == a + b[..j];
      }
    }
  }

  lemma {:induction false} VersionsCount(first: Row, ws: seq<Write>)
    requires Chain(first, ws)
    ensures LastRow(first, ws).version == first.version + |ws|
  {
    if ws != [] {
      var n := |ws| - 1;
      assert forall i :: 0 <= i < n ==> ws[..n][..i] == ws[..i];
      VersionsCount(first, ws[..n]);
    }
  }

  /** The row an item had at a version. */
  function RowAt(h: Timeline, version: int): Row
    requires 1 <= version <= |h.writes| + 1
  {
    LastRow(h.first, h.writes[..version - 1])
  }

  lemma PrefixChain(first: Row, ws: seq<Write>, n: nat)
    requires Chain(first, ws) && n <= |ws|
    ensures Chain(first, ws[..n])
  {
  }

  // ----- The invariant -----

  type History = map<ItemId, Timeline>

  /** A row that was, at some moment, the committed state of the item. */
  ghost predicate WasCommitted(h: History, id: ItemId, r: Row) {
    id in h && 1 <= r.version <= |h[id].writes| + 1 && r == RowAt(h[id], r.version)
  }

  ghost predicate HistorySound(db: map<ItemId, Row>, h: History) {
    && db.Keys == h.Keys
    && (forall id :: id in db ==>
          && h[id].first.version == 1
          && Chain(h[id].first, h[id].writes)
          && db[id] == LastRow(h[id].first, h[id].writes))
  }

  ghost predicate Continues(db: map<ItemId, Row>, locks: map<ItemId, TxId>, tx: TxId, t: Tx, id: ItemId)
    requires id in t.pending
  {
    && id in t.loaded && id in db && id in locks && locks[id] == tx
    && Chain(db[id], t.pending[id])
    && t.loaded[id] == LastRow(db[id], t.pending[id])
  }

  /** The copy is the caller's, not deleted, and at the version insisted on. */
  predicate Answers(call: Call, r: Row) {
    && r.content.owner == call.owner && r.content.deletedAt.None?
    && (call.ifMatch.Some? ==> call.ifMatch.value == r.version)
  }

  /** A copy is some committed row until it is written; a written row is held, and continues the committed chain. */
  ghost predicate TxSound(db: map<ItemId, Row>, locks: map<ItemId, TxId>, h: History, tx: TxId, t: Tx) {
    && (forall id :: id in t.loaded && id !in t.pending ==> WasCommitted(h, id, t.loaded[id]))
    && (forall id :: id in t.loaded && id !in t.pending ==> t.loaded[id].content.deletedAt.None?)
    && (forall id :: id in t.calls ==> id in t.loaded && Answers(t.calls[id], t.loaded[id]))
    && (forall id :: id in t.pending ==> Continues(db, locks, tx, t, id))
  }

  /** What was served was committed, not deleted, and the asker's own. */
  ghost predicate WasServed(h: History, p: (ItemId, Row, int)) {
    WasCommitted(h, p.0, p.1) && p.1.content.owner == p.2 && p.1.content.deletedAt.None?
  }

  /** A lock is held by a transaction that is still open. */
  ghost predicate LocksHeld(locks: map<ItemId, TxId>, txs: map<TxId, Tx>) {
    forall id :: id in locks ==> locks[id] in txs
  }

  ghost predicate Inv(s: State) {
    && HistorySound(s.db, s.history)
    && LocksHeld(s.locks, s.txs)
    && (forall p :: p in s.served ==> WasServed(s.history, p))
    && (forall tx :: tx in s.txs ==> TxSound(s.db, s.locks, s.history, tx, s.txs[tx]))
  }

  lemma CommittedRowAtItsVersion(db: map<ItemId, Row>, h: History, id: ItemId)
    requires HistorySound(db, h) && id in db
    ensures WasCommitted(h, id, db[id])
  {
    VersionsCount(h[id].first, h[id].writes);
    assert h[id].writes[..|h[id].writes|] == h[id].writes;
  }

  lemma EndKeepsInv(s: State, tx: TxId)
    requires HistorySound(s.db, s.history) && LocksHeld(s.locks, s.txs)
    requires forall p :: p in s.served ==> WasServed(s.history, p)
    requires forall o :: o in s.txs && o != tx ==> TxSound(s.db, s.locks, s.history, o, s.txs[o])
    ensures Inv(EndTx(s, tx))
  {
    var t := EndTx(s, tx);
    forall o | o in t.txs
      ensures TxSound(t.db, t.locks, t.history, o, t.txs[o])
    {
      assert TxSound(s.db, s.locks, s.history, o, s.txs[o]);
      assert forall id :: id in s.txs[o].pending ==> Continues(s.db, s.locks, o, s.txs[o], id);
    }
  }

  lemma {:induction false} OwnerNeverChanges(first: Row, ws: seq<Write>)
    requires Chain(first, ws)
    ensures LastRow(first, ws).content.owner == first.content.owner
  {
    if ws != [] {
      var n := |ws| - 1;
      PrefixChain(first, ws, n);
      OwnerNeverChanges(first, ws[..n]);
      assert Follows(ws[n], LastRow(first, ws[..n]));
    }
  }

  lemma CommittedOwner(s: State, id: ItemId, r: Row)
    requires HistorySound(s.db, s.history) && WasCommitted(s.history, id, r)
    ensures id in s.db && r.content.owner == s.db[id].content.owner
  {
    var h := s.history[id];
    OwnerNeverChanges(h.first, h.writes);
    PrefixChain(h.first, h.writes, r.version - 1);
    OwnerNeverChanges(h.first, h.writes[..r.version - 1]);
  }

  /** Even a copy the session already held is the caller's own and not deleted. */
  lemma LoadedCopyIsTheCallers(s: State, tx: TxId, id: ItemId, owner: int, ifMatch: Option<int>)
    requires Inv(s) && tx in s.txs
    requires Loadable(s, s.txs[tx], id, owner, ifMatch).Some?
    ensures Answers(Call(owner, ifMatch), Loadable(s, s.txs[tx], id, owner, ifMatch).value)
  {
    var t := s.txs[tx];
    assert TxSound(s.db, s.locks, s.history, tx, t);
    if id in t.pending {
      assert Continues(s.db, s.locks, tx, t, id);
    } else if id in t.loaded {
      CommittedOwner(s, id, t.loaded[id]);
    }
  }

  lemma HoldingIsSound(s: State, tx: TxId, id: ItemId, owner: int, ifMatch: Option<int>)
    requires Inv(s) && tx in s.txs
    requires Loadable(s, s.txs[tx], id, owner, ifMatch).Some?
    ensures var row := Loadable(s, s.txs[tx], id, owner, ifMatch).value;
      TxSound(s.db, s.locks, s.history, tx, Holding(s.txs[tx], id, row, Call(owner, ifMatch)))
  {
    var t := s.txs[tx];
    var row := Loadable(s, t, id, owner, ifMatch).value;
    var after := Holding(t, id, row, Call(owner, ifMatch));
    assert TxSound(s.db, s.locks, s.history, tx, t);
    if id in s.db {
      CommittedRowAtItsVersion(s.db, s.history, id);
    }
    LoadedCopyIsTheCallers(s, tx, id, owner, ifMatch);
    forall i | i in after.pending
      ensures Continues(s.db, s.locks, tx, after, i)
    {
      assert Continues(s.db, s.locks, tx, t, i);
    }
  }

  lemma LoadKeepsInv(s: State, tx: TxId, id: ItemId, owner: int, ifMatch: Option<int>)
    requires Inv(s) && tx in s.txs
    ensures Inv(LoadItem(s, tx, id, owner, ifMatch))
  {
    if Loadable(s, s.txs[tx], id, owner, ifMatch).None? {
      EndKeepsInv(s, tx);
    } else {
      HoldingIsSound(s, tx, id, owner, ifMatch);
    }
  }

  lemma WroteKeepsChain(first: Row, t: Tx, id: ItemId, edit: Edit)
    requires id in t.loaded
    requires id in t.pending ==> Chain(first, t.pending[id]) && t.loaded[id] == LastRow(first, t.pending[id])
    requires id !in t.pending ==> t.loaded[id] == first
    requires id in t.calls && Answers(t.calls[id], t.loaded[id])
    ensures var w := Wrote(t, id, edit);
      Chain(first, w.pending[id]) && w.loaded[id] == LastRow(first, w.pending[id])
  {
    var before := if id in t.pending then t.pending[id] else [];
    var after := Wrote(t, id, edit).pending[id];
    assert after == before + [after[|before|]] && after[..|before|] == before;
    assert Follows(after[|before|], LastRow(first, before));
    forall i | 0 <= i < |after|
      ensures Follows(after[i], LastRow(first, after[..i]))
    {
      if i < |before| {
        assert after[..i] == before[..i];
        assert Follows(before[i], LastRow(first, before[..i]));
      }
    }
  }

  lemma WrittenItemContinues(s: State, tx: TxId, id: ItemId, edit: Edit)
    requires Inv(s) && tx in s.txs && id in s.txs[tx].loaded && id in s.txs[tx].calls && !Stale(s, s.txs[tx], id)
    ensures Continues(s.db, s.locks[id := tx], tx, Wrote(s.txs[tx], id, edit), id)
  {
    var t := s.txs[tx];
    assert TxSound(s.db, s.locks, s.history, tx, t);
    if id in t.pending {
      assert Continues(s.db, s.locks, tx, t, id);
    } else {
      CommittedRowAtItsVersion(s.db, s.history, id);
      assert WasCommitted(s.history, id, t.loaded[id]);
    }
    WroteKeepsChain(s.db[id], t, id, edit);
  }

  lemma WrittenTxIsSound(s: State, tx: TxId, id: ItemId, edit: Edit)
    requires Inv(s) && tx in s.txs && id in s.txs[tx].loaded && id in s.txs[tx].calls && !Stale(s, s.txs[tx], id)
    ensures TxSound(s.db, s.locks[id := tx], s.history, tx, Wrote(s.txs[tx], id, edit))
  {
    var t := s.txs[tx];
    var w := Wrote(t, id, edit);
    assert TxSound(s.db, s.locks, s.history, tx, t);
    forall i | i in w.pending
      ensures Continues(s.db, s.locks[id := tx], tx, w, i)
    {
      if i == id {
        WrittenItemContinues(s, tx, id, edit);
      } else {
        assert Continues(s.db, s.locks, tx, t, i);
      }
    }
  }

  lemma LockKeepsOthersSound(s: State, tx: TxId, id: ItemId, o: TxId)
    requires Inv(s) && o in s.txs && o != tx && !HeldByOther(s, tx, id)
    ensures TxSound(s.db, s.locks[id := tx], s.history, o, s.txs[o])
  {
  }

  lemma FlushKeepsInv(s: State, tx: TxId, id: ItemId, edit: Edit)
    requires Inv(s) && tx in s.txs && id in s.txs[tx].loaded && id in s.txs[tx].calls
    ensures Inv(FlushItem(s, tx, id, edit))
  {
    if !NoChange(s.txs[tx], id, edit) && !HeldByOther(s, tx, id) {
      if Stale(s, s.txs[tx], id) {
        EndKeepsInv(s, tx);
      } else {
        WrittenTxIsSound(s, tx, id, edit);
        forall o | o in s.txs && o != tx
          ensures TxSound(s.db, s.locks[id := tx], s.history, o, s.txs[o])
        {
          LockKeepsOthersSound(s, tx, id, o);
        }
      }
    }
  }

  lemma TimelineGrows(h: History, h': History, id: ItemId, r: Row)
    requires WasCommitted(h, id, r)
    requires id in h' && h'[id].first == h[id].first && h[id].writes <= h'[id].writes
    ensures WasCommitted(h', id, r)
  {
  }

  lemma CommitKeepsHistory(s: State, tx: TxId)
    requires Inv(s) && tx in s.txs
    ensures HistorySound(CommitTx(s, tx).db, CommitTx(s, tx).history)
  {
    var t := CommitTx(s, tx);
    assert TxSound(s.db, s.locks, s.history, tx, s.txs[tx]);
    forall id | id in t.db
      ensures t.history[id].first.version == 1
      ensures Chain(t.history[id].first, t.history[id].writes)
      ensures t.db[id] == LastRow(t.history[id].first, t.history[id].writes)
    {
      if id in s.txs[tx].pending {
        assert Continues(s.db, s.locks, tx, s.txs[tx], id);
        ChainAppend(s.history[id].first, s.history[id].writes, s.txs[tx].pending[id]);
      }
    }
  }

  lemma OtherTxSurvivesCommit(s: State, tx: TxId, o: TxId)
    requires Inv(s) && tx in s.txs && o in s.txs && o != tx
    ensures var t := CommitTx(s, tx);
      TxSound(t.db, t.locks, t.history, o, t.txs[o])
  {
    var t := CommitTx(s, tx);
    var other := s.txs[o];
    assert TxSound(s.db, s.locks, s.history, tx, s.txs[tx]);
    assert TxSound(s.db, s.locks, s.history, o, other);
    forall id | id in other.loaded && id !in other.pending
      ensures WasCommitted(t.history, id, other.loaded[id])
    {
      TimelineGrows(s.history, t.history, id, other.loaded[id]);
    }
    forall id | id in other.pending
      ensures Continues(t.db, t.locks, o, other, id)
    {
      assert Continues(s.db, s.locks, o, other, id);
      assert id in s.txs[tx].pending ==> Continues(s.db, s.locks, tx, s.txs[tx], id);
    }
  }

  lemma CommitKeepsInv(s: State, tx: TxId)
    requires Inv(s) && tx in s.txs
    ensures Inv(CommitTx(s, tx))
  {
    var t := CommitTx(s, tx);
    CommitKeepsHistory(s, tx);
    forall p | p in t.served
      ensures WasServed(t.history, p)
    {
      TimelineGrows(s.history, t.history, p.0, p.1);
    }
    forall o | o in t.txs
      ensures TxSound(t.db, t.locks, t.history, o, t.txs[o])
    {
      OtherTxSurvivesCommit(s, tx, o);
    }
  }

  lemma CreateKeepsInv(s: State, act: Action)
    requires Inv(s) && act.Create? && act.id !in s.db
    ensures Inv(Next(s, act))
  {
    var t := Next(s, act);
    forall i, r | WasCommitted(s.history, i, r)
      ensures WasCommitted(t.history, i, r)
    {
      TimelineGrows(s.history, t.history, i, r);
    }
    forall o | o in t.txs
      ensures TxSound(t.db, t.locks, t.history, o, t.txs[o])
    {
      assert TxSound(s.db, s.locks, s.history, o, s.txs[o]);
      assert forall i :: i in s.txs[o].pending ==> Continues(s.db, s.locks, o, s.txs[o], i);
    }
  }

  lemma StepKeepsInv(s: State, act: Action)
    requires Inv(s)
    ensures Inv(Next(s, act))
  {
    match act
    case Create(id, _, _, _) =>
      if id !in s.db {
        CreateKeepsInv(s, act);
      }
    case Serve(id, owner) =>
      if id in s.db {
        CommittedRowAtItsVersion(s.db, s.history, id);
      }
    case Begin(tx) =>
    case Load(tx, id, owner, ifMatch) =>
      if tx in s.txs {
        LoadKeepsInv(s, tx, id, owner, ifMatch);
      }
    case Flush(tx, id, edit) =>
      if tx in s.txs && id in s.txs[tx].loaded && id in s.txs[tx].calls {
        FlushKeepsInv(s, tx, id, edit);
      }
    case Commit(tx) =>
      if tx in s.txs {
        CommitKeepsInv(s, tx);
      }
    case Rollback(tx) =>
      EndKeepsInv(s, tx);
  }

  lemma {:induction false} RunKeepsInv(s: State, acts: seq<Action>)
    requires Inv(s)
    ensures Inv(Exec(s, acts))
    decreases |acts|
  {
    if acts != [] {
      StepKeepsInv(s, acts[0]);
      RunKeepsInv(Next(s, acts[0]), acts[1..]);
    }
  }

  // ----- The theorems -----

  function Replayed(c: Content, ws: seq<Write>): Content {
    if ws == [] then c else Apply(ws[|ws| - 1].edit, Replayed(c, ws[..|ws| - 1]))
  }

  lemma {:induction false} ChainReplays(first: Row, ws: seq<Write>)
    requires Chain(first, ws)
    ensures LastRow(first, ws).content == Replayed(first.content, ws)
  {
    if ws != [] {
      var n := |ws| - 1;
      PrefixChain(first, ws, n);
      ChainReplays(first, ws[..n]);
    }
  }

  /**
    No lost update: over any interleaving of any number of transactions, the committed writes
    to an item form one chain of versions 1, 2, 3, ..., each computed from its predecessor,
    so the item is what applying every committed edit in turn makes of it.
  */
  lemma NoLostUpdate(acts: seq<Action>, id: ItemId)
    requires id in Exec(Init(), acts).db
    ensures var s := Exec(Init(), acts);
      && id in s.history
      && var h := s.history[id];
         && h.first.version == 1 && Chain(h.first, h.writes)
         && s.db[id] == Row(1 + |h.writes|, Replayed(h.first.content, h.writes))
  {
    RunKeepsInv(Init(), acts);
    var h := Exec(Init(), acts).history[id];
    VersionsCount(h.first, h.writes);
    ChainReplays(h.first, h.writes);
  }

  /** The i-th write of an item starts from the row that was committed at version i + 1. */
  lemma WriteStartsFromItsVersion(h: Timeline, i: nat)
    requires Chain(h.first, h.writes) && h.first.version == 1 && i < |h.writes|
    ensures h.writes[i].base == RowAt(h, i + 1) && h.writes[i].base.version == i + 1
    ensures Follows(h.writes[i], h.writes[i].base)
  {
    assert Follows(h.writes[i], LastRow(h.first, h.writes[..i]));
    PrefixChain(h.first, h.writes, i);
    VersionsCount(h.first, h.writes[..i]);
  }

  /**
    A committed write that came with the tag W/"n" was applied to version n, and to exactly
    the content that anyone was ever served under that tag.
  */
  lemma IfMatchMeansWhatWasServed(acts: seq<Action>, id: ItemId, i: nat, n: int, seen: Row, reader: int)
    requires var s := Exec(Init(), acts);
      && id in s.history && i < |s.history[id].writes|
      && s.history[id].writes[i].ifMatch == Some(n)
      && (id, seen, reader) in s.served && EtagFor(seen.version) == EtagFor(n)
    ensures var w := Exec(Init(), acts).history[id].writes[i];
      n == i + 1 && w.base == seen && w.result.content == Apply(w.edit, seen.content)
  {
    RunKeepsInv(Init(), acts);
    var s := Exec(Init(), acts);
    var h := s.history[id];
    ServedTagIsAccepted(n);
    ServedTagIsAccepted(seen.version);
    assert HistorySound(s.db, s.history) && id in s.db;
    WriteStartsFromItsVersion(h, i);
    assert n == seen.version == i + 1;
    assert WasServed(s.history, (id, seen, reader));
  }

  /**
    Over every run, each committed write to an item was made by its one owner, to a row that was
    not deleted: a deletion is the last write there is.
  */
  lemma OnlyTheOwnerWrites(acts: seq<Action>, id: ItemId, i: nat)
    requires var s := Exec(Init(), acts);
      id in s.history && i < |s.history[id].writes|
    ensures var s := Exec(Init(), acts);
      var w := s.history[id].writes[i];
      && id in s.db && w.author == s.db[id].content.owner == s.history[id].first.content.owner
      && w.base.content.deletedAt.None?
      && (w.edit.SoftDelete? ==> i == |s.history[id].writes| - 1)
  {
    RunKeepsInv(Init(), acts);
    var s := Exec(Init(), acts);
    var h := s.history[id];
    assert HistorySound(s.db, s.history) && id in s.db;
    WriteStartsFromItsVersion(h, i);
    OwnerNeverChanges(h.first, h.writes);
    PrefixChain(h.first, h.writes, i);
    OwnerNeverChanges(h.first, h.writes[..i]);
    if i + 1 < |h.writes| {
      WriteStartsFromItsVersion(h, i + 1);
      assert h.writes[..i + 1][i] == h.writes[i];
    }
  }

  /** And nobody is ever shown an item that is not their own, or was deleted when it was read. */
  lemma OnlyTheOwnerIsServed(acts: seq<Action>, id: ItemId, seen: Row, reader: int)
    requires (id, seen, reader) in Exec(Init(), acts).served
    ensures var s := Exec(Init(), acts);
      && id in s.db && s.db[id].content.owner == reader
      && seen.content.owner == reader && seen.content.deletedAt.None?
  {
    RunKeepsInv(Init(), acts);
    var s := Exec(Init(), acts);
    assert WasServed(s.history, (id, seen, reader));
    CommittedOwner(s, id, seen);
  }

  // ----- An edit nobody disturbs -----

  /** One service call in a transaction of its own. */
  function Alone(s: State, tx: TxId, id: ItemId, call: Call, edit: Edit): State {
    Next(Next(Next(Next(s, Begin(tx)), Load(tx, id, call.owner, call.ifMatch)), Flush(tx, id, edit)), Commit(tx))
  }

  /** The owner's edit at the right version takes effect, exactly once, and touches no other item. */
  lemma UndisturbedEditTakesEffect(s: State, tx: TxId, id: ItemId, call: Call, edit: Edit, other: ItemId)
    requires tx !in s.txs && id !in s.locks && id in s.db && other in s.db
    requires s.db[id].content.owner == call.owner && s.db[id].content.deletedAt.None?
    requires call.ifMatch.Some? ==> call.ifMatch.value == s.db[id].version
    requires Apply(edit, s.db[id].content) != s.db[id].content
    ensures var t := Alone(s, tx, id, call, edit);
      && id in t.db && t.db[id] == Row(s.db[id].version + 1, Apply(edit, s.db[id].content))
      && other in t.db && (other != id ==> t.db[other] == s.db[other])
  {
    var begun := Next(s, Begin(tx));
    var held := Next(begun, Load(tx, id, call.owner, call.ifMatch));
    assert held.txs[tx] == Tx(map[id := s.db[id]], map[id := call], map[]);
    var written := Next(held, Flush(tx, id, edit));
    assert id in written.txs[tx].pending && written.txs[tx].pending.Keys == {id};
  }

  /** Anybody else's, a stale one, or one to a deleted or missing item is refused and changes nothing. */
  lemma OtherEditsAreRefused(s: State, tx: TxId, id: ItemId, call: Call, edit: Edit)
    requires tx !in s.txs
    requires id !in s.db || s.db[id].content.owner != call.owner || s.db[id].content.deletedAt.Some?
             || (call.ifMatch.Some? && call.ifMatch.value != s.db[id].version)
    ensures Alone(s, tx, id, call, edit).db == s.db && Alone(s, tx, id, call, edit).history == s.history
  {
  }

  /** A run one step longer. */
  lemma {:induction false} OneMoreStep(s: State, acts: seq<Action>, act: Action)
    ensures Exec(s, acts + [act]) == Next(Exec(s, acts), act)
    decreases |acts|
  {
    if acts == [] {
      assert acts + [act] == [act];
      assert Exec(Next(s, act), [act][1..]) == Next(s, act);
    } else {
      assert (acts + [act])[1..] == acts[1..] + [act];
      OneMoreStep(Next(s, acts[0]), acts[1..], act);
    }
  }

  /** Once every transaction has ended, no item is locked. */
  lemma NoLockOutlivesItsTransaction(acts: seq<Action>)
    requires forall tx :: tx !in Exec(Init(), acts).txs
    ensures forall id :: id !in Exec(Init(), acts).locks
  {
    RunKeepsInv(Init(), acts);
  }

  /** A new item starts at version 1 as its owner's, live; its owner, and who else but the owner, is served what is committed. */
  lemma CreatedAndServed(s: State, id: ItemId, owner: int, title: string, description: Option<string>, reader: int)
    requires id !in s.db
    ensures var t := Next(s, Create(id, owner, title, description));
      && t.db == s.db[id := Row(1, Content(owner, title, description, None))]
      && Next(t, Serve(id, reader)).served == if reader == owner then t.served + {(id, t.db[id], owner)} else t.served
  {
  }

  /** A transaction has written the item, holds it, and sees `row`. */
  predicate HasWritten(s: State, tx: TxId, id: ItemId, row: Row) {
    && tx in s.txs && id in s.txs[tx].pending && id in s.txs[tx].loaded && s.txs[tx].loaded[id] == row
    && id in s.locks && s.locks[id] == tx && id in s.db
  }

  lemma FirstEdit(s: State, tx: TxId, id: ItemId, owner: int, edit: Edit)
    requires tx !in s.txs && id !in s.locks && id in s.db
    requires s.db[id].content.owner == owner && s.db[id].content.deletedAt.None?
    requires Apply(edit, s.db[id].content) != s.db[id].content
    ensures var t := Next(Next(Next(s, Begin(tx)), Load(tx, id, owner, None)), Flush(tx, id, edit));
      HasWritten(t, tx, id, Row(s.db[id].version + 1, Apply(edit, s.db[id].content)))
  {
    var held := Next(Next(s, Begin(tx)), Load(tx, id, owner, None));
    assert held.txs[tx] == Tx(map[id := s.db[id]], map[id := Call(owner, None)], map[]);
  }

  lemma LaterEdit(s: State, tx: TxId, id: ItemId, row: Row, owner: int, edit: Edit)
    requires HasWritten(s, tx, id, row)
    requires row.content.owner == owner && row.content.deletedAt.None? && Apply(edit, row.content) != row.content
    ensures var t := Next(Next(s, Load(tx, id, owner, Some(row.version))), Flush(tx, id, edit));
      HasWritten(t, tx, id, Row(row.version + 1, Apply(edit, row.content)))
  {
    var again := Next(s, Load(tx, id, owner, Some(row.version)));
    assert HasWritten(again, tx, id, row) && again.txs[tx].calls[id] == Call(owner, Some(row.version));
  }

  lemma WrittenIsCommitted(s: State, tx: TxId, id: ItemId, row: Row)
    requires HasWritten(s, tx, id, row)
    ensures id in Next(s, Commit(tx)).db && Next(s, Commit(tx)).db[id] == row
  {
  }

  /** A transaction reads its own writes and may write again: two edits in one transaction are two versions. */
  lemma TwoEditsInOneTransaction(s: State, tx: TxId, id: ItemId, owner: int, one: Edit, two: Edit)
    requires tx !in s.txs && id !in s.locks && id in s.db && one.Update?
    requires s.db[id].content.owner == owner && s.db[id].content.deletedAt.None?
    requires Apply(one, s.db[id].content) != s.db[id].content
    requires Apply(two, Apply(one, s.db[id].content)) != Apply(one, s.db[id].content)
    ensures var first := Next(Next(Next(s, Begin(tx)), Load(tx, id, owner, None)), Flush(tx, id, one));
      var second := Next(Next(first, Load(tx, id, owner, Some(s.db[id].version + 1))), Flush(tx, id, two));
      && id in Next(second, Commit(tx)).db
      && Next(second, Commit(tx)).db[id] == Row(s.db[id].version + 2, Apply(two, Apply(one, s.db[id].content)))
  {
    var first := Next(Next(Next(s, Begin(tx)), Load(tx, id, owner, None)), Flush(tx, id, one));
    var row := Row(s.db[id].version + 1, Apply(one, s.db[id].content));
    FirstEdit(s, tx, id, owner, one);
    LaterEdit(first, tx, id, row, owner, two);
    var second := Next(Next(first, Load(tx, id, owner, Some(row.version))), Flush(tx, id, two));
    WrittenIsCommitted(second, tx, id, Row(row.version + 1, Apply(two, row.content)));
  }

  /** A transaction begins once; what it holds is not dropped. */
  lemma BeginsOnce(s: State, tx: TxId)
    ensures tx in s.txs ==> Next(s, Begin(tx)) == s
    ensures tx !in s.txs ==> Next(s, Begin(tx)).txs == s.txs[tx := Tx(map[], map[], map[])]
  {
  }

  /** A rollback ends the transaction, frees what it held, and leaves no trace of what it wrote. */
  lemma RollbackLeavesNothing(s: State, tx: TxId, id: ItemId)
    ensures var t := Next(s, Rollback(tx));
      && t.db == s.db && t.history == s.history && t.served == s.served
      && tx !in t.txs && (id in t.locks <==> id in s.locks && s.locks[id] != tx)
  {
  }

  /** A session keeps the copy it has: loading again does not refresh it, so a tag is checked against that copy. */
  lemma LoadingAgainKeepsTheCopy(s: State, tx: TxId, id: ItemId, owner: int)
    requires tx in s.txs && id in s.txs[tx].loaded && id !in s.txs[tx].pending
    requires id in s.db && s.db[id].content.owner == owner && s.db[id].content.deletedAt.None?
    ensures var t := Next(s, Load(tx, id, owner, None));
      tx in t.txs && t.txs[tx].loaded == s.txs[tx].loaded
  {
  }

  /** A patch or delete request: the header is read before anything else. */
  function Request(s: State, tx: TxId, id: ItemId, owner: int, header: Option<string>, edit: Edit): State {
    match RequireIfMatch(header)
    case Missing => s
    case Unreadable => s
    case AnyVersion => Alone(s, tx, id, Call(owner, None), edit)
    case Version(n) => Alone(s, tx, id, Call(owner, Some(n)), edit)
  }

  /** The owner's undisturbed request takes effect with the star or the tag of the present version, and with no other tag. */
  lemma HeaderDecides(s: State, tx: TxId, id: ItemId, owner: int, edit: Edit, n: int)
    requires tx !in s.txs && id !in s.locks && id in s.db
    requires s.db[id].content.owner == owner && s.db[id].content.deletedAt.None?
    requires Apply(edit, s.db[id].content) != s.db[id].content
    ensures Request(s, tx, id, owner, None, edit) == s && Request(s, tx, id, owner, Some(""), edit) == s
    ensures var starred := Request(s, tx, id, owner, Some("*"), edit).db;
      id in starred && starred[id] == Row(s.db[id].version + 1, Apply(edit, s.db[id].content))
    ensures var tagged := Request(s, tx, id, owner, Some(EtagFor(n)), edit).db;
      && id in tagged
      && (n == s.db[id].version ==> tagged[id] == Row(n + 1, Apply(edit, s.db[id].content)))
      && (n != s.db[id].version ==> tagged == s.db)
  {
    OtherHeaders();
    ServedTagIsAccepted(n);
    UndisturbedEditTakesEffect(s, tx, id, Call(owner, None), edit, id);
    if n == s.db[id].version {
      UndisturbedEditTakesEffect(s, tx, id, Call(owner, Some(n)), edit, id);
    } else {
      OtherEditsAreRefused(s, tx, id, Call(owner, Some(n)), edit);
    }
  }

  // ----- The objects a session edits -----

  datatype Field = Title(title: string) | Description(description: Option<string>)

  /** The fields a patch carries, as the dictionary the service loops over. */
  function FieldsOf(title: Option<string>, description: Option<Option<string>>): seq<Field> {
    (if title.Some? then [Title(title.value)] else [])
    + (if description.Some? then [Description(description.value)] else [])
  }

  function SetField(c: Content, f: Field): Content {
    match f
    case Title(title) => c.(title := title)
    case Description(description) => c.(description := description)
  }

  function SetFields(c: Content, fs: seq<Field>): Content {
    if fs == [] then c else SetField(SetFields(c, fs[..|fs| - 1]), fs[|fs| - 1])
  }

  /** Setting the given fields one by one is the edit the transactions apply. */
  lemma PatchIsTheEdit(c: Content, title: Option<string>, description: Option<Option<string>>)
    ensures SetFields(c, FieldsOf(title, description)) == Apply(Update(title, description), c)
  {
    var fs := FieldsOf(title, description);
    if title.Some? {
      assert [Title(title.value)][..0] == [];
      assert SetFields(c, [Title(title.value)]) == SetField(SetFields(c, []), Title(title.value));
    }
    if description.Some? {
      assert fs[..|fs| - 1] == if title.Some? then [Title(title.value)] else [];
      assert SetFields(c, fs) == SetField(SetFields(c, fs[..|fs| - 1]), Description(description.value));
    }
  }

  /** What closing an account does to one item. */
  function ClosedWith(c: Content, owner: int, now: Time): Content {
    if c.owner == owner && c.deletedAt.None? then Apply(SoftDelete(now), c) else c
  }

  class Item {
    var content: Content

    constructor (content: Content)
      ensures this.content == content
    {
      this.content := content;
    }

    method SetAttribute(f: Field)
      modifies this
      ensures content == SetField(old(content), f)
    {
      match f
      case Title(title) => content := content.(title := title);
      case Description(description) => content := content.(description := description);
    }

    method Patch(title: Option<string>, description: Option<Option<string>>)
      modifies this
      ensures content == Apply(Update(title, description), old(content))
    {
      var fs := FieldsOf(title, description);
      for i := 0 to |fs|
        invariant content == SetFields(old(content), fs[..i])
      {
        assert fs[..i + 1][..i] == fs[..i];
        SetAttribute(fs[i]);
      }
      assert fs[..|fs|] == fs;
      PatchIsTheEdit(old(content), title, description);
    }

    method MarkDeleted(now: Time)
      modifies this
      ensures content == Apply(SoftDelete(now), old(content))
    {
      content := content.(deletedAt := Some(now));
    }
  }

  /** Everything live the owner has goes; nothing else changes, whichever objects are among the loaded ones. */
  method SoftDeleteForOwner(items: seq<Item>, owner: int, now: Time)
    modifies set i | 0 <= i < |items| :: items[i]
    ensures forall i :: 0 <= i < |items| ==> items[i].content == ClosedWith(old(items[i].content), owner, now)
  {
    for i := 0 to |items|
      invariant forall j :: 0 <= j < i ==> items[j].content == ClosedWith(old(items[j].content), owner, now)
      invariant forall j :: 0 <= j < |items| ==>
        items[j].content == old(items[j].content) || items[j].content == ClosedWith(old(items[j].content), owner, now)
    {
      if items[i].content.owner == owner && items[i].content.deletedAt.None? {
        items[i].MarkDeleted(now);
      }
    }
  }
}
