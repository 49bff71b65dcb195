/**
  The table behind the Idempotency-Key header, one transaction at a time: what a claim,
  a completion, a release and a prune do to the rows.  The functions are the specification;
  the class carries the same operations out in place, in the order the service does.
*/
module IdempotencyStore {
  import opened Common
  import opened Fingerprint

  datatype RowKey = RowKey(user: int, key: string)

  datatype StoredResponse = StoredResponse(status: int, body: string, contentType: Option<string>)

  /** A row.  `hash` is the fingerprint's preimage; `createdAt` is never null in the table. */
  datatype Entry = Entry(
    hash: seq<Byte>,
    createdAt: Time,
    status: Option<int>,
    body: Option<string>,
    contentType: Option<string>,
    completedAt: Option<Time>)

  datatype Claim = Fresh | Replay(stored: StoredResponse) | Mismatch | InFlight

  type Table = map<RowKey, Entry>

  function KeyOf(a: Attempt): RowKey {
    RowKey(a.user, a.key)
  }

  function Claimed(hash: seq<Byte>, at: Time): Entry {
    Entry(hash, at, None, None, None, None)
  }

  predicate Unfinished(e: Entry) {
    e.completedAt.None? || e.status.None?
  }

  predicate Abandoned(e: Entry, now: Time, timeout: nat) {
    now - e.createdAt > timeout
  }

  function StoredAnswer(e: Entry): StoredResponse
    requires !Unfinished(e)
  {
    StoredResponse(e.status.value, if e.body.Some? then e.body.value else "", e.contentType)
  }

  /** What a claim that finds a row makes of it: the row afterwards, and the answer. */
  function Resolve(e: Entry, hash: seq<Byte>, now: Time, timeout: nat): (Entry, Claim) {
    if Unfinished(e) && Abandoned(e, now, timeout) then (Claimed(hash, now), Fresh)
    else if e.hash != hash then (e, Mismatch)
    else if Unfinished(e) then (e, InFlight)
    else (e, Replay(StoredAnswer(e)))
  }

  function Completed(e: Entry, r: StoredResponse, now: Time): Entry {
    e.(status := Some(r.status), body := Some(r.body), contentType := r.contentType, completedAt := Some(now))
  }

  function CompleteRow(rows: Table, k: RowKey, r: StoredResponse, now: Time): Table {
    if k in rows then rows[k := Completed(rows[k], r, now)] else rows
  }

  function ReleaseRow(rows: Table, k: RowKey): Table {
    rows - {k}
  }

  predicate PastRetention(e: Entry, now: Time, retention: nat) {
    e.createdAt < now - retention
  }

  /** One batch of the pruner: whichever of the chosen rows are past retention. */
  function PruneRows(rows: Table, chosen: set<RowKey>, now: Time, retention: nat): Table {
    map k | k in rows && !(k in chosen && PastRetention(rows[k], now, retention)) :: rows[k]
  }

  /** A claim nobody competes with, start to finish. */
  function SoloClaim(rows: Table, a: Attempt, now: Time, timeout: nat): (Table, Claim) {
    var k := KeyOf(a);
    if k in rows then
      var (e, c) := Resolve(rows[k], Preimage(a), now, timeout);
      (rows[k := e], c)
    else
      (rows[k := Claimed(Preimage(a), now)], Fresh)
  }

  /**
    A key never wedges: once its row is older than the timeout a claim is not told to wait.
    It is fresh, for any body, exactly when the row is missing or unfinished.
  */
  lemma NeverWedged(rows: Table, a: Attempt, now: Time, timeout: nat)
    requires KeyOf(a) in rows ==> rows[KeyOf(a)].createdAt + timeout < now
    ensures var (after, c) := SoloClaim(rows, a, now, timeout);
      && !c.InFlight?
      && (c.Fresh? <==> KeyOf(a) !in rows || Unfinished(rows[KeyOf(a)]))
      && (c.Fresh? ==> after == rows[KeyOf(a) := Claimed(Preimage(a), now)])
      && (!c.Fresh? ==> after == rows && c.Replay? == (rows[KeyOf(a)].hash == Preimage(a)))
  {
  }

  /**
    Before the timeout an unfinished row answers for itself and is left alone: the same request
    is told to wait, any other that it does not match.
  */
  lemma YoungClaimStands(rows: Table, a: Attempt, now: Time, timeout: nat)
    requires KeyOf(a) in rows && Unfinished(rows[KeyOf(a)]) && now <= rows[KeyOf(a)].createdAt + timeout
    ensures SoloClaim(rows, a, now, timeout)
         == (rows, if rows[KeyOf(a)].hash == Preimage(a) then InFlight else Mismatch)
  {
    assert rows[KeyOf(a) := rows[KeyOf(a)]] == rows;
  }

  /** Completing and then claiming with the same request hands back what was stored, whenever it is asked. */
  lemma CompleteThenClaim(rows: Table, a: Attempt, r: StoredResponse, now: Time, later: Time, timeout: nat)
    requires KeyOf(a) in rows
    ensures var stored := CompleteRow(rows, KeyOf(a), r, now);
      SoloClaim(stored, a, later, timeout)
        == (stored, if rows[KeyOf(a)].hash == Preimage(a) then Replay(r) else Mismatch)
  {
    var stored := CompleteRow(rows, KeyOf(a), r, now);
    assert stored[KeyOf(a) := stored[KeyOf(a)]] == stored;
  }

  class IdempotencyService {
    var rows: Table
    const timeout: nat

    constructor (timeout: nat)
      ensures rows == map[] && this.timeout == timeout
    {
      rows := map[];
      this.timeout := timeout;
    }

    method Get(k: RowKey) returns (found: Option<Entry>)
      ensures found == if k in rows then Some(rows[k]) else None
    {
      if k in rows {
        found := Some(rows[k]);
      } else {
        found := None;
      }
    }

    /** The unique insert: refused, leaving the table alone, when the key is taken. */
    method Insert(k: RowKey, e: Entry) returns (inserted: bool)
      modifies this
      ensures inserted == (k !in old(rows))
      ensures rows == if inserted then old(rows)[k := e] else old(rows)
    {
      inserted := k !in rows;
      if inserted {
        rows := rows[k := e];
      }
    }

    method Restart(k: RowKey, hash: seq<Byte>, now: Time)
      requires k in rows
      modifies this
      ensures rows == old(rows)[k := Claimed(hash, now)]
    {
      var e := rows[k];
      e := e.(hash := hash);
      e := e.(createdAt := now);
      e := e.(status := None);
      e := e.(body := None);
      e := e.(contentType := None);
      e := e.(completedAt := None);
      rows := rows[k := e];
    }

    method ResolveFound(k: RowKey, hash: seq<Byte>, now: Time) returns (c: Claim)
      requires k in rows
      modifies this
      ensures rows == old(rows)[k := Resolve(old(rows)[k], hash, now, timeout).0]
      ensures c == Resolve(old(rows)[k], hash, now, timeout).1
    {
      var e := rows[k];
      if Unfinished(e) && Abandoned(e, now, timeout) {
        Restart(k, hash, now);
        return Fresh;
      }
      if e.hash != hash {
        return Mismatch;
      }
      if Unfinished(e) {
        return InFlight;
      }
      return Replay(StoredAnswer(e));
    }

    method ClaimKey(a: Attempt, now: Time) returns (c: Claim)
      modifies this
      ensures (rows, c) == SoloClaim(old(rows), a, now, timeout)
    {
      var hash := Digest(a);
      var existing := Get(KeyOf(a));
      if existing.Some? {
        c := ResolveFound(KeyOf(a), hash, now);
        return;
      }
      var inserted := Insert(KeyOf(a), Claimed(hash, now));
      assert inserted;
      c := Fresh;
    }

    method Complete(k: RowKey, r: StoredResponse, now: Time)
      modifies this
      ensures rows == CompleteRow(old(rows), k, r, now)
    {
      var entry := Get(k);
      if entry.None? {
        return;
      }
      var e := entry.value;
      e := e.(status := Some(r.status));
      e := e.(body := Some(r.body));
      e := e.(contentType := r.contentType);
      e := e.(completedAt := Some(now));
      rows := rows[k := e];
    }

    method Release(k: RowKey)
      modifies this
      ensures rows == ReleaseRow(old(rows), k)
    {
      var entry := Get(k);
      if entry.Some? {
        rows := rows - {k};
      }
    }
  }
}
