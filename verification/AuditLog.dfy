/**
  The log a session writes while it flushes: the buffer of differences, the entries they
  become, and what the entries about one row, or about one row's links, say over any number
  of flushes that write any number of rows.
*/
module AuditLog {
  import opened Common
  import opened AuditTrail

  const EXCLUDED_TABLES: set<string> :=
    {"audit_logs", "request_logs", "refresh_tokens", "single_use_tokens", "idempotency_keys", "alembic_version"}

  type ObjectId = nat

  /** What a flush is about to do to one many-to-many relationship of an object. */
  datatype LinkHistory = LinkHistory(
    table: string, parentColumn: Column, childColumn: Column, added: seq<ObjectId>, removed: seq<ObjectId>)

  /** A buffered difference; a new row's values, and the keys of linked rows, are read only after the flush. */
  datatype Pending =
    | PendingInsert(id: ObjectId, table: string)
    | PendingRow(table: string, pk: string, kind: Kind, before: Row, after: Row)
    | PendingLink(
        table: string, kind: Kind, parent: ObjectId, child: ObjectId, parentColumn: Column, childColumn: Column)

  function LinksTo(parent: ObjectId, h: LinkHistory, kind: Kind, children: seq<ObjectId>): seq<Pending> {
    if children == [] then []
    else [PendingLink(h.table, kind, parent, children[0], h.parentColumn, h.childColumn)] + LinksTo(parent, h, kind, children[1..])
  }

  /** New links first, then removed ones, relationship by relationship. */
  function LinksOf(parent: ObjectId, hs: seq<LinkHistory>): seq<Pending> {
    if hs == [] then []
    else
      (if hs[0].table in EXCLUDED_TABLES then []
       else LinksTo(parent, hs[0], LINK, hs[0].added) + LinksTo(parent, hs[0], UNLINK, hs[0].removed))
      + LinksOf(parent, hs[1..])
  }

  /** What a session is about to write. */
  datatype Unit =
    | Added(id: ObjectId, table: string, links: seq<LinkHistory>)
    | Dirty(id: ObjectId, table: string, pk: string, obj: Object, links: seq<LinkHistory>)
    | Removed(table: string, pk: string, row: Row)

  datatype Entry = Entry(table: string, pk: Option<string>, record: Record)

  /** An object once the flush has given it its key and defaults; `caption` is its name, if it has one loaded. */
  datatype Flushed = Flushed(pk: Option<string>, row: Row, caption: Option<string>)

  type Flushes = map<ObjectId, Flushed>

  function KeyOf(flushed: Flushes, id: ObjectId): Option<string> {
    if id in flushed then flushed[id].pk else None
  }

  function NoticedRow(u: Unit): seq<Pending> {
    if u.table in EXCLUDED_TABLES then []
    else
      match u
      case Added(id, table, _) => [PendingInsert(id, table)]
      case Dirty(_, table, pk, obj, _) =>
        if After(obj) == map[] then []
        else [PendingRow(table, pk, ActionFor(Before(obj), After(obj)), Before(obj), After(obj))]
      case Removed(table, pk, row) => [PendingRow(table, pk, DELETE, Loaded(row), map[])]
  }

  /** A row's own difference, then its links, which are looked at even for a table that is not audited. */
  function Noticed(u: Unit): seq<Pending> {
    NoticedRow(u) + if u.Removed? then [] else LinksOf(u.id, u.links)
  }

  function Collected(units: seq<Unit>): seq<Pending> {
    if units == [] then [] else Collected(units[..|units| - 1]) + Noticed(units[|units| - 1])
  }

  function KeyJson(key: Option<string>): Json {
    if key.Some? then JText(key.value) else JNull
  }

  function LinkSides(kind: Kind, value: Json): Sides {
    if kind == UNLINK then Sides(value, JNull) else Sides(JNull, value)
  }

  function LinkChanges(flushed: Flushes, p: Pending): Changes
    requires p.PendingLink?
  {
    var ends := map[p.parentColumn := LinkSides(p.kind, KeyJson(KeyOf(flushed, p.parent)))]
                   [p.childColumn := LinkSides(p.kind, KeyJson(KeyOf(flushed, p.child)))];
    var caption := if p.child in flushed then flushed[p.child].caption else None;
    if caption.Some? then ends["name" := LinkSides(p.kind, JText(caption.value))] else ends
  }

  function KeyText(key: Option<string>): string {
    if key.Some? then key.value else "None"
  }

  function RowEntry(length: Changes -> nat, table: string, pk: Option<string>, kind: Kind, changes: Changes): seq<Entry> {
    if changes == map[] then [] else [Entry(table, pk, Record(kind, Cap(length, changes)))]
  }

  /** The entry a buffered difference becomes; a row without any column to show is dropped. */
  function Resolved(length: Changes -> nat, flushed: Flushes, p: Pending): seq<Entry> {
    match p
    case PendingInsert(id, table) =>
      var row := if id in flushed then flushed[id].row else map[];
      RowEntry(length, table, KeyOf(flushed, id), INSERT, ChangesFrom(map[], Loaded(row)))
    case PendingRow(table, pk, kind, before, after) =>
      RowEntry(length, table, Some(pk), kind, ChangesFrom(before, after))
    case PendingLink(table, kind, parent, child, _, _) =>
      var pk := KeyText(KeyOf(flushed, parent)) + ":" + KeyText(KeyOf(flushed, child));
      [Entry(table, Some(pk), Record(kind, Cap(length, LinkChanges(flushed, p))))]
  }

  function Written(length: Changes -> nat, flushed: Flushes, pending: seq<Pending>): seq<Entry> {
    if pending == [] then []
    else Written(length, flushed, pending[..|pending| - 1]) + Resolved(length, flushed, pending[|pending| - 1])
  }

  /** The loop that turns buffered differences into entries. */
  method ResolveAll(length: Changes -> nat, flushed: Flushes, pending: seq<Pending>) returns (rows: seq<Entry>)
    ensures rows == Written(length, flushed, pending)
  {
    rows := [];
    for i := 0 to |pending|
      invariant rows == Written(length, flushed, pending[..i])
    {
      assert pending[..i + 1][..i] == pending[..i];
      rows := rows + Resolved(length, flushed, pending[i]);
    }
    assert pending[..|pending|] == pending;
  }

  /** The loop over what is new, changed or removed. */
  method NoticeAll(units: seq<Unit>) returns (found: seq<Pending>)
    ensures found == Collected(units)
  {
    found := [];
    for i := 0 to |units|
      invariant found == Collected(units[..i])
    {
      assert units[..i + 1][..i] == units[..i];
      found := found + Noticed(units[i]);
    }
    assert units[..|units|] == units;
  }

  lemma Regroup<T>(a: seq<T>, b: seq<T>, c: seq<T>)
    ensures a + b + c == a + (b + c)
  {
  }

  /** One audited flush: what the session held, how it looked afterwards, and whether it failed. */
  datatype Batch = Batch(units: seq<Unit>, flushed: Flushes, fails: bool)

  function WrittenIn(length: Changes -> nat, b: Batch): seq<Entry> {
    if b.fails then [] else Written(length, b.flushed, Collected(b.units))
  }

  function WrittenBy(length: Changes -> nat, bs: seq<Batch>): seq<Entry> {
    if bs == [] then [] else WrittenIn(length, bs[0]) + WrittenBy(length, bs[1..])
  }

  lemma {:induction false} WrittenByOneMore(length: Changes -> nat, bs: seq<Batch>, i: nat)
    requires i < |bs|
    ensures WrittenBy(length, bs[..i + 1]) == WrittenBy(length, bs[..i]) + WrittenIn(length, bs[i])
  {
    if i == 0 {
      assert bs[..1][1..] == [] && bs[..0] == [];
    } else {
      assert bs[..i + 1][1..] == bs[1..][..i] && bs[..i][1..] == bs[1..][..i - 1];
      WrittenByOneMore(length, bs[1..], i - 1);
      Regroup(WrittenIn(length, bs[0]), WrittenBy(length, bs[1..][..i - 1]), WrittenIn(length, bs[i]));
    }
  }

  class AuditBuffer {
    var pending: seq<Pending>
    var trail: seq<Entry>

    constructor ()
      ensures pending == [] && trail == []
    {
      pending, trail := [], [];
    }

    /** Before the flush: everything new, changed or removed, in that order. */
    method Collect(units: seq<Unit>)
      modifies this`pending
      ensures pending == old(pending) + Collected(units)
    {
      var found := NoticeAll(units);
      pending := pending + found;
    }

    /** After the flush. */
    method Write(length: Changes -> nat, flushed: Flushes)
      modifies this
      ensures pending == [] && trail == old(trail) + Written(length, flushed, old(pending))
    {
      var rows := ResolveAll(length, flushed, pending);
      pending := [];
      trail := trail + rows;
    }

    method Discard()
      modifies this`pending
      ensures pending == []
    {
      pending := [];
    }

    /** A whole flush: one that fails, or is suppressed, leaves nothing behind for a later one to write. */
    method FlushUnits(length: Changes -> nat, units: seq<Unit>, flushed: Flushes, suppressed: bool, fails: bool)
      requires pending == []
      modifies this
      ensures pending == []
      ensures trail == if suppressed || fails then old(trail) else old(trail) + Written(length, flushed, Collected(units))
    {
      if !suppressed {
        Collect(units);
        assert pending == Collected(units);
      }
      if fails || suppressed {
        Discard();
      } else {
        Write(length, flushed);
      }
    }

    method FlushBatch(length: Changes -> nat, b: Batch)
      requires pending == []
      modifies this
      ensures pending == [] && trail == old(trail) + WrittenIn(length, b)
    {
      FlushUnits(length, b.units, b.flushed, false, b.fails);
    }

    /** One audited flush after another. */
    method FlushAll(length: Changes -> nat, bs: seq<Batch>)
      requires pending == []
      modifies this
      ensures pending == [] && trail == old(trail) + WrittenBy(length, bs)
    {
      ghost var before := trail;
      for i := 0 to |bs|
        invariant pending == [] && trail == before + WrittenBy(length, bs[..i])
      {
        ghost var written := WrittenBy(length, bs[..i]);
        FlushBatch(length, bs[i]);
        WrittenByOneMore(length, bs, i);
        Regroup(before, written, WrittenIn(length, bs[i]));
      }
      assert bs[..|bs|] == bs;
    }
  }

  // ----- The entries about one row -----

  function About(entries: seq<Entry>, table: string, pk: string): seq<Record> {
    if entries == [] then []
    else
      var rest := About(entries[1..], table, pk);
      if entries[0].table == table && entries[0].pk == Some(pk) then [entries[0].record] + rest else rest
  }

  lemma {:induction false} AboutConcat(a: seq<Entry>, b: seq<Entry>, table: string, pk: string)
    ensures About(a + b, table, pk) == About(a, table, pk) + About(b, table, pk)
  {
    if a == [] {
      assert a + b == b;
    } else {
      assert (a + b)[1..] == a[1..] + b;
      AboutConcat(a[1..], b, table, pk);
    }
  }

  lemma {:induction false} WrittenConcat(length: Changes -> nat, flushed: Flushes, a: seq<Pending>, b: seq<Pending>)
    ensures Written(length, flushed, a + b) == Written(length, flushed, a) + Written(length, flushed, b)
    decreases |b|
  {
    if b == [] {
      assert a + b == a;
    } else {
      var n := |b| - 1;
      assert (a + b)[..|a + b| - 1] == a + b[..n];
      WrittenConcat(length, flushed, a, b[..n]);
      Regroup(Written(length, flushed, a), Written(length, flushed, b[..n]), Resolved(length, flushed, b[n]));
    }
  }

  /** What `ps` say about a row, once written. */
  function Saying(length: Changes -> nat, flushed: Flushes, ps: seq<Pending>, table: string, pk: string): seq<Record> {
    About(Written(length, flushed, ps), table, pk)
  }

  lemma SayingConcat(length: Changes -> nat, flushed: Flushes, a: seq<Pending>, b: seq<Pending>, table: string, pk: string)
    ensures Saying(length, flushed, a + b, table, pk)
         == Saying(length, flushed, a, table, pk) + Saying(length, flushed, b, table, pk)
  {
    WrittenConcat(length, flushed, a, b);
    AboutConcat(Written(length, flushed, a), Written(length, flushed, b), table, pk);
  }

  /** One buffered difference says what it resolves to. */
  lemma OneSays(length: Changes -> nat, flushed: Flushes, p: Pending, table: string, pk: string)
    ensures Saying(length, flushed, [p], table, pk) == About(Resolved(length, flushed, p), table, pk)
    ensures p.table != table ==> Saying(length, flushed, [p], table, pk) == []
  {
    assert [p][..0] == [];
    var entries := Resolved(length, flushed, p);
    assert Written(length, flushed, [p]) == entries;
    if entries != [] {
      assert entries[1..] == [] && entries[0].table == p.table;
    }
  }

  lemma {:induction false} OtherTablesSayNothing(
    length: Changes -> nat, flushed: Flushes, ps: seq<Pending>, table: string, pk: string)
    requires forall p :: p in ps ==> p.table != table
    ensures Saying(length, flushed, ps, table, pk) == []
    decreases |ps|
  {
    if ps != [] {
      var n := |ps| - 1;
      assert ps == ps[..n] + [ps[n]];
      assert forall p :: p in ps[..n] ==> p in ps;
      SayingConcat(length, flushed, ps[..n], [ps[n]], table, pk);
      OtherTablesSayNothing(length, flushed, ps[..n], table, pk);
      OneSays(length, flushed, ps[n], table, pk);
    }
  }

  lemma {:induction false} LinksToTable(parent: ObjectId, h: LinkHistory, kind: Kind, children: seq<ObjectId>)
    ensures forall p :: p in LinksTo(parent, h, kind, children) ==> p.PendingLink? && p.table == h.table && p.parent == parent
  {
    if children != [] {
      LinksToTable(parent, h, kind, children[1..]);
    }
  }

  lemma {:induction false} LinksKeepToTheirTables(parent: ObjectId, hs: seq<LinkHistory>, table: string)
    requires forall h :: h in hs ==> h.table != table
    ensures forall p :: p in LinksOf(parent, hs) ==> p.table != table
  {
    if hs != [] {
      LinksToTable(parent, hs[0], LINK, hs[0].added);
      LinksToTable(parent, hs[0], UNLINK, hs[0].removed);
      LinksKeepToTheirTables(parent, hs[1..], table);
    }
  }

  // ----- One flush of many rows -----

  /** What a flush does to one row: creates it, edits it, deletes it, or leaves it alone. */
  datatype Event = Born(loaded: Row) | Edited(flush: Flush) | Died(loaded: Row) | Untouched

  function RecordsFor(length: Changes -> nat, s: Row, e: Event): seq<Record> {
    match e
    case Born(loaded) => InsertRecords(length, loaded)
    case Edited(f) => RecordsOf(length, s, f)
    case Died(loaded) => DeleteRecords(length, loaded)
    case Untouched => []
  }

  function StateAfter(s: Row, e: Event): Row {
    if e.Edited? then Apply(s, e.flush) else s
  }

  predicate Writes(u: Unit, flushed: Flushes, table: string, pk: string) {
    u.table == table &&
    match u
    case Added(id, _, _) => id in flushed && flushed[id].pk == Some(pk)
    case Dirty(_, _, key, _, _) => key == pk
    case Removed(_, key, _) => key == pk
  }

  predicate LinksElsewhere(u: Unit, table: string) {
    u.Removed? || forall h :: h in u.links ==> h.table != table
  }

  /** The unit is that event, for a row in state s. */
  predicate Expresses(u: Unit, flushed: Flushes, s: Row, e: Event) {
    match e
    case Born(loaded) => u.Added? && u.id in flushed && flushed[u.id].row == loaded
    case Edited(f) => u.Dirty? && u.obj == ObjectAt(s, f)
    case Died(loaded) => u.Removed? && u.row == loaded
    case Untouched => false
  }

  lemma LinksSayNothing(length: Changes -> nat, flushed: Flushes, u: Unit, table: string, pk: string)
    requires LinksElsewhere(u, table)
    ensures Saying(length, flushed, Noticed(u), table, pk) == Saying(length, flushed, NoticedRow(u), table, pk)
  {
    var links := if u.Removed? then [] else LinksOf(u.id, u.links);
    if !u.Removed? {
      LinksKeepToTheirTables(u.id, u.links, table);
    }
    SayingConcat(length, flushed, NoticedRow(u), links, table, pk);
    OtherTablesSayNothing(length, flushed, links, table, pk);
  }

  lemma AboutOne(e: Entry, table: string, pk: string)
    ensures About([e], table, pk) == if e.table == table && e.pk == Some(pk) then [e.record] else []
  {
    assert [e][1..] == [];
  }

  lemma OtherUnitSaysNothing(length: Changes -> nat, flushed: Flushes, u: Unit, table: string, pk: string)
    requires LinksElsewhere(u, table) && !Writes(u, flushed, table, pk)
    ensures Saying(length, flushed, Noticed(u), table, pk) == []
  {
    LinksSayNothing(length, flushed, u, table, pk);
    var row := NoticedRow(u);
    if row != [] {
      assert row == [row[0]];
      OneSays(length, flushed, row[0], table, pk);
      var entries := Resolved(length, flushed, row[0]);
      if entries != [] {
        assert entries == [entries[0]];
        AboutOne(entries[0], table, pk);
      }
    }
  }

  /** An edit that changes nothing the log shows buffers nothing; any other buffers its difference. */
  lemma DirtyDifference(s: Row, f: Flush)
    ensures var obj := ObjectAt(s, f);
      && (Changed(obj) == {} <==> After(obj) == map[])
      && (Changed(obj) != {} ==> ChangesFrom(Before(obj), After(obj)) != map[])
  {
    var obj := ObjectAt(s, f);
    if Changed(obj) != {} {
      var c :| c in Changed(obj);
      assert c in After(obj) && c in ChangesFrom(Before(obj), After(obj));
    } else {
      assert After(obj).Keys == {};
    }
  }

  lemma OwnUnitSays(length: Changes -> nat, flushed: Flushes, u: Unit, table: string, pk: string, s: Row, e: Event)
    requires table !in EXCLUDED_TABLES && LinksElsewhere(u, table)
    requires Writes(u, flushed, table, pk) && Expresses(u, flushed, s, e)
    ensures Saying(length, flushed, Noticed(u), table, pk) == RecordsFor(length, s, e)
  {
    LinksSayNothing(length, flushed, u, table, pk);
    if e.Edited? {
      DirtyDifference(s, e.flush);
    }
    var row := NoticedRow(u);
    if row != [] {
      assert row == [row[0]];
      OneSays(length, flushed, row[0], table, pk);
      var entries := Resolved(length, flushed, row[0]);
      if entries != [] {
        assert entries == [entries[0]];
        AboutOne(entries[0], table, pk);
      }
    }
  }

  /** In a flush, the row is the i-th unit's and nobody else's. */
  ghost predicate TellsAt(units: seq<Unit>, flushed: Flushes, table: string, pk: string, s: Row, e: Event, i: nat) {
    && i < |units| && Writes(units[i], flushed, table, pk) && Expresses(units[i], flushed, s, e)
    && (forall j :: 0 <= j < |units| && j != i ==> !Writes(units[j], flushed, table, pk))
  }

  /** A flush that does `e` to the row, whatever it does to others. */
  ghost predicate Tells(units: seq<Unit>, flushed: Flushes, table: string, pk: string, s: Row, e: Event) {
    && (forall j :: 0 <= j < |units| ==> LinksElsewhere(units[j], table))
    && (e.Untouched? ==> forall j :: 0 <= j < |units| ==> !Writes(units[j], flushed, table, pk))
    && (!e.Untouched? ==> exists i :: TellsAt(units, flushed, table, pk, s, e, i))
  }

  lemma LastUnitSays(length: Changes -> nat, flushed: Flushes, units: seq<Unit>, table: string, pk: string)
    requires units != []
    ensures var n := |units| - 1;
      Saying(length, flushed, Collected(units), table, pk)
        == Saying(length, flushed, Collected(units[..n]), table, pk) + Saying(length, flushed, Noticed(units[n]), table, pk)
  {
    var n := |units| - 1;
    SayingConcat(length, flushed, Collected(units[..n]), Noticed(units[n]), table, pk);
  }

  lemma {:induction false} OtherUnitsSayNothing(
    length: Changes -> nat, flushed: Flushes, units: seq<Unit>, table: string, pk: string)
    requires forall j :: 0 <= j < |units| ==> LinksElsewhere(units[j], table) && !Writes(units[j], flushed, table, pk)
    ensures Saying(length, flushed, Collected(units), table, pk) == []
    decreases |units|
  {
    if units != [] {
      var n := |units| - 1;
      LastUnitSays(length, flushed, units, table, pk);
      OtherUnitsSayNothing(length, flushed, units[..n], table, pk);
      OtherUnitSaysNothing(length, flushed, units[n], table, pk);
    }
  }

  lemma {:induction false} OneUnitSays(
    length: Changes -> nat, flushed: Flushes, units: seq<Unit>, table: string, pk: string, s: Row, e: Event, i: nat)
    requires table !in EXCLUDED_TABLES && TellsAt(units, flushed, table, pk, s, e, i)
    requires forall j :: 0 <= j < |units| ==> LinksElsewhere(units[j], table)
    ensures Saying(length, flushed, Collected(units), table, pk) == RecordsFor(length, s, e)
    decreases |units|
  {
    var n := |units| - 1;
    LastUnitSays(length, flushed, units, table, pk);
    if i == n {
      OtherUnitsSayNothing(length, flushed, units[..n], table, pk);
      OwnUnitSays(length, flushed, units[n], table, pk, s, e);
    } else {
      OtherUnitSaysNothing(length, flushed, units[n], table, pk);
      OneUnitSays(length, flushed, units[..n], table, pk, s, e, i);
    }
  }

  /** Of all a flush writes, the entries about one row are exactly what happened to that row. */
  lemma FlushTellsOfEachRow(
    length: Changes -> nat, flushed: Flushes, units: seq<Unit>, table: string, pk: string, s: Row, e: Event)
    requires table !in EXCLUDED_TABLES && Tells(units, flushed, table, pk, s, e)
    ensures About(Written(length, flushed, Collected(units)), table, pk) == RecordsFor(length, s, e)
  {
    if e.Untouched? {
      OtherUnitsSayNothing(length, flushed, units, table, pk);
    } else {
      var i :| TellsAt(units, flushed, table, pk, s, e, i);
      OneUnitSays(length, flushed, units, table, pk, s, e, i);
    }
  }

  // ----- Any number of flushes -----

  /** The events of one row, flush by flush; a failed flush does nothing to it. */
  ghost predicate TellsAll(bs: seq<Batch>, table: string, pk: string, s: Row, es: seq<Event>)
    decreases |bs|
  {
    && |bs| == |es|
    && (bs != [] ==>
          && (if bs[0].fails then es[0].Untouched? else Tells(bs[0].units, bs[0].flushed, table, pk, s, es[0]))
          && TellsAll(bs[1..], table, pk, StateAfter(s, es[0]), es[1..]))
  }

  function Told(length: Changes -> nat, s: Row, es: seq<Event>): seq<Record>
    decreases |es|
  {
    if es == [] then [] else RecordsFor(length, s, es[0]) + Told(length, StateAfter(s, es[0]), es[1..])
  }

  /** Over any number of flushes, the log's entries about one row are its events in order, and nothing else. */
  lemma {:induction false} LogTellsOfEachRow(
    length: Changes -> nat, bs: seq<Batch>, table: string, pk: string, s: Row, es: seq<Event>)
    requires table !in EXCLUDED_TABLES && TellsAll(bs, table, pk, s, es)
    ensures About(WrittenBy(length, bs), table, pk) == Told(length, s, es)
    decreases |bs|
  {
    if bs != [] {
      if !bs[0].fails {
        FlushTellsOfEachRow(length, bs[0].flushed, bs[0].units, table, pk, s, es[0]);
      }
      AboutConcat(WrittenIn(length, bs[0]), WrittenBy(length, bs[1..]), table, pk);
      LogTellsOfEachRow(length, bs[1..], table, pk, StateAfter(s, es[0]), es[1..]);
    }
  }

  predicate OnlyEdits(es: seq<Event>) {
    forall i :: 0 <= i < |es| ==> es[i].Edited? || es[i].Untouched?
  }

  function Edits(es: seq<Event>): seq<Flush> {
    if es == [] then []
    else if es[0].Edited? then [es[0].flush] + Edits(es[1..])
    else Edits(es[1..])
  }

  /** Between its creation and its deletion a row's events are its chain of flushes. */
  lemma {:induction false} ToldIsTheTrail(length: Changes -> nat, s: Row, es: seq<Event>)
    requires OnlyEdits(es)
    ensures Told(length, s, es) == Trail(length, s, Edits(es))
    decreases |es|
  {
    if es != [] {
      ToldIsTheTrail(length, StateAfter(s, es[0]), es[1..]);
      if es[0].Edited? {
        assert Edits(es)[1..] == Edits(es[1..]);
      }
    }
  }

  function StateAfterAll(s: Row, es: seq<Event>): Row
    decreases |es|
  {
    if es == [] then s else StateAfterAll(StateAfter(s, es[0]), es[1..])
  }

  lemma {:induction false} ToldConcat(length: Changes -> nat, s: Row, a: seq<Event>, b: seq<Event>)
    ensures Told(length, s, a + b) == Told(length, s, a) + Told(length, StateAfterAll(s, a), b)
    decreases |a|
  {
    if a == [] {
      assert a + b == b;
    } else {
      var t := StateAfter(s, a[0]);
      assert (a + b)[1..] == a[1..] + b && (a + b)[0] == a[0];
      ToldConcat(length, t, a[1..], b);
      Regroup(RecordsFor(length, s, a[0]), Told(length, t, a[1..]), Told(length, StateAfterAll(s, a), b));
    }
  }

  lemma ToldLife(length: Changes -> nat, born: Row, s: Row, es: seq<Event>, died: Row)
    requires OnlyEdits(es)
    ensures Told(length, s, [Born(born)] + es + [Died(died)])
         == InsertRecords(length, born) + Trail(length, s, Edits(es)) + DeleteRecords(length, died)
  {
    var all, death := [Born(born)] + es + [Died(died)], [Died(died)];
    assert all[1..] == es + death;
    assert Told(length, s, all) == InsertRecords(length, born) + Told(length, s, es + death);
    ToldConcat(length, s, es, death);
    ToldIsTheTrail(length, s, es);
    assert death[1..] == [];
    assert Told(length, StateAfterAll(s, es), death) == DeleteRecords(length, died);
    Regroup(InsertRecords(length, born), Trail(length, s, Edits(es)), DeleteRecords(length, died));
  }

  /** The log's entries about a row being edited are the trail the replay theorems are about. */
  lemma LogHoldsTheTrail(length: Changes -> nat, bs: seq<Batch>, table: string, pk: string, s: Row, es: seq<Event>)
    requires table !in EXCLUDED_TABLES && TellsAll(bs, table, pk, s, es) && OnlyEdits(es)
    ensures About(WrittenBy(length, bs), table, pk) == Trail(length, s, Edits(es))
  {
    LogTellsOfEachRow(length, bs, table, pk, s, es);
    ToldIsTheTrail(length, s, es);
  }

  /** So the log can be replayed, row by row: forward it never misleads, backward it leads home exactly when the first change was seen. */
  lemma LogReplays(
    length: Changes -> nat, bs: seq<Batch>, table: string, pk: string, s: Row, es: seq<Event>, first: View, last: View, c: Column)
    requires table !in EXCLUDED_TABLES && TellsAll(bs, table, pk, s, es) && OnlyEdits(es)
    requires Visible(c) && c in s && Unmaintained(Edits(es), c) && Kept(About(WrittenBy(length, bs), table, pk), c)
    requires Honest(first, c, s) && Shows(last, c, Exec(s, Edits(es)))
    ensures var replayed := Forward(first, About(WrittenBy(length, bs), table, pk));
      && Honest(replayed, c, Exec(s, Edits(es)))
      && (c in replayed <==> c in first || EverChanged(s, Edits(es), c))
    ensures Shows(Backward(last, About(WrittenBy(length, bs), table, pk)), c, s) <==> FirstChangeSeen(s, Edits(es), c)
  {
    LogHoldsTheTrail(length, bs, table, pk, s, es);
    ForwardReplays(length, s, Edits(es), first, c);
    BackwardReplays(length, s, Edits(es), last, c);
  }

  /** In the log, a row's deletions and restorations take turns, and the last says how it stands. */
  lemma LogMarksAlternate(length: Changes -> nat, bs: seq<Batch>, table: string, pk: string, s: Row, es: seq<Event>)
    requires table !in EXCLUDED_TABLES && TellsAll(bs, table, pk, s, es) && OnlyEdits(es)
    requires DELETED_AT in s && Unmaintained(Edits(es), DELETED_AT) && SeenThroughout(s, Edits(es), DELETED_AT)
    ensures var marks := Marks(About(WrittenBy(length, bs), table, pk));
      Alternates(marks, Deleted(s)) && Deleted(Exec(s, Edits(es))) == MarkedDeleted(marks, Deleted(s))
  {
    LogHoldsTheTrail(length, bs, table, pk, s, es);
    DeletionsAlternate(length, s, Edits(es));
  }

  /** From the flush that creates a row to the one that deletes it, the log holds its whole life. */
  lemma LogHoldsTheWholeLife(
    length: Changes -> nat, bs: seq<Batch>, table: string, pk: string, born: Row, s: Row, es: seq<Event>, died: Row)
    requires table !in EXCLUDED_TABLES && OnlyEdits(es)
    requires TellsAll(bs, table, pk, s, [Born(born)] + es + [Died(died)])
    ensures About(WrittenBy(length, bs), table, pk)
         == InsertRecords(length, born) + Trail(length, s, Edits(es)) + DeleteRecords(length, died)
  {
    LogTellsOfEachRow(length, bs, table, pk, s, [Born(born)] + es + [Died(died)]);
    ToldLife(length, born, s, es, died);
  }

  // ----- What is never logged -----

  predicate Loggable(table: string) {
    table !in {"audit_logs", "request_logs", "refresh_tokens", "single_use_tokens", "idempotency_keys", "alembic_version"}
  }

  predicate AllLoggable(es: seq<Entry>) {
    forall e :: e in es ==> Loggable(e.table)
  }

  lemma LoggableConcat(a: seq<Entry>, b: seq<Entry>)
    requires AllLoggable(a) && AllLoggable(b)
    ensures AllLoggable(a + b)
  {
  }

  lemma ResolvedIsLoggable(length: Changes -> nat, flushed: Flushes, p: Pending)
    requires Loggable(p.table)
    ensures AllLoggable(Resolved(length, flushed, p))
  {
  }

  lemma {:induction false} LinksAreLoggable(parent: ObjectId, hs: seq<LinkHistory>)
    ensures forall p :: p in LinksOf(parent, hs) ==> Loggable(p.table)
  {
    if hs != [] {
      LinksToTable(parent, hs[0], LINK, hs[0].added);
      LinksToTable(parent, hs[0], UNLINK, hs[0].removed);
      LinksAreLoggable(parent, hs[1..]);
    }
  }

  lemma {:induction false} CollectedIsLoggable(units: seq<Unit>)
    ensures forall p :: p in Collected(units) ==> Loggable(p.table)
    decreases |units|
  {
    if units != [] {
      var u := units[|units| - 1];
      CollectedIsLoggable(units[..|units| - 1]);
      if !u.Removed? {
        LinksAreLoggable(u.id, u.links);
      }
    }
  }

  lemma {:induction false} WrittenIsLoggable(length: Changes -> nat, flushed: Flushes, ps: seq<Pending>)
    requires forall p :: p in ps ==> Loggable(p.table)
    ensures AllLoggable(Written(length, flushed, ps))
    decreases |ps|
  {
    if ps != [] {
      var n := |ps| - 1;
      assert ps[n] in ps && forall p :: p in ps[..n] ==> p in ps;
      WrittenIsLoggable(length, flushed, ps[..n]);
      ResolvedIsLoggable(length, flushed, ps[n]);
      LoggableConcat(Written(length, flushed, ps[..n]), Resolved(length, flushed, ps[n]));
    }
  }

  /** The log never speaks of itself, the request log, tokens, idempotency keys or migrations. */
  lemma {:induction false} LogLeavesTablesOut(length: Changes -> nat, bs: seq<Batch>)
    ensures AllLoggable(WrittenBy(length, bs))
    decreases |bs|
  {
    if bs != [] {
      CollectedIsLoggable(bs[0].units);
      WrittenIsLoggable(length, bs[0].flushed, Collected(bs[0].units));
      LogLeavesTablesOut(length, bs[1..]);
      LoggableConcat(WrittenIn(length, bs[0]), WrittenBy(length, bs[1..]));
    }
  }

  /** A link's entry names both ends by the keys they were given, on the new side when made and on the old when removed. */
  lemma LinkEntryNamesBothEnds(length: Changes -> nat, flushed: Flushes, p: Pending, parentKey: string, childKey: string)
    requires p.PendingLink? && (p.kind == LINK || p.kind == UNLINK)
    requires p.parent in flushed && flushed[p.parent].pk == Some(parentKey)
    requires p.child in flushed && flushed[p.child].pk == Some(childKey)
    requires p.parentColumn != p.childColumn && p.parentColumn != "name" && p.childColumn != "name"
    ensures var entries := Resolved(length, flushed, p);
      && |entries| == 1 && entries[0].table == p.table && entries[0].pk == Some(parentKey + ":" + childKey)
      && entries[0].record.kind == p.kind
    ensures var doc := Resolved(length, flushed, p)[0].record.doc;
      doc.Whole? ==>
        && p.parentColumn in doc.changes && p.childColumn in doc.changes
        && (p.kind == LINK ==> doc.changes[p.parentColumn] == Sides(JNull, JText(parentKey))
                               && doc.changes[p.childColumn] == Sides(JNull, JText(childKey)))
        && (p.kind == UNLINK ==> doc.changes[p.parentColumn] == Sides(JText(parentKey), JNull)
                                 && doc.changes[p.childColumn] == Sides(JText(childKey), JNull))
        && ("name" in doc.changes <==> flushed[p.child].caption.Some?)
        && (p.kind == LINK && flushed[p.child].caption.Some? ==>
              doc.changes["name"] == Sides(JNull, JText(flushed[p.child].caption.value)))
  {
  }

  // ----- Secrets -----

  /** Nothing in an entry shows what a secret was. */
  predicate EntryHidesSecrets(e: Entry) {
    e.record.doc.Whole? ==> HidesSecrets(e.record.doc.changes)
  }

  predicate AllHideSecrets(es: seq<Entry>) {
    forall e :: e in es ==> EntryHidesSecrets(e)
  }

  lemma HidingConcat(a: seq<Entry>, b: seq<Entry>)
    requires AllHideSecrets(a) && AllHideSecrets(b)
    ensures AllHideSecrets(a + b)
  {
  }

  /** Link tables have no secret columns. */
  predicate PlainLinks(p: Pending) {
    p.PendingLink? ==> p.parentColumn !in REDACTED && p.childColumn !in REDACTED
  }

  lemma ResolvedHidesSecrets(length: Changes -> nat, flushed: Flushes, p: Pending)
    requires PlainLinks(p)
    ensures AllHideSecrets(Resolved(length, flushed, p))
  {
    match p
    case PendingInsert(id, _) =>
      DifferencesHideSecrets(map[], Loaded(if id in flushed then flushed[id].row else map[]));
    case PendingRow(_, _, _, before, after) => DifferencesHideSecrets(before, after);
    case PendingLink(_, _, _, _, parentColumn, childColumn) =>
      assert "name" !in REDACTED by {
        assert |"name"| == 4;
        assert forall c :: c in REDACTED ==> |c| != 4;
      }
      assert forall c :: c in LinkChanges(flushed, p) ==> c == parentColumn || c == childColumn || c == "name";
  }

  lemma {:induction false} WrittenHidesSecrets(length: Changes -> nat, flushed: Flushes, ps: seq<Pending>)
    requires forall p :: p in ps ==> PlainLinks(p)
    ensures AllHideSecrets(Written(length, flushed, ps))
    decreases |ps|
  {
    if ps != [] {
      var n := |ps| - 1;
      assert ps[n] in ps && forall p :: p in ps[..n] ==> p in ps;
      WrittenHidesSecrets(length, flushed, ps[..n]);
      ResolvedHidesSecrets(length, flushed, ps[n]);
      HidingConcat(Written(length, flushed, ps[..n]), Resolved(length, flushed, ps[n]));
    }
  }

  /** Over any number of flushes the log never shows a password, a token hash, a secret or an API key. */
  lemma {:induction false} LogHidesSecrets(length: Changes -> nat, bs: seq<Batch>)
    requires forall b :: b in bs ==> forall p :: p in Collected(b.units) ==> PlainLinks(p)
    ensures AllHideSecrets(WrittenBy(length, bs))
    decreases |bs|
  {
    if bs != [] {
      assert bs[0] in bs && forall b :: b in bs[1..] ==> b in bs;
      WrittenHidesSecrets(length, bs[0].flushed, Collected(bs[0].units));
      LogHidesSecrets(length, bs[1..]);
      HidingConcat(WrittenIn(length, bs[0]), WrittenBy(length, bs[1..]));
    }
  }

  // ----- Links -----

  predicate Concerns(p: Pending, table: string, parent: ObjectId) {
    p.PendingLink? && p.table == table && p.parent == parent
  }

  function Linked(held: set<ObjectId>, p: Pending, table: string, parent: ObjectId): set<ObjectId> {
    if !Concerns(p, table, parent) then held else if p.kind == LINK then held + {p.child} else held - {p.child}
  }

  function Unlinked(held: set<ObjectId>, p: Pending, table: string, parent: ObjectId): set<ObjectId> {
    if !Concerns(p, table, parent) then held else if p.kind == LINK then held - {p.child} else held + {p.child}
  }

  /** Reading the differences about one object's links in one table, forward and backward. */
  function Follow(held: set<ObjectId>, ps: seq<Pending>, table: string, parent: ObjectId): set<ObjectId>
    decreases |ps|
  {
    if ps == [] then held else Follow(Linked(held, ps[0], table, parent), ps[1..], table, parent)
  }

  function Retrace(held: set<ObjectId>, ps: seq<Pending>, table: string, parent: ObjectId): set<ObjectId>
    decreases |ps|
  {
    if ps == [] then held else Unlinked(Retrace(held, ps[1..], table, parent), ps[0], table, parent)
  }

  /** What the mapper reports of one relationship of one object. */
  datatype Report = Report(parent: ObjectId, history: LinkHistory)

  function ReportsFrom(parent: ObjectId, hs: seq<LinkHistory>): seq<Report> {
    if hs == [] then [] else [Report(parent, hs[0])] + ReportsFrom(parent, hs[1..])
  }

  /** Everything reported, object by object and relationship by relationship. */
  function AllReports(units: seq<Unit>): seq<Report> {
    if units == [] then []
    else
      var last := units[|units| - 1];
      AllReports(units[..|units| - 1]) + if last.Removed? then [] else ReportsFrom(last.id, last.links)
  }

  function Members(ids: seq<ObjectId>): set<ObjectId> {
    set i | 0 <= i < |ids| :: ids[i]
  }

  lemma MembersSplit(ids: seq<ObjectId>)
    requires ids != []
    ensures Members(ids) == {ids[0]} + Members(ids[1..])
  {
    assert forall i :: 1 <= i < |ids| ==> ids[i] == ids[1..][i - 1];
  }

  predicate IsAbout(r: Report, table: string, parent: ObjectId) {
    r.parent == parent && r.history.table == table
  }

  function Moved(held: set<ObjectId>, r: Report, table: string, parent: ObjectId): set<ObjectId> {
    if IsAbout(r, table, parent) then held + Members(r.history.added) - Members(r.history.removed) else held
  }

  /** The linked rows after all that was reported. */
  function Left(held: set<ObjectId>, rs: seq<Report>, table: string, parent: ObjectId): set<ObjectId>
    decreases |rs|
  {
    if rs == [] then held else Left(Moved(held, rs[0], table, parent), rs[1..], table, parent)
  }

  /** A report names as added what was not there and as removed what was. */
  predicate Accurate(held: set<ObjectId>, r: Report) {
    Members(r.history.added) !! held && Members(r.history.removed) <= held
  }

  predicate AllAccurate(held: set<ObjectId>, rs: seq<Report>, table: string, parent: ObjectId)
    decreases |rs|
  {
    rs != [] ==>
      && (IsAbout(rs[0], table, parent) ==> Accurate(held, rs[0]))
      && AllAccurate(Moved(held, rs[0], table, parent), rs[1..], table, parent)
  }

  /** Reading `ps` forward from one set leads to the other, and backward leads back. */
  predicate Connects(ps: seq<Pending>, table: string, parent: ObjectId, from: set<ObjectId>, to: set<ObjectId>) {
    Follow(from, ps, table, parent) == to && Retrace(to, ps, table, parent) == from
  }

  lemma {:induction false} FollowConcat(held: set<ObjectId>, a: seq<Pending>, b: seq<Pending>, table: string, parent: ObjectId)
    ensures Follow(held, a + b, table, parent) == Follow(Follow(held, a, table, parent), b, table, parent)
    ensures Retrace(held, a + b, table, parent) == Retrace(Retrace(held, b, table, parent), a, table, parent)
    decreases |a|
  {
    if a == [] {
      assert a + b == b;
    } else {
      assert (a + b)[1..] == a[1..] + b;
      FollowConcat(Linked(held, a[0], table, parent), a[1..], b, table, parent);
      FollowConcat(held, a[1..], b, table, parent);
    }
  }

  lemma ConnectsConcat(
    a: seq<Pending>, b: seq<Pending>, table: string, parent: ObjectId,
    from: set<ObjectId>, mid: set<ObjectId>, to: set<ObjectId>)
    requires Connects(a, table, parent, from, mid) && Connects(b, table, parent, mid, to)
    ensures Connects(a + b, table, parent, from, to)
  {
    FollowConcat(from, a, b, table, parent);
    FollowConcat(to, a, b, table, parent);
  }

  lemma {:induction false} OthersConnect(ps: seq<Pending>, table: string, parent: ObjectId, held: set<ObjectId>)
    requires forall p :: p in ps ==> !Concerns(p, table, parent)
    ensures Connects(ps, table, parent, held, held)
    decreases |ps|
  {
    if ps != [] {
      OthersConnect(ps[1..], table, parent, held);
    }
  }

  lemma {:induction false} AddingConnects(parent: ObjectId, h: LinkHistory, ids: seq<ObjectId>, held: set<ObjectId>)
    ensures Follow(held, LinksTo(parent, h, LINK, ids), h.table, parent) == held + Members(ids)
    ensures Retrace(held, LinksTo(parent, h, LINK, ids), h.table, parent) == held - Members(ids)
    decreases |ids|
  {
    if ids != [] {
      MembersSplit(ids);
      AddingConnects(parent, h, ids[1..], held + {ids[0]});
      AddingConnects(parent, h, ids[1..], held);
    }
  }

  lemma {:induction false} RemovingConnects(parent: ObjectId, h: LinkHistory, ids: seq<ObjectId>, held: set<ObjectId>)
    ensures Follow(held, LinksTo(parent, h, UNLINK, ids), h.table, parent) == held - Members(ids)
    ensures Retrace(held, LinksTo(parent, h, UNLINK, ids), h.table, parent) == held + Members(ids)
    decreases |ids|
  {
    if ids != [] {
      MembersSplit(ids);
      RemovingConnects(parent, h, ids[1..], held - {ids[0]});
      RemovingConnects(parent, h, ids[1..], held);
    }
  }

  /** One relationship's part of the buffer. */
  function LinksIn(parent: ObjectId, h: LinkHistory): seq<Pending> {
    if h.table in EXCLUDED_TABLES then []
    else LinksTo(parent, h, LINK, h.added) + LinksTo(parent, h, UNLINK, h.removed)
  }

  lemma OneReportConnects(r: Report, table: string, parent: ObjectId, held: set<ObjectId>)
    requires table !in EXCLUDED_TABLES && (IsAbout(r, table, parent) ==> Accurate(held, r))
    ensures Connects(LinksIn(r.parent, r.history), table, parent, held, Moved(held, r, table, parent))
  {
    var h := r.history;
    if IsAbout(r, table, parent) {
      var mid := held + Members(h.added);
      AddingConnects(parent, h, h.added, held);
      AddingConnects(parent, h, h.added, mid);
      RemovingConnects(parent, h, h.removed, mid);
      RemovingConnects(parent, h, h.removed, mid - Members(h.removed));
      ConnectsConcat(LinksTo(parent, h, LINK, h.added), LinksTo(parent, h, UNLINK, h.removed),
                     table, parent, held, mid, mid - Members(h.removed));
    } else {
      LinksToTable(r.parent, h, LINK, h.added);
      LinksToTable(r.parent, h, UNLINK, h.removed);
      OthersConnect(LinksIn(r.parent, h), table, parent, held);
    }
  }

  lemma {:induction false} ReportsConnect(id: ObjectId, hs: seq<LinkHistory>, table: string, parent: ObjectId, held: set<ObjectId>)
    requires table !in EXCLUDED_TABLES && AllAccurate(held, ReportsFrom(id, hs), table, parent)
    ensures Connects(LinksOf(id, hs), table, parent, held, Left(held, ReportsFrom(id, hs), table, parent))
    decreases |hs|
  {
    if hs != [] {
      var r := Report(id, hs[0]);
      var next := Moved(held, r, table, parent);
      assert ReportsFrom(id, hs)[1..] == ReportsFrom(id, hs[1..]);
      OneReportConnects(r, table, parent, held);
      ReportsConnect(id, hs[1..], table, parent, next);
      ConnectsConcat(LinksIn(id, hs[0]), LinksOf(id, hs[1..]), table, parent, held, next,
                     Left(next, ReportsFrom(id, hs[1..]), table, parent));
    }
  }

  lemma {:induction false} ReportsSplit(held: set<ObjectId>, a: seq<Report>, b: seq<Report>, table: string, parent: ObjectId)
    ensures Left(held, a + b, table, parent) == Left(Left(held, a, table, parent), b, table, parent)
    ensures AllAccurate(held, a + b, table, parent)
       <==> AllAccurate(held, a, table, parent) && AllAccurate(Left(held, a, table, parent), b, table, parent)
    decreases |a|
  {
    if a == [] {
      assert a + b == b;
    } else {
      assert (a + b)[1..] == a[1..] + b;
      ReportsSplit(Moved(held, a[0], table, parent), a[1..], b, table, parent);
    }
  }

  /**
    For one object and one link table, among any number of flushed objects with any number of
    relationships, the buffered link differences lead from the first set of linked rows to the
    last, and back.
  */
  lemma {:induction false} LinksReplay(units: seq<Unit>, table: string, parent: ObjectId, held: set<ObjectId>)
    requires table !in EXCLUDED_TABLES && AllAccurate(held, AllReports(units), table, parent)
    ensures var last := Left(held, AllReports(units), table, parent);
      Follow(held, Collected(units), table, parent) == last && Retrace(last, Collected(units), table, parent) == held
    decreases |units|
  {
    if units != [] {
      var front, u := units[..|units| - 1], units[|units| - 1];
      var reports := if u.Removed? then [] else ReportsFrom(u.id, u.links);
      var links := if u.Removed? then [] else LinksOf(u.id, u.links);
      ReportsSplit(held, AllReports(front), reports, table, parent);
      LinksReplay(front, table, parent, held);
      var mid := Left(held, AllReports(front), table, parent);
      var end := Left(mid, reports, table, parent);
      if !u.Removed? {
        ReportsConnect(u.id, u.links, table, parent, mid);
      }
      OthersConnect(NoticedRow(u), table, parent, mid);
      ConnectsConcat(NoticedRow(u), links, table, parent, mid, mid, end);
      ConnectsConcat(Collected(front), Noticed(u), table, parent, held, mid, end);
    }
  }
}
