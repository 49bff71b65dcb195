/**
  The audit trail of one table: what a flush records about a row, and what can be read back
  from the records.  A record holds, for each changed column, the rendered old and new value.
*/
module AuditTrail {
  import opened Common

  type Column = string

  /** Column values as the renderer tells them apart. */
  datatype Value =
    | Null
    | Flag(flag: bool)
    | Number(number: int)
    | Text(text: string)
    | Moment(iso: string)
    | Bytes(bytes: seq<Byte>)

  datatype Json = JNull | JFlag(flag: bool) | JNumber(number: int) | JText(text: string) | JTruncated(length: nat)

  type Row = map<Column, Value>

  datatype Sides = Sides(was: Json, becomes: Json)

  type Changes = map<Column, Sides>

  datatype Kind = INSERT | UPDATE | DELETE | SOFT_DELETE | RESTORE | LINK | UNLINK

  /** A document too long to store keeps only the names of the columns it was about. */
  datatype Document = Whole(changes: Changes) | Summary(fields: set<Column>)

  datatype Record = Record(kind: Kind, doc: Document)

  const IGNORED: set<Column> := {"created_at", "updated_at"}
  const REDACTED: set<Column> := {"hashed_password", "token_hash", "password", "secret", "api_key"}
  const PLACEHOLDER := JText("***")
  const MAX_VALUE_CHARS := 1000
  const MAX_DOCUMENT_BYTES := 64 * 1024
  const DELETED_AT: Column := "deleted_at"

  // ----- Rendering and diffing -----

  function Jsonable(v: Value): Json {
    match v
    case Null => JNull
    case Flag(b) => JFlag(b)
    case Number(n) => JNumber(n)
    case Bytes(bytes) => JTruncated(|bytes|)
    case Moment(iso) => JText(iso)
    case Text(text) => if |text| > MAX_VALUE_CHARS then JTruncated(|text|) else JText(text)
  }

  function Rendered(c: Column, v: Value): Json {
    if c in REDACTED then PLACEHOLDER else Jsonable(v)
  }

  function Get(row: Row, c: Column): Value {
    if c in row then row[c] else Null
  }

  function ChangesFrom(before: Row, after: Row): Changes {
    map c | c in before.Keys + after.Keys && c !in IGNORED ::
      Sides(Rendered(c, Get(before, c)), Rendered(c, Get(after, c)))
  }

  function ActionFor(before: Row, after: Row): Kind {
    if DELETED_AT !in after then UPDATE
    else
      var wasDeleted := Get(before, DELETED_AT) != Null;
      var isDeleted := after[DELETED_AT] != Null;
      if isDeleted && !wasDeleted then SOFT_DELETE
      else if wasDeleted && !isDeleted then RESTORE
      else UPDATE
  }

  /** `length` is the size in bytes of a document once serialised. */
  function Cap(length: Changes -> nat, changes: Changes): Document {
    if length(changes) <= MAX_DOCUMENT_BYTES then Whole(changes) else Summary(changes.Keys)
  }

  /** Small values of the plain kinds can be told apart in the log; longer ones leave only their length. */
  lemma RenderingTellsApart(v: Value, w: Value)
    ensures Jsonable(v) == JNull <==> v == Null
    ensures v.Text? ==> (Jsonable(v).JText? <==> |v.text| <= 1000) && (|v.text| > 1000 ==> Jsonable(v) == JTruncated(|v.text|))
    ensures v.Bytes? ==> Jsonable(v) == JTruncated(|v.bytes|)
    ensures (v.Flag? || v.Number? || (v.Text? && |v.text| <= 1000)) && (w.Flag? || w.Number? || (w.Text? && |w.text| <= 1000)) ==>
      (Jsonable(v) == Jsonable(w) <==> v == w)
    ensures v.Moment? && w.Moment? ==> (Jsonable(v) == Jsonable(w) <==> v == w)
  {
  }

  /** Secrets never reach a difference: their columns show that they changed, and the same two marks whatever they were. */
  predicate HidesSecrets(changes: Changes) {
    forall c :: c in changes && c in {"hashed_password", "token_hash", "password", "secret", "api_key"} ==>
      changes[c] == Sides(JText("***"), JText("***"))
  }

  lemma DifferencesHideSecrets(before: Row, after: Row)
    ensures HidesSecrets(ChangesFrom(before, after))
    ensures "created_at" !in ChangesFrom(before, after) && "updated_at" !in ChangesFrom(before, after)
    ensures forall c :: (c in before || c in after) && c != "created_at" && c != "updated_at" ==> c in ChangesFrom(before, after)
  {
  }

  /** Two rows that differ in secrets only. */
  predicate SameButSecrets(a: Row, b: Row) {
    a.Keys == b.Keys && forall c :: c in a && c !in {"hashed_password", "token_hash", "password", "secret", "api_key"} ==> a[c] == b[c]
  }

  /** The difference and its label do not depend on what the secrets were. */
  lemma DifferencesIgnoreSecrets(before: Row, after: Row, before': Row, after': Row)
    requires SameButSecrets(before, before') && SameButSecrets(after, after')
    ensures ChangesFrom(before, after) == ChangesFrom(before', after')
    ensures ActionFor(before, after) == ActionFor(before', after')
  {
    assert DELETED_AT !in REDACTED by {
      assert forall c :: c in REDACTED ==> c[0] != 'd';
    }
  }

  /** A stored document fits, and one that does not still names every column it was about. */
  lemma DocumentsFit(length: Changes -> nat, changes: Changes)
    ensures Cap(length, changes).Whole? <==> length(changes) <= 65536
    ensures Cap(length, changes).Whole? ==> Cap(length, changes).changes == changes
    ensures Cap(length, changes).Summary? ==> Cap(length, changes).fields == changes.Keys
  {
  }

  // ----- What the session knows about an object before a flush -----

  /** An attribute's present value: not there, held, or deleted from the object. */
  datatype Current = Absent | Held(value: Value) | Dropped

  /** The value last read from the database, if it was loaded, and the attribute's present state. */
  datatype Cell = Cell(committed: Option<Value>, current: Current)

  predicate HasChanges(cell: Cell) {
    cell.current.Dropped? || (cell.current.Held? && cell.committed != Some(cell.current.value))
  }

  function OldSide(cell: Cell): Value {
    if cell.committed.Some? then cell.committed.value else Null
  }

  function NewSide(cell: Cell): Value {
    if cell.current.Held? then cell.current.value else Null
  }

  type Object = map<Column, Cell>

  function Changed(obj: Object): set<Column> {
    set c | c in obj && c !in IGNORED && HasChanges(obj[c])
  }

  function Before(obj: Object): Row {
    map c | c in Changed(obj) :: OldSide(obj[c])
  }

  function After(obj: Object): Row {
    map c | c in Changed(obj) :: NewSide(obj[c])
  }

  /** The loop over the mapped columns that fills the two dictionaries. */
  method ColumnHistory(columns: seq<Column>, obj: Object) returns (before: Row, after: Row)
    requires forall c :: c in columns <==> c in obj
    ensures before == Before(obj) && after == After(obj)
  {
    before, after := map[], map[];
    for i := 0 to |columns|
      invariant before.Keys == after.Keys == set c | c in columns[..i] && c in Changed(obj)
      invariant forall c :: c in before ==> before[c] == OldSide(obj[c])
      invariant forall c :: c in after ==> after[c] == NewSide(obj[c])
    {
      var c := columns[i];
      assert c in columns;
      assert columns[..i + 1] == columns[..i] + [c];
      if c !in IGNORED && HasChanges(obj[c]) {
        before := before[c := OldSide(obj[c])];
        after := after[c := NewSide(obj[c])];
      }
    }
    assert columns[..|columns|] == columns;
  }

  // ----- A row's life, flush by flush -----

  /**
    `written` is what the program assigned to the object, `dropped` the attributes it deleted
    from it (stored as null), `unknown` the columns whose stored value was not loaded then,
    and `maintained` what the mapper itself writes during the flush, after the difference was
    taken (a version number, say).
  */
  datatype Flush = Flush(written: Row, dropped: set<Column>, unknown: set<Column>, maintained: Row)

  predicate Overwrites(f: Flush, c: Column) {
    c in f.written || c in f.dropped
  }

  function CellAt(s: Row, f: Flush, c: Column): Cell
    requires c in s
  {
    var stored := if c in f.unknown then None else Some(s[c]);
    var current :=
      if c in f.dropped then Dropped
      else if c in f.written then Held(f.written[c])
      else if stored.Some? then Held(s[c])
      else Absent;
    Cell(stored, current)
  }

  function ObjectAt(s: Row, f: Flush): Object {
    map c | c in s :: CellAt(s, f, c)
  }

  function Apply(s: Row, f: Flush): Row {
    map c | c in s ::
      if c in f.maintained then f.maintained[c]
      else if c in f.dropped then Null
      else if c in f.written then f.written[c]
      else s[c]
  }

  /** The difference taken before the flush holds the column. */
  predicate Touches(s: Row, f: Flush, c: Column) {
    c in s && c !in IGNORED && HasChanges(CellAt(s, f, c))
  }

  /** Nothing is recorded when nothing but ignored columns changed. */
  function RecordsOf(length: Changes -> nat, s: Row, f: Flush): seq<Record> {
    var obj := ObjectAt(s, f);
    if Changed(obj) == {} then []
    else [Record(ActionFor(Before(obj), After(obj)), Cap(length, ChangesFrom(Before(obj), After(obj))))]
  }

  function Exec(s: Row, fs: seq<Flush>): Row
    decreases |fs|
  {
    if fs == [] then s else Exec(Apply(s, fs[0]), fs[1..])
  }

  function Trail(length: Changes -> nat, s: Row, fs: seq<Flush>): seq<Record>
    decreases |fs|
  {
    if fs == [] then [] else RecordsOf(length, s, fs[0]) + Trail(length, Apply(s, fs[0]), fs[1..])
  }

  // ----- Reading the trail -----

  type View = map<Column, Json>

  function ApplyNew(view: View, r: Record): View {
    if r.doc.Summary? then view else view + map c | c in r.doc.changes :: r.doc.changes[c].becomes
  }

  function ApplyOld(view: View, r: Record): View {
    if r.doc.Summary? then view else view + map c | c in r.doc.changes :: r.doc.changes[c].was
  }

  function Forward(view: View, trail: seq<Record>): View
    decreases |trail|
  {
    if trail == [] then view else Forward(ApplyNew(view, trail[0]), trail[1..])
  }

  function Backward(view: View, trail: seq<Record>): View
    decreases |trail|
  {
    if trail == [] then view else ApplyOld(Backward(view, trail[1..]), trail[0])
  }

  predicate Visible(c: Column) {
    c !in IGNORED && c !in REDACTED
  }

  predicate Shows(view: View, c: Column, s: Row) {
    c in view && c in s && view[c] == Jsonable(s[c])
  }

  /** A view that may not know the column, but is right if it does. */
  predicate Honest(view: View, c: Column, s: Row) {
    c in view ==> Shows(view, c, s)
  }

  /** No record about the column was cut down to a summary. */
  predicate Kept(trail: seq<Record>, c: Column) {
    forall i :: 0 <= i < |trail| && trail[i].doc.Summary? ==> c !in trail[i].doc.fields
  }

  /** The difference can see the column's stored value when it is overwritten; an unseen null reads the same. */
  predicate Sees(s: Row, f: Flush, c: Column) {
    Overwrites(f, c) && c in f.unknown ==> Get(s, c) == Null
  }

  predicate Unmaintained(fs: seq<Flush>, c: Column) {
    forall i :: 0 <= i < |fs| ==> c !in fs[i].maintained
  }

  predicate EverChanged(s: Row, fs: seq<Flush>, c: Column)
    decreases |fs|
  {
    fs != [] && (Touches(s, fs[0], c) || EverChanged(Apply(s, fs[0]), fs[1..], c))
  }

  /** The first flush that changed the column, if any did, could see what it overwrote. */
  predicate FirstChangeSeen(s: Row, fs: seq<Flush>, c: Column)
    decreases |fs|
  {
    fs == [] || if Touches(s, fs[0], c) then Sees(s, fs[0], c) else FirstChangeSeen(Apply(s, fs[0]), fs[1..], c)
  }

  // ----- One flush -----

  function SidesAt(s: Row, f: Flush, c: Column): Sides
    requires c in s
  {
    Sides(Rendered(c, OldSide(CellAt(s, f, c))), Rendered(c, NewSide(CellAt(s, f, c))))
  }

  /** What one flush records about one column. */
  lemma RecordedColumn(length: Changes -> nat, s: Row, f: Flush, c: Column)
    requires c in s && Kept(RecordsOf(length, s, f), c)
    ensures var trail := RecordsOf(length, s, f);
      && |trail| <= 1
      && (Touches(s, f, c) ==> trail != [] && trail[0].doc.Whole? && c in trail[0].doc.changes)
      && (Touches(s, f, c) ==> trail[0].doc.changes[c] == SidesAt(s, f, c))
      && (!Touches(s, f, c) && trail != [] && trail[0].doc.Whole? ==> c !in trail[0].doc.changes)
  {
    var obj := ObjectAt(s, f);
    assert c in Changed(obj) <==> Touches(s, f, c);
    assert c in ChangesFrom(Before(obj), After(obj)) <==> c in Changed(obj);
  }

  /** A flush that does not change a column leaves its value, and one that does writes the new side. */
  lemma AppliedColumn(s: Row, f: Flush, c: Column)
    requires c in s && c !in f.maintained && c !in IGNORED
    ensures c in Apply(s, f)
    ensures Touches(s, f, c) ==> Apply(s, f)[c] == NewSide(CellAt(s, f, c))
    ensures !Touches(s, f, c) ==> Apply(s, f)[c] == s[c]
  {
  }

  /** What the mapper writes by itself during a flush changes the row and leaves no trace. */
  lemma MaintainedIsUnseen(length: Changes -> nat, s: Row, f: Flush, c: Column)
    requires c in s && c in f.maintained && !Overwrites(f, c)
    ensures c in Apply(s, f) && Apply(s, f)[c] == f.maintained[c]
    ensures forall r :: r in RecordsOf(length, s, f) && r.doc.Whole? ==> c !in r.doc.changes
  {
    assert !Touches(s, f, c);
  }

  /** New sides keep a view honest, and teach it every column that changed. */
  lemma StepForward(length: Changes -> nat, s: Row, f: Flush, view: View, c: Column)
    requires Visible(c) && c in s && c !in f.maintained && Honest(view, c, s) && Kept(RecordsOf(length, s, f), c)
    ensures var next := Forward(view, RecordsOf(length, s, f));
      && Honest(next, c, Apply(s, f))
      && (c in next <==> c in view || Touches(s, f, c))
  {
    var trail := RecordsOf(length, s, f);
    RecordedColumn(length, s, f, c);
    AppliedColumn(s, f, c);
    if trail != [] {
      assert Forward(view, trail) == ApplyNew(view, trail[0]);
    }
  }

  lemma OnlyNullRendersAsNull(v: Value)
    ensures Jsonable(v) == JNull <==> v == Null
  {
  }

  lemma BackwardColumn(length: Changes -> nat, s: Row, f: Flush, view: View, c: Column)
    requires c in s && Kept(RecordsOf(length, s, f), c)
    ensures var last := Backward(view, RecordsOf(length, s, f));
      && (Touches(s, f, c) ==> c in last && last[c] == SidesAt(s, f, c).was)
      && (!Touches(s, f, c) ==> (c in last <==> c in view) && (c in view ==> last[c] == view[c]))
  {
    var trail := RecordsOf(length, s, f);
    RecordedColumn(length, s, f, c);
    if trail != [] {
      assert Backward(view, trail) == ApplyOld(view, trail[0]);
    }
  }

  /** Old sides undo one flush exactly when it could see what it overwrote, whatever the view held where it changed. */
  lemma StepBackward(length: Changes -> nat, s: Row, f: Flush, view: View, c: Column)
    requires Visible(c) && c in s && c !in f.maintained && Kept(RecordsOf(length, s, f), c)
    ensures var last := Backward(view, RecordsOf(length, s, f));
      && (Touches(s, f, c) ==> (Shows(last, c, s) <==> Sees(s, f, c)))
      && (!Touches(s, f, c) ==> (Shows(last, c, s) <==> Shows(view, c, Apply(s, f))))
  {
    BackwardColumn(length, s, f, view, c);
    AppliedColumn(s, f, c);
    OnlyNullRendersAsNull(s[c]);
  }

  /** An overwritten value that was not loaded is recorded as null: the step can be undone exactly when it was null. */
  lemma UndoneExactlyWhenSeen(length: Changes -> nat, s: Row, f: Flush, view: View, c: Column)
    requires Visible(c) && c !in f.maintained && c in s && Shows(view, c, Apply(s, f)) && Kept(RecordsOf(length, s, f), c)
    ensures Shows(Backward(view, RecordsOf(length, s, f)), c, s) <==> Sees(s, f, c)
  {
    StepBackward(length, s, f, view, c);
  }

  lemma TitleIsPlain()
    ensures Visible("title") && "title" != DELETED_AT
  {
    assert |"title"| == 5;
    assert forall c :: c in IGNORED + REDACTED + {DELETED_AT} ==> |c| != 5;
  }

  /** For one: a title overwritten before it was loaded is gone from the trail. */
  lemma LostOldValue(length: Changes -> nat)
    requires length(ChangesFrom(map["title" := Null], map["title" := Text("b")])) <= MAX_DOCUMENT_BYTES
    ensures var s: Row := map["title" := Text("a")];
      var f := Flush(map["title" := Text("b")], {}, {"title"}, map[]);
      && RecordsOf(length, s, f) == [Record(UPDATE, Whole(ChangesFrom(map["title" := Null], map["title" := Text("b")])))]
      && !Shows(Backward(map["title" := JText("b")], RecordsOf(length, s, f)), "title", s)
  {
    var s: Row := map["title" := Text("a")];
    var f := Flush(map["title" := Text("b")], {}, {"title"}, map[]);
    var obj := ObjectAt(s, f);
    TitleIsPlain();
    assert obj == map["title" := Cell(None, Held(Text("b")))];
    assert Changed(obj) == {"title"};
    assert Before(obj) == map["title" := Null] && After(obj) == map["title" := Text("b")];
    assert Shows(map["title" := JText("b")], "title", Apply(s, f));
    assert Kept(RecordsOf(length, s, f), "title");
    UndoneExactlyWhenSeen(length, s, f, map["title" := JText("b")], "title");
  }

  // ----- Any chain of flushes -----

  lemma {:induction false} ForwardConcat(view: View, a: seq<Record>, b: seq<Record>)
    ensures Forward(view, a + b) == Forward(Forward(view, a), b)
    decreases |a|
  {
    if a == [] {
      assert a + b == b;
    } else {
      assert (a + b)[1..] == a[1..] + b;
      ForwardConcat(ApplyNew(view, a[0]), a[1..], b);
    }
  }

  lemma {:induction false} BackwardConcat(view: View, a: seq<Record>, b: seq<Record>)
    ensures Backward(view, a + b) == Backward(Backward(view, b), a)
    decreases |a|
  {
    if a == [] {
      assert a + b == b;
    } else {
      assert (a + b)[1..] == a[1..] + b;
      BackwardConcat(view, a[1..], b);
    }
  }

  lemma KeptSplits(a: seq<Record>, b: seq<Record>, c: Column)
    requires Kept(a + b, c)
    ensures Kept(a, c) && Kept(b, c)
  {
    assert forall i :: 0 <= i < |a| ==> a[i] == (a + b)[i];
    assert forall i :: 0 <= i < |b| ==> b[i] == (a + b)[|a| + i];
  }

  /**
    The new sides, applied in order, lead from the first state to the last.  A column the
    starting view did not know is known in the end exactly when some flush changed it, and
    then it is right too.
  */
  lemma {:induction false} ForwardReplays(length: Changes -> nat, s: Row, fs: seq<Flush>, view: View, c: Column)
    requires Visible(c) && c in s && Unmaintained(fs, c) && Honest(view, c, s) && Kept(Trail(length, s, fs), c)
    ensures var last := Forward(view, Trail(length, s, fs));
      && Honest(last, c, Exec(s, fs))
      && (c in last <==> c in view || EverChanged(s, fs, c))
    decreases |fs|
  {
    if fs != [] {
      var t := Apply(s, fs[0]);
      var a, b := RecordsOf(length, s, fs[0]), Trail(length, t, fs[1..]);
      KeptSplits(a, b, c);
      StepForward(length, s, fs[0], view, c);
      ForwardConcat(view, a, b);
      ForwardReplays(length, t, fs[1..], Forward(view, a), c);
    }
  }

  /**
    The old sides, applied in reverse from the last state, lead back to the first exactly when
    the first flush that changed the column could see what it overwrote.
  */
  lemma {:induction false} BackwardReplays(length: Changes -> nat, s: Row, fs: seq<Flush>, view: View, c: Column)
    requires Visible(c) && Unmaintained(fs, c) && c in s && Shows(view, c, Exec(s, fs)) && Kept(Trail(length, s, fs), c)
    ensures Shows(Backward(view, Trail(length, s, fs)), c, s) <==> FirstChangeSeen(s, fs, c)
    decreases |fs|
  {
    if fs != [] {
      var t := Apply(s, fs[0]);
      var a, b := RecordsOf(length, s, fs[0]), Trail(length, t, fs[1..]);
      KeptSplits(a, b, c);
      BackwardConcat(view, a, b);
      StepBackward(length, s, fs[0], Backward(view, b), c);
      BackwardReplays(length, t, fs[1..], view, c);
    }
  }

  // ----- From the first record to the last -----

  /** `part` holds some of the columns of `row`. */
  predicate PartOf(part: Row, row: Row) {
    forall c :: c in part ==> c in row && row[c] == part[c]
  }

  function Loaded(row: Row): Row {
    map c | c in row && c !in IGNORED :: row[c]
  }

  /** A new row, with the columns loaded after the flush; nothing is written if there is nothing to show. */
  function InsertRecords(length: Changes -> nat, loaded: Row): seq<Record> {
    var changes := ChangesFrom(map[], Loaded(loaded));
    if changes == map[] then [] else [Record(INSERT, Cap(length, changes))]
  }

  function DeleteRecords(length: Changes -> nat, loaded: Row): seq<Record> {
    var changes := ChangesFrom(Loaded(loaded), map[]);
    if changes == map[] then [] else [Record(DELETE, Cap(length, changes))]
  }

  lemma BirthShows(length: Changes -> nat, loaded: Row, s: Row, c: Column)
    requires Visible(c) && PartOf(loaded, s) && Kept(InsertRecords(length, loaded), c)
    ensures var view := Forward(map[], InsertRecords(length, loaded));
      Honest(view, c, s) && (c in view <==> c in loaded)
  {
    var born := InsertRecords(length, loaded);
    var changes := ChangesFrom(map[], Loaded(loaded));
    assert c in loaded <==> c in changes;
    if born != [] {
      assert Forward(map[], born) == ApplyNew(map[], born[0]);
    }
  }

  /** A deletion names the loaded part of the state that was lost. */
  lemma DeathShows(length: Changes -> nat, loaded: Row, s: Row, c: Column)
    requires Visible(c) && PartOf(loaded, s) && Kept(DeleteRecords(length, loaded), c)
    ensures var view := Backward(map[], DeleteRecords(length, loaded));
      Honest(view, c, s) && (c in view <==> c in loaded)
  {
    var died := DeleteRecords(length, loaded);
    var changes := ChangesFrom(Loaded(loaded), map[]);
    assert c in loaded <==> c in changes;
    if died != [] {
      assert Backward(map[], died) == ApplyOld(map[], died[0]);
    }
  }

  /**
    A row's history can be read from its records alone: what the replay shows is right, and it
    shows a column exactly when it was loaded at birth or changed since.  The deletion agrees,
    for the columns loaded then.
  */
  lemma WholeLife(length: Changes -> nat, born: Row, s: Row, fs: seq<Flush>, died: Row, c: Column)
    requires Visible(c) && c in s && Unmaintained(fs, c) && PartOf(born, s) && PartOf(died, Exec(s, fs))
    requires Kept(InsertRecords(length, born) + Trail(length, s, fs), c) && Kept(DeleteRecords(length, died), c)
    ensures var view := Forward(map[], InsertRecords(length, born) + Trail(length, s, fs));
      && Honest(view, c, Exec(s, fs))
      && (c in view <==> c in born || EverChanged(s, fs, c))
    ensures var lost := Backward(map[], DeleteRecords(length, died));
      Honest(lost, c, Exec(s, fs)) && (c in lost <==> c in died)
  {
    var birth, trail := InsertRecords(length, born), Trail(length, s, fs);
    KeptSplits(birth, trail, c);
    BirthShows(length, born, s, c);
    ForwardConcat(map[], birth, trail);
    ForwardReplays(length, s, fs, Forward(map[], birth), c);
    DeathShows(length, died, Exec(s, fs), c);
  }

  // ----- Soft deletion -----

  predicate Deleted(s: Row) {
    Get(s, DELETED_AT) != Null
  }

  function TrueAction(was: bool, now: bool): Kind {
    if now && !was then SOFT_DELETE else if was && !now then RESTORE else UPDATE
  }

  lemma StampIsRecorded()
    ensures DELETED_AT !in IGNORED
  {
    assert forall c :: c in IGNORED ==> c[0] != 'd';
  }

  lemma SilentFlush(length: Changes -> nat, s: Row, f: Flush)
    requires DELETED_AT in s && DELETED_AT !in f.maintained && RecordsOf(length, s, f) == []
    ensures Deleted(Apply(s, f)) == Deleted(s)
  {
    StampIsRecorded();
    var obj := ObjectAt(s, f);
    assert DELETED_AT !in Changed(obj);
  }

  predicate SeenThroughout(s: Row, fs: seq<Flush>, c: Column)
    decreases |fs|
  {
    fs == [] || (Sees(s, fs[0], c) && SeenThroughout(Apply(s, fs[0]), fs[1..], c))
  }

  /** A flush is labelled by what it did to the row, exactly when it could see whether the row was deleted. */
  lemma LabelledExactlyWhenSeen(length: Changes -> nat, s: Row, f: Flush)
    requires DELETED_AT in s && DELETED_AT !in f.maintained && RecordsOf(length, s, f) != []
    ensures RecordsOf(length, s, f)[0].kind == TrueAction(Deleted(s), Deleted(Apply(s, f))) <==> Sees(s, f, DELETED_AT)
  {
    StampIsRecorded();
    var obj := ObjectAt(s, f);
    assert DELETED_AT in After(obj) <==> HasChanges(obj[DELETED_AT]);
  }

  /** For one: clearing a stamp that was not loaded restores the row under the label of an update. */
  lemma MislabelledRestore(length: Changes -> nat, at: string)
    ensures var s: Row := map["deleted_at" := Moment(at)];
      var f := Flush(map["deleted_at" := Null], {}, {"deleted_at"}, map[]);
      && Deleted(s) && !Deleted(Apply(s, f))
      && |RecordsOf(length, s, f)| == 1 && RecordsOf(length, s, f)[0].kind == UPDATE
  {
    var s: Row := map[DELETED_AT := Moment(at)];
    var f := Flush(map[DELETED_AT := Null], {}, {DELETED_AT}, map[]);
    StampIsRecorded();
    assert ObjectAt(s, f)[DELETED_AT] == Cell(None, Held(Null));
    assert DELETED_AT in Changed(ObjectAt(s, f));
  }

  /** The deletions and restorations of a trail, in order. */
  function Marks(trail: seq<Record>): seq<Kind>
    decreases |trail|
  {
    if trail == [] then []
    else
      var rest := Marks(trail[1..]);
      if trail[0].kind == SOFT_DELETE || trail[0].kind == RESTORE then [trail[0].kind] + rest else rest
  }

  predicate Alternates(marks: seq<Kind>, deleted: bool)
    decreases |marks|
  {
    marks == [] || (marks[0] == (if deleted then RESTORE else SOFT_DELETE) && Alternates(marks[1..], !deleted))
  }

  /** What the last mark says, if there is one. */
  function MarkedDeleted(marks: seq<Kind>, deleted: bool): bool
    decreases |marks|
  {
    if marks == [] then deleted else MarkedDeleted(marks[1..], marks[0] == SOFT_DELETE)
  }

  lemma MarksOfOneMore(a: seq<Record>, b: seq<Record>)
    requires |a| <= 1
    ensures Marks(a + b) == Marks(a) + Marks(b)
  {
    if a == [] {
      assert a + b == b;
    } else {
      assert (a + b)[1..] == b && a[1..] == [];
    }
  }

  lemma StepMarks(length: Changes -> nat, s: Row, f: Flush)
    requires DELETED_AT in s && DELETED_AT !in f.maintained && Sees(s, f, DELETED_AT)
    ensures var t := Apply(s, f);
      Marks(RecordsOf(length, s, f)) == if Deleted(s) == Deleted(t) then [] else [TrueAction(Deleted(s), Deleted(t))]
  {
    var records := RecordsOf(length, s, f);
    if records == [] {
      SilentFlush(length, s, f);
    } else {
      LabelledExactlyWhenSeen(length, s, f);
      assert Marks(records[1..]) == [];
    }
  }

  lemma OneMoreMark(mark: Kind, rest: seq<Kind>, deleted: bool)
    requires mark == TrueAction(deleted, !deleted) && Alternates(rest, !deleted)
    ensures Alternates([mark] + rest, deleted)
    ensures MarkedDeleted([mark] + rest, deleted) == MarkedDeleted(rest, !deleted)
  {
    assert ([mark] + rest)[1..] == rest;
  }

  /**
    Deletions and restorations take turns, a row that starts live being deleted first, and
    the last of them says whether the row is deleted now.  Truncation does not matter here.
  */
  lemma {:induction false} DeletionsAlternate(length: Changes -> nat, s: Row, fs: seq<Flush>)
    requires DELETED_AT in s && Unmaintained(fs, DELETED_AT) && SeenThroughout(s, fs, DELETED_AT)
    ensures Alternates(Marks(Trail(length, s, fs)), Deleted(s))
    ensures Deleted(Exec(s, fs)) == MarkedDeleted(Marks(Trail(length, s, fs)), Deleted(s))
    decreases |fs|
  {
    if fs != [] {
      var t := Apply(s, fs[0]);
      var a, b := RecordsOf(length, s, fs[0]), Trail(length, t, fs[1..]);
      DeletionsAlternate(length, t, fs[1..]);
      MarksOfOneMore(a, b);
      StepMarks(length, s, fs[0]);
      if Deleted(s) == Deleted(t) {
        assert [] + Marks(b) == Marks(b);
      } else {
        OneMoreMark(TrueAction(Deleted(s), Deleted(t)), Marks(b), Deleted(s));
      }
    }
  }
}
