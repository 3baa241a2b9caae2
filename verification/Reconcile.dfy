/** Evidence reconciliation against a storage that does not change while it runs. */
module Reconcile {
  import opened Prelude
  import opened Text

  type Bytes = seq<bv8>

  datatype Status = Unverified | Pending | Ready | Failed

  datatype Row = Row(
    jobId: nat, status: Status, key: nat, size: nat, hash: Option<Hex>, mime: Option<string>, createdAt: nat)

  /** What the provider answers for a key: no object, a storage error, or the object. */
  datatype Access = Missing | Broken | Object(bytes: Bytes)

  /** The fixed surroundings of a run: storage, clock, SHA-256 over bytes, and the image detector. */
  datatype Context = Context(storage: nat -> Access, clock: int, sha256: Bytes -> Hex, detect: Bytes -> Option<string>)

  datatype Kind = Verified | Clean | ObjectMissing | Mismatch | Stale | Error

  datatype Reason =
    | StorageError | ObjectAbsent | SizeDiffers | HashDiffers | NotAnImage | MatchesMetadata | VerifiedDeep | VerifiedSize
    | PastWindow

  /** The verdict on one row and the status an apply run moves it to. */
  datatype Verdict = Verdict(kind: Kind, reason: Reason, to: Option<Status>)

  datatype TableName = JobPhotos | CustomerSignatures

  datatype Record = Record(table: TableName, id: nat, jobId: nat, kind: Kind, reason: Reason, transitionedTo: Option<Status>)

  const STALE_PENDING_MS := 15 * 60 * 1000

  // ---------------------------------------------------------------- checking one row

  predicate HashAgrees(c: Context, row: Row, b: Bytes) {
    row.hash.Some? ==> c.sha256(b) == row.hash.value
  }

  predicate TypeAgrees(c: Context, row: Row, b: Bytes) {
    var d := c.detect(b);
    d.Some? && (row.mime.Some? && row.mime.value != "" ==> d == row.mime)
  }

  /** `verifyLegacy`: always reads the whole object. */
  function CheckLegacy(c: Context, row: Row): Verdict {
    match c.storage(row.key)
    case Broken => Verdict(Error, StorageError, None)
    case Missing => Verdict(ObjectMissing, ObjectAbsent, Some(Failed))
    case Object(b) =>
      if |b| != row.size then Verdict(Mismatch, SizeDiffers, Some(Failed))
      else if !HashAgrees(c, row, b) then Verdict(Mismatch, HashDiffers, Some(Failed))
      else if !TypeAgrees(c, row, b) then Verdict(Mismatch, NotAnImage, Some(Failed))
      else Verdict(Verified, MatchesMetadata, Some(Ready))
  }

  /** `verifyReady`: size, and with `deep` also the hash. */
  function CheckReady(c: Context, deep: bool, row: Row): Verdict {
    match c.storage(row.key)
    case Broken => Verdict(Error, StorageError, None)
    case Missing => Verdict(ObjectMissing, ObjectAbsent, Some(Failed))
    case Object(b) =>
      if |b| != row.size then Verdict(Mismatch, SizeDiffers, Some(Failed))
      else if deep && !HashAgrees(c, row, b) then Verdict(Mismatch, HashDiffers, Some(Failed))
      else Verdict(Clean, if deep then VerifiedDeep else VerifiedSize, None)
  }

  function CheckStale(row: Row): Verdict {
    Verdict(Stale, PastWindow, Some(Failed))
  }

  // ---------------------------------------------------------------- one pass over a table

  datatype PassKind = Legacy | Integrity(deep: bool) | Sweep

  predicate Selected(c: Context, p: PassKind, row: Row) {
    match p
    case Legacy => row.status == Unverified
    case Integrity(_) => row.status == Ready
    case Sweep => row.status == Pending && row.createdAt as int < c.clock - STALE_PENDING_MS
  }

  function Check(c: Context, p: PassKind, row: Row): Verdict {
    match p
    case Legacy => CheckLegacy(c, row)
    case Integrity(deep) => CheckReady(c, deep, row)
    case Sweep => CheckStale(row)
  }

  /** A pass as data: which rows it selects and its verdict on each. */
  datatype Test = Test(selects: Row -> bool, check: Row -> Verdict)

  function TestOf(c: Context, p: PassKind): Test {
    Test((row: Row) => Selected(c, p, row), (row: Row) => Check(c, p, row))
  }

  function Moved(q: Test, apply: bool, row: Row): Row {
    if apply && q.selects(row) && q.check(row).to.Some? then row.(status := q.check(row).to.value) else row
  }

  function PassRows(q: Test, apply: bool, rows: seq<Row>): seq<Row> {
    seq(|rows|, k requires 0 <= k < |rows| => Moved(q, apply, rows[k]))
  }

  function RecordOf(q: Test, apply: bool, table: TableName, id: nat, row: Row): Record {
    var v := q.check(row);
    Record(table, id, row.jobId, v.kind, v.reason, if apply then v.to else None)
  }

  function PassRecords(q: Test, apply: bool, table: TableName, rows: seq<Row>): seq<Record> {
    if rows == [] then []
    else
      var id := |rows| - 1;
      PassRecords(q, apply, table, rows[..id])
      + if q.selects(rows[id]) then [RecordOf(q, apply, table, id, rows[id])] else []
  }

  // ---------------------------------------------------------------- a run

  datatype Tables = Tables(photos: seq<Row>, signatures: seq<Row>)

  function TableRows(c: Context, deep: bool, apply: bool, rows: seq<Row>): seq<Row> {
    PassRows(TestOf(c, Sweep), apply, PassRows(TestOf(c, Integrity(deep)), apply, PassRows(TestOf(c, Legacy), apply, rows)))
  }

  function TableRecords(c: Context, deep: bool, apply: bool, table: TableName, rows: seq<Row>): seq<Record> {
    var afterLegacy := PassRows(TestOf(c, Legacy), apply, rows);
    var afterReady := PassRows(TestOf(c, Integrity(deep)), apply, afterLegacy);
    PassRecords(TestOf(c, Legacy), apply, table, rows)
    + PassRecords(TestOf(c, Integrity(deep)), apply, table, afterLegacy)
    + PassRecords(TestOf(c, Sweep), apply, table, afterReady)
  }

  function RunTables(c: Context, deep: bool, apply: bool, t: Tables): Tables {
    Tables(TableRows(c, deep, apply, t.photos), TableRows(c, deep, apply, t.signatures))
  }

  function RunRecords(c: Context, deep: bool, apply: bool, t: Tables): seq<Record> {
    TableRecords(c, deep, apply, JobPhotos, t.photos) + TableRecords(c, deep, apply, CustomerSignatures, t.signatures)
  }

  predicate IsFinding(r: Record) {
    r.kind != Verified && r.kind != Clean
  }

  function Findings(rs: seq<Record>): seq<Record> {
    if rs == [] then []
    else Findings(rs[..|rs| - 1]) + if IsFinding(rs[|rs| - 1]) then [rs[|rs| - 1]] else []
  }

  /** The finding as reported, leaving out what became of the row. */
  function Reported(rs: seq<Record>): seq<Record> {
    seq(|rs|, k requires 0 <= k < |rs| => rs[k].(transitionedTo := None))
  }

  // ---------------------------------------------------------------- theorems

  lemma {:induction false} FindingsAppend(a: seq<Record>, b: seq<Record>)
    ensures Findings(a + b) == Findings(a) + Findings(b)
  {
    if b == [] {
      assert a + b == a;
    } else {
      var n := |b| - 1;
      assert (a + b)[..|a + b| - 1] == a + b[..n];
      FindingsAppend(a, b[..n]);
    }
  }

  /** A dry run changes nothing. */
  lemma DryRunChangesNothing(c: Context, deep: bool, t: Tables)
    ensures RunTables(c, deep, false, t) == t
    ensures forall k :: 0 <= k < |RunRecords(c, deep, false, t)| ==> RunRecords(c, deep, false, t)[k].transitionedTo == None
  {
    DryTable(c, deep, JobPhotos, t.photos);
    DryTable(c, deep, CustomerSignatures, t.signatures);
  }

  lemma DryTable(c: Context, deep: bool, table: TableName, rows: seq<Row>)
    ensures TableRows(c, deep, false, rows) == rows
    ensures forall r <- TableRecords(c, deep, false, table, rows) :: r.transitionedTo == None
  {
    assert PassRows(TestOf(c, Legacy), false, rows) == rows;
    assert PassRows(TestOf(c, Integrity(deep)), false, rows) == rows;
    assert PassRows(TestOf(c, Sweep), false, rows) == rows;
    DryRecords(TestOf(c, Legacy), table, rows);
    DryRecords(TestOf(c, Integrity(deep)), table, rows);
    DryRecords(TestOf(c, Sweep), table, rows);
  }

  lemma {:induction false} DryRecords(q: Test, table: TableName, rows: seq<Row>)
    ensures forall r <- PassRecords(q, false, table, rows) :: r.transitionedTo == None
  {
    if rows != [] {
      DryRecords(q, table, rows[..|rows| - 1]);
    }
  }

  /** Two tables whose rows a pass judges alike: selected in one without the other only when clean. */
  ghost predicate JudgedAlike(q: Test, rows: seq<Row>, t: seq<Row>) {
    && |rows| == |t|
    && forall k :: 0 <= k < |rows| ==> RowsAlike(q, rows[k], t[k])
  }

  ghost predicate RowsAlike(q: Test, row: Row, x: Row) {
    && x.jobId == row.jobId
    && (q.selects(row) && q.selects(x) ==> q.check(x) == q.check(row))
    && (q.selects(row) && !q.selects(x) ==> q.check(row).kind == Clean)
    && (!q.selects(row) && q.selects(x) ==> q.check(x).kind == Clean)
  }

  lemma {:induction false} SamePassFindings(q: Test, table: TableName, rows: seq<Row>, a: bool, t: seq<Row>, b: bool)
    requires JudgedAlike(q, rows, t)
    ensures Reported(Findings(PassRecords(q, a, table, rows))) == Reported(Findings(PassRecords(q, b, table, t)))
  {
    if rows != [] {
      var n := |rows| - 1;
      SamePassFindings(q, table, rows[..n], a, t[..n], b);
      assert RowsAlike(q, rows[n], t[n]);
      LastRecord(q, a, table, rows);
      LastRecord(q, b, table, t);
      ReportedAppend(Findings(PassRecords(q, a, table, rows[..n])), Noted(q, a, table, n, rows[n]));
      ReportedAppend(Findings(PassRecords(q, b, table, t[..n])), Noted(q, b, table, n, t[n]));
      NotedAlike(q, table, n, rows[n], a, t[n], b);
    }
  }

  /** What row id adds to the findings of a pass. */
  function Noted(q: Test, apply: bool, table: TableName, id: nat, row: Row): seq<Record> {
    if q.selects(row) && IsFinding(RecordOf(q, apply, table, id, row)) then [RecordOf(q, apply, table, id, row)] else []
  }

  lemma NotedAlike(q: Test, table: TableName, id: nat, row: Row, a: bool, x: Row, b: bool)
    requires RowsAlike(q, row, x)
    ensures Reported(Noted(q, a, table, id, row)) == Reported(Noted(q, b, table, id, x))
  {
  }

  lemma LastRecord(q: Test, apply: bool, table: TableName, rows: seq<Row>)
    requires rows != []
    ensures var n := |rows| - 1;
      Findings(PassRecords(q, apply, table, rows)) ==
        Findings(PassRecords(q, apply, table, rows[..n])) + Noted(q, apply, table, n, rows[n])
  {
    var n := |rows| - 1;
    FindingsOfOne(PassRecords(q, apply, table, rows[..n]), q.selects(rows[n]), RecordOf(q, apply, table, n, rows[n]));
  }

  lemma FindingsOfOne(rs: seq<Record>, selected: bool, r: Record)
    ensures Findings(rs + if selected then [r] else []) == Findings(rs) + if selected && IsFinding(r) then [r] else []
  {
    assert (rs + [r])[..|rs|] == rs;
    assert rs + [] == rs;
  }

  /** A row the legacy pass promotes is clean in the integrity pass. */
  lemma PromotedIsClean(c: Context, deep: bool, row: Row)
    requires row.status == Unverified
    ensures RowsAlike(TestOf(c, Integrity(deep)), row, Moved(TestOf(c, Legacy), true, row))
    ensures RowsAlike(TestOf(c, Sweep), row, Moved(TestOf(c, Legacy), true, row))
  {
  }

  lemma LegacyJudgedAlike(c: Context, deep: bool, rows: seq<Row>)
    ensures JudgedAlike(TestOf(c, Integrity(deep)), rows, PassRows(TestOf(c, Legacy), true, rows))
    ensures JudgedAlike(TestOf(c, Sweep), rows, PassRows(TestOf(c, Integrity(deep)), true, PassRows(TestOf(c, Legacy), true, rows)))
  {
    forall k | 0 <= k < |rows| ensures RowsAlike(TestOf(c, Integrity(deep)), rows[k], Moved(TestOf(c, Legacy), true, rows[k])) {
      if rows[k].status == Unverified {
        PromotedIsClean(c, deep, rows[k]);
      }
    }
  }

  /** A dry run and an apply run report the same findings: the same rows, kinds and reasons in the same order. */
  lemma SameFindings(c: Context, deep: bool, t: Tables)
    ensures Reported(Findings(RunRecords(c, deep, false, t))) == Reported(Findings(RunRecords(c, deep, true, t)))
  {
    SameTableFindings(c, deep, JobPhotos, t.photos);
    SameTableFindings(c, deep, CustomerSignatures, t.signatures);
    FindingsAppend(TableRecords(c, deep, false, JobPhotos, t.photos), TableRecords(c, deep, false, CustomerSignatures, t.signatures));
    FindingsAppend(TableRecords(c, deep, true, JobPhotos, t.photos), TableRecords(c, deep, true, CustomerSignatures, t.signatures));
    ReportedAppend(Findings(TableRecords(c, deep, false, JobPhotos, t.photos)), Findings(TableRecords(c, deep, false, CustomerSignatures, t.signatures)));
    ReportedAppend(Findings(TableRecords(c, deep, true, JobPhotos, t.photos)), Findings(TableRecords(c, deep, true, CustomerSignatures, t.signatures)));
  }

  lemma ReportedAppend(a: seq<Record>, b: seq<Record>)
    ensures Reported(a + b) == Reported(a) + Reported(b)
  {
  }

  lemma ThreeFindings(a: seq<Record>, b: seq<Record>, d: seq<Record>)
    ensures Reported(Findings(a + b + d)) == Reported(Findings(a)) + Reported(Findings(b)) + Reported(Findings(d))
  {
    FindingsAppend(a + b, d);
    FindingsAppend(a, b);
    ReportedAppend(Findings(a) + Findings(b), Findings(d));
    ReportedAppend(Findings(a), Findings(b));
  }

  lemma SameTableFindings(c: Context, deep: bool, table: TableName, rows: seq<Row>)
    ensures Reported(Findings(TableRecords(c, deep, false, table, rows))) == Reported(Findings(TableRecords(c, deep, true, table, rows)))
  {
    assert PassRows(TestOf(c, Legacy), false, rows) == rows;
    assert PassRows(TestOf(c, Integrity(deep)), false, rows) == rows;
    var l := PassRows(TestOf(c, Legacy), true, rows);
    var r := PassRows(TestOf(c, Integrity(deep)), true, l);
    LegacyJudgedAlike(c, deep, rows);
    SamePassFindings(TestOf(c, Legacy), table, rows, false, rows, true);
    SamePassFindings(TestOf(c, Integrity(deep)), table, rows, false, l, true);
    SamePassFindings(TestOf(c, Sweep), table, rows, false, r, true);
    ThreeFindings(PassRecords(TestOf(c, Legacy), false, table, rows), PassRecords(TestOf(c, Integrity(deep)), false, table, rows),
                  PassRecords(TestOf(c, Sweep), false, table, rows));
    ThreeFindings(PassRecords(TestOf(c, Legacy), true, table, rows), PassRecords(TestOf(c, Integrity(deep)), true, table, l),
                  PassRecords(TestOf(c, Sweep), true, table, r));
  }

  /** What one apply run does to one row. */
  function RunRow(c: Context, deep: bool, row: Row): Row {
    Moved(TestOf(c, Sweep), true, Moved(TestOf(c, Integrity(deep)), true, Moved(TestOf(c, Legacy), true, row)))
  }

  lemma RowIsStable(c: Context, deep: bool, row: Row)
    ensures RunRow(c, deep, RunRow(c, deep, row)) == RunRow(c, deep, row)
  {
  }

  lemma TableRowsAre(c: Context, deep: bool, rows: seq<Row>)
    ensures |TableRows(c, deep, true, rows)| == |rows|
    ensures forall k :: 0 <= k < |rows| ==> TableRows(c, deep, true, rows)[k] == RunRow(c, deep, rows[k])
  {
  }

  /** Running again in the same mode changes nothing more. */
  lemma SecondRunChangesNothing(c: Context, deep: bool, t: Tables)
    ensures RunTables(c, deep, true, RunTables(c, deep, true, t)) == RunTables(c, deep, true, t)
  {
    SecondTableRun(c, deep, t.photos);
    SecondTableRun(c, deep, t.signatures);
  }

  lemma SecondTableRun(c: Context, deep: bool, rows: seq<Row>)
    ensures TableRows(c, deep, true, TableRows(c, deep, true, rows)) == TableRows(c, deep, true, rows)
  {
    TableRowsAre(c, deep, rows);
    TableRowsAre(c, deep, TableRows(c, deep, true, rows));
    forall k | 0 <= k < |rows|
      ensures TableRows(c, deep, true, TableRows(c, deep, true, rows))[k] == TableRows(c, deep, true, rows)[k]
    {
      RowIsStable(c, deep, rows[k]);
    }
  }

  /** The object of a row is there, with the recorded size and, if recorded, the recorded hash. */
  predicate MatchesObject(c: Context, row: Row) {
    && c.storage(row.key).Object?
    && |c.storage(row.key).bytes| == row.size
    && HashAgrees(c, row, c.storage(row.key).bytes)
  }

  lemma {:induction false} RecordIsThere(q: Test, apply: bool, table: TableName, rows: seq<Row>, id: nat)
    requires id < |rows| && q.selects(rows[id])
    ensures RecordOf(q, apply, table, id, rows[id]) in PassRecords(q, apply, table, rows)
  {
    if id < |rows| - 1 {
      RecordIsThere(q, apply, table, rows[..|rows| - 1], id);
    }
  }

  /** After a deep apply run every row of a table that reads READY matches its object, or is reported
      as a storage error; and every such row was legacy or READY before. */
  lemma DeepRunIsRight(c: Context, table: TableName, rows: seq<Row>, id: nat)
    requires id < |rows| && TableRows(c, true, true, rows)[id].status == Ready
    ensures rows[id].status == Ready || rows[id].status == Unverified
    ensures MatchesObject(c, rows[id]) || Record(table, id, rows[id].jobId, Error, StorageError, None) in TableRecords(c, true, true, table, rows)
  {
    TableRowsAre(c, true, rows);
    var l := PassRows(TestOf(c, Legacy), true, rows);
    assert l[id].status == Ready;
    RecordIsThere(TestOf(c, Integrity(true)), true, table, l, id);
    if !MatchesObject(c, rows[id]) {
      BrokenIsReported(c, table, id, rows[id]);
    }
  }

  lemma BrokenIsReported(c: Context, table: TableName, id: nat, row: Row)
    requires RunRow(c, true, row).status == Ready
    ensures MatchesObject(c, row)
      || RecordOf(TestOf(c, Integrity(true)), true, table, id, Moved(TestOf(c, Legacy), true, row))
         == Record(table, id, row.jobId, Error, StorageError, None)
  {
  }

  /** The bytes are those of an image of the recorded type. */
  predicate TypedAsRecorded(c: Context, row: Row) {
    && c.storage(row.key).Object?
    && var found := c.detect(c.storage(row.key).bytes);
      found.Some? && (row.mime == None || row.mime == Some("") || found == row.mime)
  }

  predicate SizeMatches(c: Context, row: Row) {
    c.storage(row.key).Object? && |c.storage(row.key).bytes| == row.size
  }

  predicate PastTheWindow(c: Context, row: Row) {
    row.createdAt as int + 900_000 < c.clock
  }

  /** What an apply run leaves a row as, by what it is and what the storage says of its object. */
  function Fate(c: Context, deep: bool, row: Row): Status {
    match row.status
    case Failed => Failed
    case Pending => if PastTheWindow(c, row) then Failed else Pending
    case Unverified =>
      if c.storage(row.key) == Broken then Unverified
      else if MatchesObject(c, row) && TypedAsRecorded(c, row) then Ready
      else Failed
    case Ready =>
      if c.storage(row.key) == Broken then Ready
      else if deep then (if MatchesObject(c, row) then Ready else Failed)
      else (if SizeMatches(c, row) then Ready else Failed)
  }

  /** Reconciliation gives every row its fate and touches nothing else of it: it never revives failed
      evidence, accepts legacy evidence exactly if its object, hash and type match, and fails pending
      evidence exactly after fifteen minutes. */
  lemma OnlyAllowedMoves(c: Context, deep: bool, rows: seq<Row>, id: nat)
    requires id < |rows|
    ensures |TableRows(c, deep, true, rows)| == |rows|
    ensures TableRows(c, deep, true, rows)[id] == rows[id].(status := Fate(c, deep, rows[id]))
  {
    TableRowsAre(c, deep, rows);
    FateOf(c, deep, rows[id]);
  }

  lemma FateOf(c: Context, deep: bool, row: Row)
    ensures RunRow(c, deep, row) == row.(status := Fate(c, deep, row))
  {
    if row.mime.Some? && row.mime.value == "" {
      assert row.mime == Some("");
    }
  }

  /** Something is wrong with the row: it waited too long, or its object is not what it records or cannot be read. */
  predicate Troubled(c: Context, deep: bool, row: Row) {
    match row.status
    case Failed => false
    case Pending => PastTheWindow(c, row)
    case Unverified => !(MatchesObject(c, row) && TypedAsRecorded(c, row))
    case Ready => if deep then !MatchesObject(c, row) else !SizeMatches(c, row)
  }

  lemma {:induction false} RecordsAre(q: Test, apply: bool, table: TableName, rows: seq<Row>, r: Record)
    ensures r in PassRecords(q, apply, table, rows) <==>
      r.id < |rows| && q.selects(rows[r.id]) && r == RecordOf(q, apply, table, r.id, rows[r.id])
  {
    if rows != [] {
      RecordsAre(q, apply, table, rows[..|rows| - 1], r);
    }
  }

  /** A finding of a pass names row id. */
  ghost predicate Named(q: Test, apply: bool, table: TableName, rows: seq<Row>, id: nat) {
    exists r :: r in PassRecords(q, apply, table, rows) && r.id == id && IsFinding(r)
  }

  lemma NamedIs(q: Test, apply: bool, table: TableName, rows: seq<Row>, id: nat)
    requires id < |rows|
    ensures Named(q, apply, table, rows, id) <==> q.selects(rows[id]) && q.check(rows[id]).kind != Verified && q.check(rows[id]).kind != Clean
  {
    RecordsAre(q, apply, table, rows, RecordOf(q, apply, table, id, rows[id]));
    if r :| r in PassRecords(q, apply, table, rows) && r.id == id && IsFinding(r) {
      RecordsAre(q, apply, table, rows, r);
    }
  }

  /** A run, dry or not, reports a finding for exactly the rows something is wrong with. */
  lemma FindingsExactly(c: Context, deep: bool, apply: bool, table: TableName, rows: seq<Row>, id: nat)
    requires id < |rows|
    ensures (exists r :: r in TableRecords(c, deep, apply, table, rows) && r.id == id && IsFinding(r)) <==> Troubled(c, deep, rows[id])
  {
    var l := PassRows(TestOf(c, Legacy), apply, rows);
    var m := PassRows(TestOf(c, Integrity(deep)), apply, l);
    NamedIs(TestOf(c, Legacy), apply, table, rows, id);
    NamedIs(TestOf(c, Integrity(deep)), apply, table, l, id);
    NamedIs(TestOf(c, Sweep), apply, table, m, id);
    RecordsSplit(c, deep, apply, table, rows, id);
    TroubleShows(c, deep, apply, rows[id]);
  }

  lemma RecordsSplit(c: Context, deep: bool, apply: bool, table: TableName, rows: seq<Row>, id: nat)
    ensures (exists r :: r in TableRecords(c, deep, apply, table, rows) && r.id == id && IsFinding(r)) <==>
      var l := PassRows(TestOf(c, Legacy), apply, rows);
      || Named(TestOf(c, Legacy), apply, table, rows, id)
      || Named(TestOf(c, Integrity(deep)), apply, table, l, id)
      || Named(TestOf(c, Sweep), apply, table, PassRows(TestOf(c, Integrity(deep)), apply, l), id)
  {
  }

  lemma TroubleShows(c: Context, deep: bool, apply: bool, row: Row)
    ensures var l := Moved(TestOf(c, Legacy), apply, row);
      var m := Moved(TestOf(c, Integrity(deep)), apply, l);
      Troubled(c, deep, row) <==>
        || (row.status == Unverified && CheckLegacy(c, row).kind != Verified)
        || (l.status == Ready && CheckReady(c, deep, l).kind != Clean)
        || (Selected(c, Sweep, m))
  {
    if row.mime.Some? && row.mime.value == "" {
      assert row.mime == Some("");
    }
  }

  // ---------------------------------------------------------------- the tables in place

  /** The ids a pass selects, in order. */
  function Ids(q: Test, rows: seq<Row>): (ids: seq<nat>)
    ensures forall k :: 0 <= k < |ids| ==> ids[k] < |rows| && q.selects(rows[ids[k]])
    ensures forall k, l :: 0 <= k < l < |ids| ==> ids[k] < ids[l]
    ensures forall id :: 0 <= id < |rows| && q.selects(rows[id]) ==> id in ids
  {
    if rows == [] then []
    else
      var n := |rows| - 1;
      Ids(q, rows[..n]) + if q.selects(rows[n]) then [n] else []
  }

  lemma {:induction false} RecordsByIds(q: Test, apply: bool, table: TableName, rows: seq<Row>)
    ensures var ids := Ids(q, rows);
      PassRecords(q, apply, table, rows) == seq(|ids|, k requires 0 <= k < |ids| => RecordOf(q, apply, table, ids[k], rows[ids[k]]))
  {
    if rows != [] {
      RecordsByIds(q, apply, table, rows[..|rows| - 1]);
    }
  }

  class EvidenceTable {
    const name: TableName
    var rows: seq<Row>

    constructor (name: TableName, rows: seq<Row>)
      ensures this.name == name && this.rows == rows
    {
      this.name, this.rows := name, rows;
    }

    /** `promoteReady` and `failFrom`: the transition fires only from the expected status. */
    method Transition(id: nat, from: Status, to: Status) returns (done: Option<Status>)
      modifies this
      ensures old(id < |rows| && rows[id].status == from) ==> done == Some(to) && rows == old(rows[id := rows[id].(status := to)])
      ensures !old(id < |rows| && rows[id].status == from) ==> done == None && rows == old(rows)
    {
      if id >= |rows| || rows[id].status != from { return None; }
      rows := rows[id := rows[id].(status := to)];
      done := Some(to);
    }

    /** One item of a pass: check the row as it was selected, then transition it. */
    method Visit(q: Test, apply: bool, id: nat, row: Row) returns (r: Record)
      requires id < |rows| && rows[id] == row && q.selects(row)
      modifies this
      ensures rows == old(rows)[id := Moved(q, apply, row)]
      ensures r == RecordOf(q, apply, name, id, row)
    {
      var v := q.check(row);
      var t: Option<Status> := None;
      if apply && v.to.Some? {
        t := Transition(id, row.status, v.to.value);
      }
      r := Record(name, id, row.jobId, v.kind, v.reason, t);
    }

    /** A pass: the selected rows are visited in whatever order the pool's workers finish, and each
        record takes the place of its row. */
    method Pass(q: Test, apply: bool) returns (records: seq<Record>)
      modifies this
      ensures rows == PassRows(q, apply, old(rows))
      ensures records == PassRecords(q, apply, name, old(rows))
    {
      var before := rows;
      var ids := Ids(q, rows);
      ghost var after := PassRows(q, apply, before);
      UnselectedStay(q, apply, before);
      var slots: map<nat, Record> := map[];
      var todo := set id | id in ids;
      while todo != {}
        invariant |rows| == |before| && forall id :: id in todo ==> id in ids
        invariant forall id: nat :: id < |rows| ==> rows[id] == if id in todo then before[id] else after[id]
        invariant Filled(q, apply, name, before, ids, todo, slots)
        decreases |todo|
      {
        var id := Pick(todo);
        var r := Visit(q, apply, id, before[id]);
        slots := slots[id := r];
        todo := todo - {id};
      }
      GatheredIsAll(q, apply, name, before, slots);
      records := Gathered(ids, slots);
      assert rows == after;
    }

    /** The records in the order of their rows. */
    static function Gathered(ids: seq<nat>, slots: map<nat, Record>): seq<Record>
      requires forall k :: 0 <= k < |ids| ==> ids[k] in slots
    {
      seq(|ids|, k requires 0 <= k < |ids| => slots[ids[k]])
    }

    static lemma GatheredIsAll(q: Test, apply: bool, name: TableName, before: seq<Row>, slots: map<nat, Record>)
      requires Filled(q, apply, name, before, Ids(q, before), {}, slots)
      ensures forall k :: 0 <= k < |Ids(q, before)| ==> Ids(q, before)[k] in slots
      ensures Gathered(Ids(q, before), slots) == PassRecords(q, apply, name, before)
    {
      RecordsByIds(q, apply, name, before);
      var ids := Ids(q, before);
      forall k | 0 <= k < |ids| ensures ids[k] in slots && slots[ids[k]] == RecordOf(q, apply, name, ids[k], before[ids[k]]) {
        assert ids[k] in ids;
      }
    }

    /** Whichever item a worker happens to finish next. */
    static method Pick(todo: set<nat>) returns (id: nat)
      requires todo != {}
      ensures id in todo
    {
      id :| id in todo;
    }

    /** Every selected row that is not left to do has its record. */
    static ghost predicate Filled(q: Test, apply: bool, name: TableName, before: seq<Row>, ids: seq<nat>, todo: set<nat>, slots: map<nat, Record>) {
      forall id: nat :: id in ids && id !in todo && id < |before| ==> id in slots && slots[id] == RecordOf(q, apply, name, id, before[id])
    }

    static lemma UnselectedStay(q: Test, apply: bool, rows: seq<Row>)
      ensures forall id: nat :: id < |rows| && id !in Ids(q, rows) ==> PassRows(q, apply, rows)[id] == rows[id]
      ensures forall id: nat :: id in Ids(q, rows) ==> id < |rows| && q.selects(rows[id])
    {
    }

    method RunPasses(c: Context, deep: bool, apply: bool) returns (records: seq<Record>)
      modifies this
      ensures rows == TableRows(c, deep, apply, old(rows))
      ensures records == TableRecords(c, deep, apply, name, old(rows))
    {
      var legacy := Pass(TestOf(c, Legacy), apply);
      var ready := Pass(TestOf(c, Integrity(deep)), apply);
      var stale := Pass(TestOf(c, Sweep), apply);
      records := legacy + ready + stale;
    }
  }

  /** `reconcileEvidence`. */
  method ReconcileEvidence(c: Context, deep: bool, apply: bool, photos: EvidenceTable, signatures: EvidenceTable)
    returns (records: seq<Record>, findings: seq<Record>)
    requires photos != signatures && photos.name == JobPhotos && signatures.name == CustomerSignatures
    modifies photos, signatures
    ensures Tables(photos.rows, signatures.rows) == RunTables(c, deep, apply, old(Tables(photos.rows, signatures.rows)))
    ensures records == RunRecords(c, deep, apply, old(Tables(photos.rows, signatures.rows)))
    ensures findings == Findings(records)
  {
    var a := photos.RunPasses(c, deep, apply);
    var b := signatures.RunPasses(c, deep, apply);
    records := a + b;
    findings := [];
    for k := 0 to |records|
      invariant findings == Findings(records[..k])
      modifies {}
    {
      assert records[..k + 1][..k] == records[..k];
      if IsFinding(records[k]) {
        findings := findings + [records[k]];
      }
    }
    assert records[..|records|] == records;
  }
}
