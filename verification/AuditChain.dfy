/** The tamper-evident audit chain: what an entry hashes and what the verifier accepts. */
module AuditChain {
  import opened Prelude
  import opened Text
  import opened Canonical

  datatype ChainFields = ChainFields(
    chainId: string,
    chainSeq: nat,
    prevHash: string,
    userId: Option<nat>,
    action: string,
    entityType: Option<string>,
    entityId: Option<string>,
    oldValue: Json,
    newValue: Json,
    ip: Option<string>,
    userAgent: Option<string>,
    createdAt: string)

  const ENTRY_KEYS: seq<string> :=
    [ "v", "chainId", "chainSeq", "prevHash", "userId", "action", "entityType", "entityId",
      "oldValue", "newValue", "ip", "userAgent", "createdAt" ]

  function EntryValue(f: ChainFields, i: nat): Json {
    if i == 0 then Str("v2")
    else if i == 1 then Str(f.chainId)
    else if i == 2 then NatJson(f.chainSeq)
    else if i == 3 then Str(f.prevHash)
    else if i == 4 then OptNat(f.userId)
    else if i == 5 then Str(f.action)
    else if i == 6 then OptStr(f.entityType)
    else if i == 7 then OptStr(f.entityId)
    else if i == 8 then f.oldValue
    else if i == 9 then f.newValue
    else if i == 10 then OptStr(f.ip)
    else if i == 11 then OptStr(f.userAgent)
    else Str(f.createdAt)
  }

  function EntryValues(f: ChainFields): nat -> Json {
    (i: nat) => EntryValue(f, i)
  }

  function EntryJson(f: ChainFields): Json {
    Record(ENTRY_KEYS, EntryValues(f))
  }

  lemma EntryKeysDistinct()
    ensures DistinctTexts(ENTRY_KEYS)
  {
  }

  function BuildCanonical(f: ChainFields): string {
    Canonicalize(EntryJson(f))
  }

  ghost predicate ValidFields(f: ChainFields) {
    Valid(f.oldValue) && Valid(f.newValue)
  }

  /** Two entries agree in every hashed field; payloads up to key order. */
  ghost predicate Agree(f: ChainFields, g: ChainFields) {
    && f.(oldValue := Null, newValue := Null) == g.(oldValue := Null, newValue := Null)
    && Same(f.oldValue, g.oldValue)
    && Same(f.newValue, g.newValue)
  }

  lemma EntrySameAt(f: ChainFields, g: ChainFields, i: nat)
    requires i < 13 && Same(EntryJson(f), EntryJson(g))
    ensures Same(EntryValue(f, i), EntryValue(g, i))
  {
    EntryKeysDistinct();
    RecordSameAt(ENTRY_KEYS, EntryValues(f), EntryValues(g), i);
  }

  lemma EntriesAgree(f: ChainFields, g: ChainFields)
    requires Same(EntryJson(f), EntryJson(g))
    ensures Agree(f, g)
  {
    EntrySameAt(f, g, 1);
    EntrySameAt(f, g, 2);
    EntrySameAt(f, g, 3);
    EntrySameAt(f, g, 4);
    EntrySameAt(f, g, 5);
    EntrySameAt(f, g, 6);
    EntrySameAt(f, g, 7);
    EntrySameAt(f, g, 8);
    EntrySameAt(f, g, 9);
    EntrySameAt(f, g, 10);
    EntrySameAt(f, g, 11);
    EntrySameAt(f, g, 12);
    NatJsonSame(f.chainSeq, g.chainSeq);
    OptNatSame(f.userId, g.userId);
    OptStrSame(f.entityType, g.entityType);
    OptStrSame(f.entityId, g.entityId);
    OptStrSame(f.ip, g.ip);
    OptStrSame(f.userAgent, g.userAgent);
  }

  lemma EntryValid(f: ChainFields)
    requires ValidFields(f)
    ensures Valid(EntryJson(f))
  {
    EntryKeysDistinct();
    forall i: nat | i < 13 ensures Valid(EntryValues(f)(i)) {}
  }

  /** The hashed text determines every hashed field. */
  lemma BuildCanonicalInjective(f: ChainFields, g: ChainFields)
    requires ValidFields(f) && ValidFields(g)
    requires BuildCanonical(f) == BuildCanonical(g)
    ensures Agree(f, g)
  {
    EntryValid(f);
    EntryValid(g);
    CanonicalizeInjective(EntryJson(f), EntryJson(g));
    EntriesAgree(f, g);
  }

  lemma AgreeAt(f: ChainFields, g: ChainFields, i: nat)
    requires ValidFields(f) && Agree(f, g)
    ensures Same(EntryValue(f, i), EntryValue(g, i))
  {
    if i != 8 && i != 9 {
      assert EntryValue(f, i) == EntryValue(g, i);
    }
  }

  /** Replacing a payload by an equal one does not change the hashed text. */
  lemma BuildCanonicalRespects(f: ChainFields, g: ChainFields)
    requires ValidFields(f) && ValidFields(g) && Agree(f, g)
    ensures BuildCanonical(f) == BuildCanonical(g)
  {
    var r, q := EntryJson(f).fields, EntryJson(g).fields;
    EntryValid(f);
    EntryValid(g);
    forall i | 0 <= i < |r| ensures Has(q, r[i].key) && Has(r, q[i].key) && Same(r[i].value, Get(q, r[i].key)) {
      assert r[i].key == ENTRY_KEYS[i] == q[i].key;
      GetIsTheOne(q, i);
      AgreeAt(f, g, i);
    }
    CanonicalizeInjective(EntryJson(f), EntryJson(g));
  }

  function ComputeEntryHash(h: Hash, f: ChainFields): Hex {
    h(BuildCanonical(f))
  }

  function GenesisText(chainId: string): string {
    "easygas-audit-chain-genesis|v2|" + chainId
  }

  function GenesisHash(h: Hash, chainId: string): Hex {
    h(GenesisText(chainId))
  }

  // ---------------------------------------------------------------- stored rows

  /** A row of `audit_logs`; the payloads are the JSON columns as the driver returns them. */
  datatype AuditRow = AuditRow(
    chainSeq: nat,
    prevHash: string,
    entryHash: string,
    userId: Option<nat>,
    action: string,
    entityType: Option<string>,
    entityId: Option<string>,
    oldValue: Json,
    newValue: Json,
    ip: Option<string>,
    userAgent: Option<string>,
    createdAt: string)

  /** `JSON.parse` on a text, None when it throws. */
  type Parser = string -> Option<Json>

  /** `parseMaybeJson`: a payload that is itself a text is parsed once more. */
  function ParseMaybeJson(parse: Parser, v: Json): Json {
    if v.Str? && parse(v.s).Some? then parse(v.s).value else v
  }

  function RowFields(parse: Parser, chainId: string, r: AuditRow): ChainFields {
    ChainFields(chainId, r.chainSeq, r.prevHash, r.userId, r.action, r.entityType, r.entityId,
                ParseMaybeJson(parse, r.oldValue), ParseMaybeJson(parse, r.newValue), r.ip, r.userAgent, r.createdAt)
  }

  ghost predicate ValidRow(parse: Parser, chainId: string, r: AuditRow) {
    ValidFields(RowFields(parse, chainId, r))
  }

  datatype ChainError = SeqGap | PrevHashMismatch | EntryHashMismatch

  datatype ChainResult = ChainResult(entries: nat, error: Option<ChainError>)

  /** Row i of an intact chain: contiguous number, link to its predecessor, own hash. */
  ghost predicate LinkedAt(h: Hash, parse: Parser, chainId: string, rows: seq<AuditRow>, i: nat)
    requires i < |rows|
  {
    && rows[i].chainSeq == i + 1
    && rows[i].prevHash == HeadHash(h, chainId, rows[..i])
    && rows[i].entryHash == ComputeEntryHash(h, RowFields(parse, chainId, rows[i]))
  }

  ghost predicate Linked(h: Hash, parse: Parser, chainId: string, rows: seq<AuditRow>) {
    forall i :: 0 <= i < |rows| ==> LinkedAt(h, parse, chainId, rows, i)
  }

  /** The hash a chain ends in: its last entry, or the genesis link. */
  function HeadHash(h: Hash, chainId: string, rows: seq<AuditRow>): string {
    if rows == [] then GenesisHash(h, chainId) else rows[|rows| - 1].entryHash
  }

  // ---------------------------------------------------------------- the verifier

  /** What is wrong with a row where number `seq` linked to `prev` is expected. */
  function RowError(h: Hash, parse: Parser, chainId: string, r: AuditRow, prev: string, seqNo: nat): Option<ChainError> {
    if r.chainSeq != seqNo then Some(SeqGap)
    else if r.prevHash != prev then Some(PrevHashMismatch)
    else if ComputeEntryHash(h, RowFields(parse, chainId, r)) != r.entryHash then Some(EntryHashMismatch)
    else None
  }

  /** What a row is checked against: the row, the expected link, the expected number. */
  type RowCheck = (AuditRow, string, nat) -> Option<ChainError>

  function Checker(h: Hash, parse: Parser, chainId: string): RowCheck {
    (r: AuditRow, prev: string, seqNo: nat) => RowError(h, parse, chainId, r, prev, seqNo)
  }

  /** One pass over all rows, with no paging: the first error and the rows before it. */
  function Verdict(check: RowCheck, rows: seq<AuditRow>, prev: string, done: nat): ChainResult {
    if rows == [] then ChainResult(done, None)
    else
      var e := check(rows[0], prev, done + 1);
      if e.Some? then ChainResult(done, e)
      else Verdict(check, rows[1..], rows[0].entryHash, done + 1)
  }

  /** Rows come out of the query ordered by `chain_seq`. */
  predicate Ordered(rows: seq<AuditRow>) {
    forall i, j :: 0 <= i < j < |rows| ==> rows[i].chainSeq <= rows[j].chainSeq
  }

  predicate Distinct(rows: seq<AuditRow>) {
    forall i, j :: 0 <= i < j < |rows| ==> rows[i].chainSeq < rows[j].chainSeq
  }

  /** `chain_seq > after`, on rows ordered by `chain_seq`. */
  function RowsAfter(rows: seq<AuditRow>, after: nat): seq<AuditRow> {
    if rows == [] || rows[0].chainSeq > after then rows else RowsAfter(rows[1..], after)
  }

  function Page(rows: seq<AuditRow>, after: nat, size: nat): seq<AuditRow> {
    var r := RowsAfter(rows, after);
    if |r| <= size then r else r[..size]
  }

  lemma {:induction false} RowsAfterOrdered(rows: seq<AuditRow>, after: nat)
    requires Ordered(rows)
    ensures Ordered(RowsAfter(rows, after)) && |RowsAfter(rows, after)| <= |rows|
    ensures forall r <- RowsAfter(rows, after) :: r.chainSeq > after
    ensures rows != [] && rows[0].chainSeq <= after ==> |RowsAfter(rows, after)| < |rows|
  {
    if rows != [] && rows[0].chainSeq <= after {
      RowsAfterOrdered(rows[1..], after);
    }
  }

  lemma {:induction false} RowsAfterPrefix(rows: seq<AuditRow>, k: nat)
    requires Distinct(rows) && 0 < k <= |rows|
    ensures RowsAfter(rows, rows[k - 1].chainSeq) == rows[k..]
  {
    if k > 1 {
      assert rows[1..][k - 2] == rows[k - 1];
      RowsAfterPrefix(rows[1..], k - 1);
      assert rows[1..][k - 1..] == rows[k..];
    } else if |rows| > 1 {
      assert rows[1..][0].chainSeq > rows[0].chainSeq;
    }
  }

  lemma {:induction false} RowsAfterTwice(rows: seq<AuditRow>, a: nat, b: nat)
    requires a <= b
    ensures RowsAfter(RowsAfter(rows, a), b) == RowsAfter(rows, b)
  {
    if rows != [] && rows[0].chainSeq <= a {
      RowsAfterTwice(rows[1..], a, b);
    }
  }

  lemma {:induction false} RowsAfterDistinct(rows: seq<AuditRow>, after: nat)
    requires Distinct(rows)
    ensures Distinct(RowsAfter(rows, after))
  {
    if rows != [] && rows[0].chainSeq <= after {
      RowsAfterDistinct(rows[1..], after);
    }
  }

  function LastHash(rows: seq<AuditRow>, prev: string): string {
    if rows == [] then prev else rows[|rows| - 1].entryHash
  }

  /** The verdict of the paged loop over the rows not yet read. */
  function PagedVerdict(check: RowCheck, rows: seq<AuditRow>, size: nat, prev: string, done: nat): ChainResult
    requires Ordered(rows)
    decreases |rows|
  {
    var page := if |rows| <= size then rows else rows[..size];
    if page == [] then ChainResult(done, None)
    else
      var v := Verdict(check, page, prev, done);
      if v.error.Some? || |page| < size then v
      else
        var after := page[|page| - 1].chainSeq;
        RowsAfterOrdered(rows, after);
        PagedVerdict(check, RowsAfter(rows, after), size, LastHash(page, prev), v.entries)
  }

  lemma {:induction false} VerdictAppend(check: RowCheck, xs: seq<AuditRow>, ys: seq<AuditRow>, prev: string, done: nat)
    ensures var v := Verdict(check, xs, prev, done);
      && (v.error.None? ==> v.entries == done + |xs|)
      && Verdict(check, xs + ys, prev, done)
         == if v.error.Some? then v else Verdict(check, ys, LastHash(xs, prev), done + |xs|)
  {
    if xs == [] {
      assert xs + ys == ys;
    } else {
      assert (xs + ys)[0] == xs[0] && (xs + ys)[1..] == xs[1..] + ys;
      VerdictAppend(check, xs[1..], ys, xs[0].entryHash, done + 1);
      assert LastHash(xs, prev) == LastHash(xs[1..], xs[0].entryHash);
    }
  }

  /** One turn of the page loop on the rows not yet read. */
  lemma PagedStep(check: RowCheck, rest: seq<AuditRow>, size: nat, prev: string, done: nat)
    requires Ordered(rest)
    ensures var page := if |rest| <= size then rest else rest[..size];
      var v := Verdict(check, page, prev, done);
      if page == [] then PagedVerdict(check, rest, size, prev, done) == ChainResult(done, None)
      else if v.error.Some? || |page| < size then PagedVerdict(check, rest, size, prev, done) == v
      else
        var last := page[|page| - 1].chainSeq;
        && Ordered(RowsAfter(rest, last))
        && PagedVerdict(check, rest, size, prev, done) == PagedVerdict(check, RowsAfter(rest, last), size, LastHash(page, prev), v.entries)
  {
    var page := if |rest| <= size then rest else rest[..size];
    if page != [] {
      RowsAfterOrdered(rest, page[|page| - 1].chainSeq);
    }
  }

  /** The rows the paged loop looks at: it goes on after the last number of each full page, so later
      rows with that number are never fetched. */
  function Visible(rows: seq<AuditRow>, size: nat): seq<AuditRow>
    requires Ordered(rows)
    decreases |rows|
  {
    var page := if |rows| <= size then rows else rows[..size];
    if page == [] || |page| < size then page
    else
      var after := page[|page| - 1].chainSeq;
      RowsAfterOrdered(rows, after);
      page + Visible(RowsAfter(rows, after), size)
  }

  lemma VisibleStep(rows: seq<AuditRow>, size: nat)
    requires Ordered(rows) && 1 <= size <= |rows|
    ensures Ordered(RowsAfter(rows, rows[size - 1].chainSeq)) && |RowsAfter(rows, rows[size - 1].chainSeq)| < |rows|
    ensures Visible(rows, size) == rows[..size] + Visible(RowsAfter(rows, rows[size - 1].chainSeq), size)
  {
    RowsAfterOrdered(rows, rows[size - 1].chainSeq);
    assert |rows| == size ==> rows[..size] == rows;
  }

  lemma LastPage(check: RowCheck, rows: seq<AuditRow>, size: nat, prev: string, done: nat)
    requires Ordered(rows) && (|rows| < size || size == 0)
    ensures PagedVerdict(check, rows, size, prev, done) == Verdict(check, Visible(rows, size), prev, done)
  {
  }

  lemma FullPage(check: RowCheck, rows: seq<AuditRow>, size: nat, prev: string, done: nat)
    requires Ordered(rows) && 1 <= size <= |rows|
    ensures Ordered(RowsAfter(rows, rows[size - 1].chainSeq))
    ensures var page, rest := rows[..size], RowsAfter(rows, rows[size - 1].chainSeq);
      var v := Verdict(check, page, prev, done);
      PagedVerdict(check, rows, size, prev, done) ==
        if v.error.Some? then v else PagedVerdict(check, rest, size, LastHash(page, prev), done + size)
  {
    assert |rows| == size ==> rows[..size] == rows;
    RowsAfterOrdered(rows, rows[size - 1].chainSeq);
    PagedStep(check, rows, size, prev, done);
    VerdictAppend(check, rows[..size], [], prev, done);
  }

  /** For any rows in order and any page size, paging is one pass over the visible rows. */
  lemma {:induction false} PagingSeesVisible(check: RowCheck, rows: seq<AuditRow>, size: nat, prev: string, done: nat)
    requires Ordered(rows)
    ensures PagedVerdict(check, rows, size, prev, done) == Verdict(check, Visible(rows, size), prev, done)
    decreases |rows|
  {
    if |rows| < size || size == 0 {
      LastPage(check, rows, size, prev, done);
    } else {
      var page, rest := rows[..size], RowsAfter(rows, rows[size - 1].chainSeq);
      VisibleStep(rows, size);
      FullPage(check, rows, size, prev, done);
      VerdictAppend(check, page, Visible(rest, size), prev, done);
      PagingSeesVisible(check, rest, size, LastHash(page, prev), done + size);
    }
  }

  /** With distinct numbers every row is visible. */
  lemma {:induction false} DistinctAreVisible(rows: seq<AuditRow>, size: nat)
    requires Distinct(rows) && size >= 1
    ensures Visible(rows, size) == rows
    decreases |rows|
  {
    if |rows| == size {
      RowsAfterPrefix(rows, size);
      assert rows[size..] == [];
    } else if |rows| > size {
      assert rows[..size][size - 1] == rows[size - 1];
      RowsAfterPrefix(rows, size);
      assert Distinct(rows[size..]);
      DistinctAreVisible(rows[size..], size);
      assert rows[..size] + rows[size..] == rows;
    }
  }

  /** With distinct sequence numbers the page size does not matter. */
  lemma PageSizeIrrelevant(check: RowCheck, rows: seq<AuditRow>, size: nat, prev: string, done: nat)
    requires Distinct(rows) && size >= 1
    ensures PagedVerdict(check, rows, size, prev, done) == Verdict(check, rows, prev, done)
  {
    PagingSeesVisible(check, rows, size, prev, done);
    DistinctAreVisible(rows, size);
  }

  /** The rows with a second row of number k put in behind row k. */
  function Inserted(rows: seq<AuditRow>, k: nat, x: AuditRow): seq<AuditRow>
    requires k <= |rows|
  {
    rows[..k] + [x] + rows[k..]
  }

  lemma {:induction false} RowsAfterSkips(head: seq<AuditRow>, rest: seq<AuditRow>, after: nat)
    requires forall r <- head :: r.chainSeq <= after
    requires rest != [] ==> rest[0].chainSeq > after
    ensures RowsAfter(head + rest, after) == rest
  {
    if head == [] {
      assert head + rest == rest;
    } else {
      assert (head + rest)[0] == head[0] && (head + rest)[1..] == head[1..] + rest;
      RowsAfterSkips(head[1..], rest, after);
    }
  }

  lemma InsertedOrdered(rows: seq<AuditRow>, k: nat, x: AuditRow)
    requires Distinct(rows) && 1 <= k <= |rows| && x.chainSeq == rows[k - 1].chainSeq
    ensures Ordered(Inserted(rows, k, x)) && |Inserted(rows, k, x)| == |rows| + 1
  {
  }

  /** k rows fill whole pages. */
  predicate WholePages(k: nat, size: nat)
    requires size >= 1
  {
    if k < size then k == 0 else WholePages(k - size, size)
  }

  lemma {:induction false} WholePagesAre(k: nat, size: nat)
    requires size >= 1
    ensures WholePages(k, size) <==> exists n: nat :: k == n * size
    decreases k
  {
    if k >= size {
      WholePagesAre(k - size, size);
      if n: nat :| k - size == n * size {
        assert k == (n + 1) * size;
      }
      if n: nat :| k == n * size {
        assert n > 0 && k - size == (n - 1) * size;
      }
    } else {
      assert k == 0 ==> k == 0 * size;
    }
  }

  lemma Reassemble(rows: seq<AuditRow>, k: nat, x: AuditRow, size: nat)
    requires size < k <= |rows|
    ensures rows[..size] + rows[size..] == rows
    ensures rows[..size] + Inserted(rows[size..], k - size, x) == Inserted(rows, k, x)
  {
    assert rows[size..][..k - size] == rows[size..k] && rows[size..][k - size..] == rows[k..];
  }

  /** A repeated row is hidden exactly if a page ends between it and the row it repeats. */
  lemma {:induction false} InsertedVisible(rows: seq<AuditRow>, k: nat, x: AuditRow, size: nat)
    requires Distinct(rows) && 1 <= k <= |rows| && x.chainSeq == rows[k - 1].chainSeq && size >= 1
    requires Ordered(Inserted(rows, k, x))
    ensures Visible(Inserted(rows, k, x), size) == if WholePages(k, size) then rows else Inserted(rows, k, x)
    decreases |rows|
  {
    if |rows| + 1 < size {
    } else if k < size {
      VisibleBehindDuplicate(rows, k, x, size);
    } else if k == size {
      VisibleBeforeDuplicate(rows, x, size);
    } else {
      VisiblePageBefore(rows, k, x, size);
      InsertedVisible(rows[size..], k - size, x, size);
      Reassemble(rows, k, x, size);
    }
  }

  /** The duplicate is on the first page. */
  lemma VisibleBehindDuplicate(rows: seq<AuditRow>, k: nat, x: AuditRow, size: nat)
    requires Distinct(rows) && 1 <= k <= |rows| && x.chainSeq == rows[k - 1].chainSeq && k < size <= |rows| + 1
    requires Ordered(Inserted(rows, k, x))
    ensures Visible(Inserted(rows, k, x), size) == Inserted(rows, k, x)
  {
    var t := Inserted(rows, k, x);
    var page, rest := t[..size], rows[size - 1..];
    assert t == page + rest;
    var after := page[size - 1].chainSeq;
    assert forall r <- page :: r.chainSeq <= after;
    RowsAfterSkips(page, rest, after);
    DistinctAreVisible(rest, size);
  }

  /** The first page ends with the row it repeats. */
  lemma VisibleBeforeDuplicate(rows: seq<AuditRow>, x: AuditRow, size: nat)
    requires Distinct(rows) && 1 <= size <= |rows| && x.chainSeq == rows[size - 1].chainSeq
    requires Ordered(Inserted(rows, size, x))
    ensures Visible(Inserted(rows, size, x), size) == rows
  {
    var t := Inserted(rows, size, x);
    assert t[..size] == rows[..size];
    BehindDuplicate(rows, x, size);
    DistinctAreVisible(rows[size..], size);
    assert rows[..size] + rows[size..] == rows;
  }

  lemma BehindDuplicate(rows: seq<AuditRow>, x: AuditRow, size: nat)
    requires Distinct(rows) && 1 <= size <= |rows| && x.chainSeq == rows[size - 1].chainSeq
    ensures RowsAfter(Inserted(rows, size, x), x.chainSeq) == rows[size..]
  {
    var head := rows[..size] + [x];
    forall r <- head ensures r.chainSeq <= x.chainSeq {
      var i :| 0 <= i < |head| && head[i] == r;
      assert i < size ==> r == rows[i];
    }
    RowsAfterSkips(head, rows[size..], x.chainSeq);
  }

  lemma VisiblePageBefore(rows: seq<AuditRow>, k: nat, x: AuditRow, size: nat)
    requires Distinct(rows) && 1 <= size < k <= |rows| && x.chainSeq == rows[k - 1].chainSeq
    requires Ordered(Inserted(rows, k, x))
    ensures Ordered(Inserted(rows[size..], k - size, x))
    ensures Visible(Inserted(rows, k, x), size) == rows[..size] + Visible(Inserted(rows[size..], k - size, x), size)
  {
    var t, rest := Inserted(rows, k, x), Inserted(rows[size..], k - size, x);
    Reassemble(rows, k, x, size);
    assert t[..size] == rows[..size];
    VisibleStep(t, size);
    assert forall r <- rows[..size] :: r.chainSeq <= rows[size - 1].chainSeq;
    assert rest[0] == rows[size];
    RowsAfterSkips(rows[..size], rest, rows[size - 1].chainSeq);
  }

  /** What is wrong with row k: the first of its number, its link and its hash that does not fit. */
  ghost predicate FaultOf(h: Hash, parse: Parser, chainId: string, rows: seq<AuditRow>, k: nat, error: ChainError)
    requires k < |rows|
  {
    match error
    case SeqGap => rows[k].chainSeq != k + 1
    case PrevHashMismatch => rows[k].chainSeq == k + 1 && rows[k].prevHash != HeadHash(h, chainId, rows[..k])
    case EntryHashMismatch =>
      && rows[k].chainSeq == k + 1 && rows[k].prevHash == HeadHash(h, chainId, rows[..k])
      && rows[k].entryHash != ComputeEntryHash(h, RowFields(parse, chainId, rows[k]))
  }

  /** The verdict names the first row that breaks the chain and its fault, or there is none. */
  ghost predicate FirstBroken(h: Hash, parse: Parser, chainId: string, rows: seq<AuditRow>, v: ChainResult) {
    && v.entries <= |rows|
    && (forall i :: 0 <= i < v.entries ==> LinkedAt(h, parse, chainId, rows, i))
    && if v.error.None? then v.entries == |rows|
       else
         && v.entries < |rows| && !LinkedAt(h, parse, chainId, rows, v.entries)
         && FaultOf(h, parse, chainId, rows, v.entries, v.error.value)
  }

  /** A row passes the three tests after its predecessors exactly if it is linked. */
  lemma RowIsLinked(h: Hash, parse: Parser, chainId: string, rows: seq<AuditRow>, k: nat)
    requires k < |rows|
    ensures LinkedAt(h, parse, chainId, rows, k) <==>
      Checker(h, parse, chainId)(rows[k], HeadHash(h, chainId, rows[..k]), k + 1).None?
    ensures !LinkedAt(h, parse, chainId, rows, k) ==>
      FaultOf(h, parse, chainId, rows, k, Checker(h, parse, chainId)(rows[k], HeadHash(h, chainId, rows[..k]), k + 1).value)
  {
  }

  /** One row of the pass, on any check. */
  lemma VerdictStep(check: RowCheck, rows: seq<AuditRow>, k: nat, prev: string)
    requires k < |rows|
    ensures var e := check(rows[k], prev, k + 1);
      Verdict(check, rows[k..], prev, k) == if e.Some? then ChainResult(k, e) else Verdict(check, rows[k + 1..], rows[k].entryHash, k + 1)
  {
    assert rows[k..][0] == rows[k] && rows[k..][1..] == rows[k + 1..];
  }

  lemma {:induction false} VerdictAccepts(h: Hash, parse: Parser, chainId: string, rows: seq<AuditRow>, k: nat)
    requires k <= |rows| && forall i :: 0 <= i < k ==> LinkedAt(h, parse, chainId, rows, i)
    ensures FirstBroken(h, parse, chainId, rows, Verdict(Checker(h, parse, chainId), rows[k..], HeadHash(h, chainId, rows[..k]), k))
    decreases |rows| - k
  {
    if k < |rows| {
      RowIsLinked(h, parse, chainId, rows, k);
      VerdictStep(Checker(h, parse, chainId), rows, k, HeadHash(h, chainId, rows[..k]));
      if LinkedAt(h, parse, chainId, rows, k) {
        assert rows[..k + 1][k] == rows[k];
        VerdictAccepts(h, parse, chainId, rows, k + 1);
      }
    }
  }

  /** A single pass accepts exactly the intact chains. */
  lemma VerdictIsLinked(h: Hash, parse: Parser, chainId: string, rows: seq<AuditRow>)
    ensures Verdict(Checker(h, parse, chainId), rows, GenesisHash(h, chainId), 0).error.None? <==> Linked(h, parse, chainId, rows)
  {
    VerdictAccepts(h, parse, chainId, rows, 0);
    assert rows[0..] == rows && rows[..0] == [];
  }

  /** For any rows in order and any page size, the paged verifier accepts exactly if the rows it sees
      are an intact chain. */
  lemma PagedIsLinked(h: Hash, parse: Parser, chainId: string, rows: seq<AuditRow>, size: nat)
    requires Ordered(rows)
    ensures PagedVerdict(Checker(h, parse, chainId), rows, size, GenesisHash(h, chainId), 0).error.None?
      <==> Linked(h, parse, chainId, Visible(rows, size))
  {
    PagingSeesVisible(Checker(h, parse, chainId), rows, size, GenesisHash(h, chainId), 0);
    VerdictIsLinked(h, parse, chainId, Visible(rows, size));
  }

  /** A row put into an intact chain behind row k, with its number, goes unnoticed exactly if the page
      size divides k. */
  lemma DuplicateHiddenExactly(h: Hash, parse: Parser, chainId: string, rows: seq<AuditRow>, k: nat, x: AuditRow, size: nat)
    requires Linked(h, parse, chainId, rows) && 1 <= k <= |rows| && x.chainSeq == k && size >= 1
    ensures Ordered(Inserted(rows, k, x))
    ensures PagedVerdict(Checker(h, parse, chainId), Inserted(rows, k, x), size, GenesisHash(h, chainId), 0).error.None?
      <==> exists n: nat :: k == n * size
  {
    forall i | 0 <= i < |rows| ensures rows[i].chainSeq == i + 1 {
      assert LinkedAt(h, parse, chainId, rows, i);
    }
    var t := Inserted(rows, k, x);
    InsertedOrdered(rows, k, x);
    InsertedVisible(rows, k, x, size);
    WholePagesAre(k, size);
    PagedIsLinked(h, parse, chainId, t, size);
    assert t[k] == x;
    if Linked(h, parse, chainId, t) {
      assert LinkedAt(h, parse, chainId, t, k);
    }
  }

  /** Rows numbered 0, wherever they come from, are never read. */
  lemma {:induction false} ZeroRowsAreNeverRead(zeros: seq<AuditRow>, rows: seq<AuditRow>)
    requires Ordered(rows) && forall r <- zeros :: r.chainSeq == 0
    ensures Ordered(zeros + rows) && RowsAfter(zeros + rows, 0) == RowsAfter(rows, 0)
  {
    if zeros == [] {
      assert zeros + rows == rows;
    } else {
      assert (zeros + rows)[0] == zeros[0] && (zeros + rows)[1..] == zeros[1..] + rows;
      ZeroRowsAreNeverRead(zeros[1..], rows);
    }
  }

  /** The three tests of one row. */
  method CheckRow(h: Hash, parse: Parser, chainId: string, r: AuditRow, expectedPrev: string, expectedSeq: nat)
    returns (e: Option<ChainError>)
    ensures e == Checker(h, parse, chainId)(r, expectedPrev, expectedSeq)
  {
    if r.chainSeq != expectedSeq {
      return Some(SeqGap);
    }
    if r.prevHash != expectedPrev {
      return Some(PrevHashMismatch);
    }
    var recomputed := ComputeEntryHash(h, RowFields(parse, chainId, r));
    if recomputed != r.entryHash {
      return Some(EntryHashMismatch);
    }
    e := None;
  }

  /** One more row: the verdict is final if the row fails, and goes on if it does not. */
  lemma PageStep(check: RowCheck, page: seq<AuditRow>, i: nat, prev: string, done: nat)
    requires i < |page| && Verdict(check, page[..i], prev, done) == ChainResult(done + i, None)
    ensures var e := check(page[i], LastHash(page[..i], prev), done + i + 1);
      if e.Some? then Verdict(check, page, prev, done) == ChainResult(done + i, e)
      else Verdict(check, page[..i + 1], prev, done) == ChainResult(done + i + 1, None)
  {
    VerdictAppend(check, page[..i], page[i..], prev, done);
    assert page[..i] + page[i..] == page;
    VerdictAppend(check, page[..i], [page[i]], prev, done);
    assert page[..i] + [page[i]] == page[..i + 1];
  }

  /** The row loop over one page of `verifyChain`. */
  method VerifyPage(h: Hash, parse: Parser, chainId: string, page: seq<AuditRow>, prev: string, done: nat)
    returns (r: ChainResult, expectedPrev: string)
    ensures r == Verdict(Checker(h, parse, chainId), page, prev, done)
    ensures r.error.None? ==> expectedPrev == LastHash(page, prev) && r.entries == done + |page|
  {
    expectedPrev := prev;
    var expectedSeq := done + 1;
    var entries := done;
    for i := 0 to |page|
      invariant entries == done + i && expectedSeq == entries + 1
      invariant expectedPrev == LastHash(page[..i], prev)
      invariant Verdict(Checker(h, parse, chainId), page[..i], prev, done) == ChainResult(entries, None)
    {
      PageStep(Checker(h, parse, chainId), page, i, prev, done);
      var e := CheckRow(h, parse, chainId, page[i], expectedPrev, expectedSeq);
      if e.Some? {
        return ChainResult(entries, e), expectedPrev;
      }
      expectedPrev := page[i].entryHash;
      expectedSeq := expectedSeq + 1;
      entries := entries + 1;
    }
    assert page[..|page|] == page;
    r := ChainResult(entries, None);
  }

  lemma NextPage(rows: seq<AuditRow>, after: nat, size: nat)
    requires Ordered(rows) && Page(rows, after, size) != []
    ensures var page, rest := Page(rows, after, size), RowsAfter(rows, after);
      var last := page[|page| - 1].chainSeq;
      && RowsAfter(rest, last) == RowsAfter(rows, last)
      && Ordered(RowsAfter(rest, last)) && |RowsAfter(rest, last)| < |rest|
  {
    var page, rest := Page(rows, after, size), RowsAfter(rows, after);
    var last := page[|page| - 1].chainSeq;
    RowsAfterOrdered(rows, after);
    assert rest[|page| - 1] in rest;
    RowsAfterOrdered(rest, last);
    RowsAfterTwice(rows, after, last);
  }

  lemma PagedFirstBroken(h: Hash, parse: Parser, chainId: string, rows: seq<AuditRow>, size: nat)
    requires Ordered(rows)
    ensures Ordered(RowsAfter(rows, 0))
    ensures FirstBroken(h, parse, chainId, Visible(RowsAfter(rows, 0), size),
                        PagedVerdict(Checker(h, parse, chainId), RowsAfter(rows, 0), size, GenesisHash(h, chainId), 0))
  {
    RowsAfterOrdered(rows, 0);
    var all := Visible(RowsAfter(rows, 0), size);
    PagingSeesVisible(Checker(h, parse, chainId), RowsAfter(rows, 0), size, GenesisHash(h, chainId), 0);
    VerdictAccepts(h, parse, chainId, all, 0);
    assert all[0..] == all && all[..0] == [];
  }

  /** One turn of the page loop: stop on an empty page, on an error or on a short page, else go on after it. */
  lemma PageTurn(check: RowCheck, rows: seq<AuditRow>, after: nat, size: nat, prev: string, done: nat)
    requires Ordered(rows)
    ensures Ordered(RowsAfter(rows, after))
    ensures var page, rest := Page(rows, after, size), RowsAfter(rows, after);
      var v := Verdict(check, page, prev, done);
      if page == [] then PagedVerdict(check, rest, size, prev, done) == ChainResult(done, None)
      else if v.error.Some? || |page| < size then PagedVerdict(check, rest, size, prev, done) == v
      else
        var last := page[|page| - 1].chainSeq;
        && Ordered(RowsAfter(rows, last)) && |RowsAfter(rows, last)| < |rest|
        && PagedVerdict(check, rest, size, prev, done) == PagedVerdict(check, RowsAfter(rows, last), size, LastHash(page, prev), v.entries)
  {
    RowsAfterOrdered(rows, after);
    PagedStep(check, RowsAfter(rows, after), size, prev, done);
    if Page(rows, after, size) != [] {
      NextPage(rows, after, size);
    }
  }

  /** One page of `verifyChain`: fetch the rows after a sequence number, check them, and say where to go on. */
  method VerifyNext(h: Hash, parse: Parser, chainId: string, rows: seq<AuditRow>, after: nat, pageSize: nat, prev: string, done: nat)
    returns (finished: bool, r: ChainResult, nextAfter: nat, nextPrev: string)
    requires Ordered(rows)
    ensures Ordered(RowsAfter(rows, after))
    ensures finished ==> r == PagedVerdict(Checker(h, parse, chainId), RowsAfter(rows, after), pageSize, prev, done)
    ensures !finished ==> Ordered(RowsAfter(rows, nextAfter)) && |RowsAfter(rows, nextAfter)| < |RowsAfter(rows, after)|
    ensures !finished ==>
      var check := Checker(h, parse, chainId);
      var next := PagedVerdict(check, RowsAfter(rows, nextAfter), pageSize, nextPrev, r.entries);
      PagedVerdict(check, RowsAfter(rows, after), pageSize, prev, done) == next
  {
    PageTurn(Checker(h, parse, chainId), rows, after, pageSize, prev, done);
    var page := Page(rows, after, pageSize);
    if |page| == 0 {
      return true, ChainResult(done, None), after, prev;
    }
    r, nextPrev := VerifyPage(h, parse, chainId, page, prev, done);
    finished := r.error.Some? || |page| < pageSize;
    nextAfter := page[|page| - 1].chainSeq;
  }

  /** The page loop of `verifyChain`. */
  method VerifyPages(h: Hash, parse: Parser, chainId: string, rows: seq<AuditRow>, pageSize: nat) returns (r: ChainResult)
    requires Ordered(rows)
    ensures Ordered(RowsAfter(rows, 0))
    ensures r == PagedVerdict(Checker(h, parse, chainId), RowsAfter(rows, 0), pageSize, GenesisHash(h, chainId), 0)
  {
    var expectedPrev: string := GenesisHash(h, chainId);
    var entries, after, finished := 0, 0, false;
    r := ChainResult(0, None);
    RowsAfterOrdered(rows, 0);
    ghost var verdict := PagedVerdict(Checker(h, parse, chainId), RowsAfter(rows, 0), pageSize, expectedPrev, 0);
    while !finished
      invariant !finished ==> Ordered(RowsAfter(rows, after))
      invariant !finished ==> PagedVerdict(Checker(h, parse, chainId), RowsAfter(rows, after), pageSize, expectedPrev, entries) == verdict
      invariant finished ==> r == verdict
      decreases !finished, |RowsAfter(rows, after)|
    {
      finished, r, after, expectedPrev := VerifyNext(h, parse, chainId, rows, after, pageSize, expectedPrev, entries);
      entries := r.entries;
    }
  }

  /** `verifyChain`: accepts exactly if the rows it sees are linked, or reports the first of them that
      breaks the chain. With distinct numbers it sees every row above 0. */
  method VerifyChain(h: Hash, parse: Parser, chainId: string, rows: seq<AuditRow>, pageSize: nat) returns (r: ChainResult)
    requires Ordered(rows)
    ensures Ordered(RowsAfter(rows, 0))
    ensures FirstBroken(h, parse, chainId, Visible(RowsAfter(rows, 0), pageSize), r)
    ensures Distinct(rows) && pageSize >= 1 ==> Visible(RowsAfter(rows, 0), pageSize) == RowsAfter(rows, 0)
  {
    r := VerifyPages(h, parse, chainId, rows, pageSize);
    PagedFirstBroken(h, parse, chainId, rows, pageSize);
    if Distinct(rows) && pageSize >= 1 {
      RowsAfterDistinct(rows, 0);
      DistinctAreVisible(RowsAfter(rows, 0), pageSize);
    }
  }

  // ---------------------------------------------------------------- one head, one history

  /** A text the chain hashes: its genesis text or the canonical form of one of its rows. */
  ghost predicate Hashed(parse: Parser, chainId: string, rows: seq<AuditRow>, x: string) {
    || x == GenesisText(chainId)
    || exists i :: 0 <= i < |rows| && x == BuildCanonical(RowFields(parse, chainId, rows[i]))
  }

  function RowText(parse: Parser, chainId: string, rows: seq<AuditRow>): string {
    if rows == [] then GenesisText(chainId)
    else BuildCanonical(RowFields(parse, chainId, rows[|rows| - 1]))
  }

  /** Walks two chains back from their heads to the first pair of different hashed texts. */
  function FindCollision(parse: Parser, chainId: string, r: seq<AuditRow>, q: seq<AuditRow>): Option<(string, string)> {
    var x, y := RowText(parse, chainId, r), RowText(parse, chainId, q);
    if x != y then Some((x, y))
    else if r == [] || q == [] then None
    else FindCollision(parse, chainId, r[..|r| - 1], q[..|q| - 1])
  }

  lemma GenesisTextIsNoEntry(chainId: string, f: ChainFields)
    ensures GenesisText(chainId) != BuildCanonical(f)
  {
    assert GenesisText(chainId)[0] == 'e' && BuildCanonical(f)[0] == '{';
  }

  lemma LinkedPrefix(h: Hash, parse: Parser, chainId: string, rows: seq<AuditRow>, n: nat)
    requires Linked(h, parse, chainId, rows) && n <= |rows|
    ensures Linked(h, parse, chainId, rows[..n])
  {
    forall i | 0 <= i < n ensures LinkedAt(h, parse, chainId, rows[..n], i) {
      assert LinkedAt(h, parse, chainId, rows, i);
      assert rows[..n][..i] == rows[..i];
    }
  }

  lemma HeadIsHashed(h: Hash, parse: Parser, chainId: string, rows: seq<AuditRow>)
    requires Linked(h, parse, chainId, rows)
    ensures HeadHash(h, chainId, rows) == h(RowText(parse, chainId, rows))
    ensures Hashed(parse, chainId, rows, RowText(parse, chainId, rows))
  {
    if rows != [] {
      assert LinkedAt(h, parse, chainId, rows, |rows| - 1);
    }
  }

  lemma HashedPrefix(parse: Parser, chainId: string, rows: seq<AuditRow>, n: nat, x: string)
    requires n <= |rows| && Hashed(parse, chainId, rows[..n], x)
    ensures Hashed(parse, chainId, rows, x)
  {
  }

  lemma LastRowsAgree(h: Hash, parse: Parser, chainId: string, r: seq<AuditRow>, q: seq<AuditRow>)
    requires Linked(h, parse, chainId, r) && Linked(h, parse, chainId, q) && r != [] && q != []
    requires ValidRow(parse, chainId, r[|r| - 1]) && ValidRow(parse, chainId, q[|q| - 1])
    requires RowText(parse, chainId, r) == RowText(parse, chainId, q)
    ensures Agree(RowFields(parse, chainId, r[|r| - 1]), RowFields(parse, chainId, q[|q| - 1]))
    ensures HeadHash(h, chainId, r[..|r| - 1]) == HeadHash(h, chainId, q[..|q| - 1])
  {
    var m, n := |r| - 1, |q| - 1;
    BuildCanonicalInjective(RowFields(parse, chainId, r[m]), RowFields(parse, chainId, q[n]));
    assert LinkedAt(h, parse, chainId, r, m) && LinkedAt(h, parse, chainId, q, n);
  }

  /** Either the chains agree throughout or the pair of texts is a collision between them. */
  ghost predicate SameOrCollision(h: Hash, parse: Parser, chainId: string, r: seq<AuditRow>, q: seq<AuditRow>, c: Option<(string, string)>) {
    match c
    case Some((x, y)) => Collision(h, x, y) && Hashed(parse, chainId, r, x) && Hashed(parse, chainId, q, y)
    case None => |r| == |q| && forall i :: 0 <= i < |r| ==> Agree(RowFields(parse, chainId, r[i]), RowFields(parse, chainId, q[i]))
  }

  lemma Extended(h: Hash, parse: Parser, chainId: string, r: seq<AuditRow>, q: seq<AuditRow>, c: Option<(string, string)>)
    requires r != [] && q != []
    requires SameOrCollision(h, parse, chainId, r[..|r| - 1], q[..|q| - 1], c)
    requires Agree(RowFields(parse, chainId, r[|r| - 1]), RowFields(parse, chainId, q[|q| - 1]))
    ensures SameOrCollision(h, parse, chainId, r, q, c)
  {
    var m, n := |r| - 1, |q| - 1;
    if c.Some? {
      HashedPrefix(parse, chainId, r, m, c.value.0);
      HashedPrefix(parse, chainId, q, n, c.value.1);
    } else {
      forall i | 0 <= i < |r| ensures Agree(RowFields(parse, chainId, r[i]), RowFields(parse, chainId, q[i])) {
        if i < m { assert r[..m][i] == r[i] && q[..n][i] == q[i]; }
      }
    }
  }

  lemma SameTextSameEnd(parse: Parser, chainId: string, r: seq<AuditRow>, q: seq<AuditRow>)
    requires RowText(parse, chainId, r) == RowText(parse, chainId, q)
    ensures r == [] <==> q == []
  {
    if r == [] && q != [] {
      GenesisTextIsNoEntry(chainId, RowFields(parse, chainId, q[|q| - 1]));
    } else if r != [] && q == [] {
      GenesisTextIsNoEntry(chainId, RowFields(parse, chainId, r[|r| - 1]));
    }
  }

  lemma HeadsCollide(h: Hash, parse: Parser, chainId: string, r: seq<AuditRow>, q: seq<AuditRow>)
    requires Linked(h, parse, chainId, r) && Linked(h, parse, chainId, q)
    requires HeadHash(h, chainId, r) == HeadHash(h, chainId, q) && RowText(parse, chainId, r) != RowText(parse, chainId, q)
    ensures SameOrCollision(h, parse, chainId, r, q, FindCollision(parse, chainId, r, q))
  {
    HeadIsHashed(h, parse, chainId, r);
    HeadIsHashed(h, parse, chainId, q);
  }

  lemma BeforeLast(h: Hash, parse: Parser, chainId: string, r: seq<AuditRow>)
    requires Linked(h, parse, chainId, r) && r != [] && forall a <- r :: ValidRow(parse, chainId, a)
    ensures var p := r[..|r| - 1]; Linked(h, parse, chainId, p) && forall a <- p :: ValidRow(parse, chainId, a)
    ensures ValidRow(parse, chainId, r[|r| - 1])
  {
    LinkedPrefix(h, parse, chainId, r, |r| - 1);
    forall a <- r[..|r| - 1] ensures ValidRow(parse, chainId, a) {
      assert a in r;
    }
  }

  /** Two intact chains with the same head have the same length and agree in every hashed field, or two
      different hashed texts with one digest are exhibited. */
  lemma {:induction false} SameHeadSameHistory(h: Hash, parse: Parser, chainId: string, r: seq<AuditRow>, q: seq<AuditRow>)
    requires Linked(h, parse, chainId, r) && Linked(h, parse, chainId, q)
    requires (forall a <- r :: ValidRow(parse, chainId, a)) && (forall a <- q :: ValidRow(parse, chainId, a))
    requires HeadHash(h, chainId, r) == HeadHash(h, chainId, q)
    ensures SameOrCollision(h, parse, chainId, r, q, FindCollision(parse, chainId, r, q))
    decreases |r|
  {
    if RowText(parse, chainId, r) != RowText(parse, chainId, q) {
      HeadsCollide(h, parse, chainId, r, q);
    } else {
      SameTextSameEnd(parse, chainId, r, q);
      if r != [] {
        BeforeLast(h, parse, chainId, r);
        BeforeLast(h, parse, chainId, q);
        LastRowsAgree(h, parse, chainId, r, q);
        SameHeadSameHistory(h, parse, chainId, r[..|r| - 1], q[..|q| - 1]);
        Extended(h, parse, chainId, r, q, FindCollision(parse, chainId, r[..|r| - 1], q[..|q| - 1]));
      }
    }
  }

  /** Two tables of one chain that the verifier accepts, whatever its page size, and that end in the
      same head hold the same history among the rows it reads, or a collision is exhibited. */
  lemma AcceptedSameHead(h: Hash, parse: Parser, chainId: string, r: seq<AuditRow>, q: seq<AuditRow>, m: nat, n: nat)
    requires Ordered(r) && Ordered(q)
    requires (forall a <- r :: ValidRow(parse, chainId, a)) && (forall a <- q :: ValidRow(parse, chainId, a))
    ensures Ordered(RowsAfter(r, 0)) && Ordered(RowsAfter(q, 0))
    ensures var check, genesis := Checker(h, parse, chainId), GenesisHash(h, chainId);
      var x, y := Visible(RowsAfter(r, 0), m), Visible(RowsAfter(q, 0), n);
      PagedVerdict(check, RowsAfter(r, 0), m, genesis, 0).error.None? && PagedVerdict(check, RowsAfter(q, 0), n, genesis, 0).error.None?
      && HeadHash(h, chainId, x) == HeadHash(h, chainId, y) ==>
        SameOrCollision(h, parse, chainId, x, y, FindCollision(parse, chainId, x, y))
  {
    RowsAfterOrdered(r, 0);
    RowsAfterOrdered(q, 0);
    var x, y := Visible(RowsAfter(r, 0), m), Visible(RowsAfter(q, 0), n);
    PagedIsLinked(h, parse, chainId, RowsAfter(r, 0), m);
    PagedIsLinked(h, parse, chainId, RowsAfter(q, 0), n);
    VisibleAreRows(RowsAfter(r, 0), m);
    VisibleAreRows(RowsAfter(q, 0), n);
    RowsAfterAreRows(r, 0);
    RowsAfterAreRows(q, 0);
    if Linked(h, parse, chainId, x) && Linked(h, parse, chainId, y) && HeadHash(h, chainId, x) == HeadHash(h, chainId, y) {
      SameHeadSameHistory(h, parse, chainId, x, y);
    }
  }

  lemma {:induction false} RowsAfterAreRows(rows: seq<AuditRow>, after: nat)
    ensures forall r <- RowsAfter(rows, after) :: r in rows
  {
    if rows != [] && rows[0].chainSeq <= after {
      RowsAfterAreRows(rows[1..], after);
    }
  }

  lemma {:induction false} VisibleAreRows(rows: seq<AuditRow>, size: nat)
    requires Ordered(rows)
    ensures forall r <- Visible(rows, size) :: r in rows
    decreases |rows|
  {
    var page := if |rows| <= size then rows else rows[..size];
    if page != [] && |page| >= size {
      var after := page[|page| - 1].chainSeq;
      RowsAfterOrdered(rows, after);
      VisibleAreRows(RowsAfter(rows, after), size);
      RowsAfterAreRows(rows, after);
    }
  }
}
