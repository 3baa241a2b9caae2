/** Appending to the audit chains under the head-row lock, with commits and rollbacks in any order. */
module AuditLog {
  import opened Prelude
  import opened Text
  import opened Canonical
  import opened AuditChain

  datatype Entry = Entry(
    userId: Option<nat>,
    action: string,
    entityType: Option<string>,
    entityId: Option<string>,
    oldValue: Json,
    newValue: Json,
    ip: Option<string>,
    userAgent: Option<string>)

  // ---------------------------------------------------------------- payloads through the JSON column

  ghost predicate StoredAs(v: Json, w: Json) {
    Valid(w) && Same(w, Prune(v))
  }

  /** `JSON.parse` never returns the very text it is given: a text literal carries quotes. */
  ghost predicate ProperParser(parse: Parser) {
    forall s :: parse(s) != Some(Str(s)) && (parse(s).Some? ==> Valid(parse(s).value))
  }

  /** The payload the verifier reads back equals the payload that was hashed. */
  ghost predicate Survives(parse: Parser, v: Json) {
    Same(ParseMaybeJson(parse, Prune(v)), v)
  }

  ghost predicate NoUndefinedProperty(v: Json) {
    match v
    case Arr(items) => forall i :: 0 <= i < |items| ==> NoUndefinedProperty(items[i])
    case Obj(fields) => forall i :: 0 <= i < |fields| ==> !fields[i].value.Undefined? && NoUndefinedProperty(fields[i].value)
    case _ => true
  }

  lemma {:induction false} PruneKeeps(fs: seq<Field>)
    requires forall i :: 0 <= i < |fs| ==> !fs[i].value.Undefined?
    ensures |PruneFields(fs)| == |fs|
    ensures forall i :: 0 <= i < |fs| ==> PruneFields(fs)[i] == Field(fs[i].key, Prune(fs[i].value))
  {
    if fs != [] {
      PruneKeeps(fs[1..]);
    }
  }

  /** Storage as JSON loses exactly the properties whose value is undefined. */
  lemma {:induction false} PruneSame(v: Json)
    requires Valid(v)
    ensures Same(Prune(v), v) <==> NoUndefinedProperty(v)
    decreases v
  {
    match v
    case Arr(items) =>
      PruneItemsAt(items);
      forall i | 0 <= i < |items| ensures Same(Prune(items[i]), items[i]) <==> NoUndefinedProperty(items[i]) {
        PruneSame(items[i]);
      }
    case Obj(fields) =>
      forall i | 0 <= i < |fields| ensures Same(Prune(fields[i].value), fields[i].value) <==> NoUndefinedProperty(fields[i].value) {
        PruneSame(fields[i].value);
      }
      PruneFieldsFrom(fields);
      if forall i :: 0 <= i < |fields| ==> !fields[i].value.Undefined? {
        PruneSameFields(fields);
      } else {
        var k :| 0 <= k < |fields| && fields[k].value.Undefined?;
        UndefinedKeyIsGone(fields, k);
      }
    case _ =>
  }

  lemma UndefinedKeyIsGone(fs: seq<Field>, k: nat)
    requires DistinctKeys(fs) && k < |fs| && fs[k].value.Undefined?
    ensures !Has(PruneFields(fs), fs[k].key) && Has(fs, fs[k].key)
  {
    PruneFieldsFrom(fs);
    var t := PruneFields(fs);
    forall i | 0 <= i < |t| ensures t[i].key != fs[k].key {
      assert PrunedFrom(fs, t[i]);
    }
  }

  lemma PruneSameFields(fs: seq<Field>)
    requires DistinctKeys(fs)
    requires forall i :: 0 <= i < |fs| ==> !fs[i].value.Undefined?
    ensures SameFields(PruneFields(fs), fs) <==> forall i :: 0 <= i < |fs| ==> Same(Prune(fs[i].value), fs[i].value)
  {
    PruneKeeps(fs);
    forall i | 0 <= i < |fs| ensures Get(fs, fs[i].key) == fs[i].value && Has(PruneFields(fs), fs[i].key) && Has(fs, fs[i].key) {
      GetIsTheOne(fs, i);
      assert PruneFields(fs)[i].key == fs[i].key;
    }
  }

  lemma SameTransitive(a: Json, b: Json, c: Json)
    requires Valid(a) && Valid(b) && Valid(c) && Same(a, b)
    ensures Same(b, a) && (Same(b, c) <==> Same(a, c))
  {
    NormSame(a, b);
    NormSame(b, a);
    NormSame(b, c);
    NormSame(a, c);
  }

  /** Exactly when a payload survives: no undefined property, and not itself a text that parses as JSON. */
  lemma SurvivesExactly(parse: Parser, v: Json)
    requires Valid(v) && ProperParser(parse)
    ensures Survives(parse, v) <==> NoUndefinedProperty(v) && (v.Str? ==> parse(v.s).None?)
  {
    PruneSame(v);
    if v.Str? && parse(v.s).Some? {
      assert parse(v.s) != Some(Str(v.s));
    }
  }

  /** The driver may return object keys in another order; that does not change what survives. */
  lemma ReadBack(parse: Parser, v: Json, w: Json)
    requires Valid(v) && StoredAs(v, w) && ProperParser(parse)
    ensures Valid(ParseMaybeJson(parse, w))
    ensures Same(ParseMaybeJson(parse, w), v) <==> Survives(parse, v)
  {
    PruneValid(v);
    if !w.Str? {
      SameTransitive(w, Prune(v), v);
    }
  }

  // ---------------------------------------------------------------- chains and transactions

  datatype HeadRow = HeadRow(hash: string, seqNo: nat)

  /** The uncommitted work of the transaction that holds a chain's head row. */
  datatype Pending = Pending(tx: nat, rows: seq<AuditRow>, head: HeadRow)

  datatype Chain = Chain(rows: seq<AuditRow>, head: Option<HeadRow>, pending: Option<Pending>)

  type Chains = map<string, Chain>

  datatype Event =
    | Append(tx: nat, chainId: string, entry: Entry, storedOld: Json, storedNew: Json, createdAt: string)
    | Commit(tx: nat)
    | Rollback(tx: nat)

  function ChainOf(cs: Chains, chainId: string): Chain {
    if chainId in cs then cs[chainId] else Chain([], None, None)
  }

  function EntryFields(chainId: string, head: HeadRow, e: Entry, createdAt: string): ChainFields {
    ChainFields(chainId, head.seqNo + 1, head.hash, e.userId, e.action, e.entityType, e.entityId,
                e.oldValue, e.newValue, e.ip, e.userAgent, createdAt)
  }

  function NewRow(h: Hash, chainId: string, head: HeadRow, e: Entry, storedOld: Json, storedNew: Json, createdAt: string): AuditRow {
    AuditRow(head.seqNo + 1, head.hash, ComputeEntryHash(h, EntryFields(chainId, head, e, createdAt)),
             e.userId, e.action, e.entityType, e.entityId, storedOld, storedNew, e.ip, e.userAgent, createdAt)
  }

  /** The head row as the appending transaction sees it; the first append of a day inserts it. */
  function LockedHead(h: Hash, chainId: string, c: Chain, tx: nat): Pending {
    if c.pending.Some? then c.pending.value
    else Pending(tx, [], if c.head.Some? then c.head.value else HeadRow(GenesisHash(h, chainId), 0))
  }

  /** An append waits, changing nothing, while another transaction holds the head row. */
  function AppendTo(h: Hash, cs: Chains, tx: nat, chainId: string, e: Entry, storedOld: Json, storedNew: Json, createdAt: string): Chains {
    var c := ChainOf(cs, chainId);
    if c.pending.Some? && c.pending.value.tx != tx then cs
    else
      var p := LockedHead(h, chainId, c, tx);
      var row := NewRow(h, chainId, p.head, e, storedOld, storedNew, createdAt);
      cs[chainId := c.(pending := Some(Pending(tx, p.rows + [row], HeadRow(row.entryHash, row.chainSeq))))]
  }

  function CommitChain(c: Chain, tx: nat): Chain {
    if c.pending.Some? && c.pending.value.tx == tx
    then Chain(c.rows + c.pending.value.rows, Some(c.pending.value.head), None)
    else c
  }

  function RollbackChain(c: Chain, tx: nat): Chain {
    if c.pending.Some? && c.pending.value.tx == tx then c.(pending := None) else c
  }

  function Step(h: Hash, cs: Chains, e: Event): Chains {
    match e
    case Append(tx, chainId, entry, o, n, t) => AppendTo(h, cs, tx, chainId, entry, o, n, t)
    case Commit(tx) => map c | c in cs :: CommitChain(cs[c], tx)
    case Rollback(tx) => map c | c in cs :: RollbackChain(cs[c], tx)
  }

  function Run(h: Hash, cs: Chains, events: seq<Event>): Chains
    decreases |events|
  {
    if events == [] then cs else Run(h, Step(h, cs, events[0]), events[1..])
  }

  // ---------------------------------------------------------------- invariant

  /** Event e appended the row, at the place in the chain the row names. */
  ghost predicate Appended(h: Hash, chainId: string, row: AuditRow, e: Event) {
    && e.Append? && e.chainId == chainId && row.chainSeq >= 1
    && row == NewRow(h, chainId, HeadRow(row.prevHash, row.chainSeq - 1), e.entry, e.storedOld, e.storedNew, e.createdAt)
  }

  ghost predicate WovenAt(h: Hash, chainId: string, rows: seq<AuditRow>, i: nat, log: seq<Event>)
    requires i < |rows|
  {
    && rows[i].chainSeq == i + 1
    && rows[i].prevHash == HeadHash(h, chainId, rows[..i])
    && exists e <- log :: Appended(h, chainId, rows[i], e)
  }

  /** Rows are numbered and linked, each was appended by an event of the log, and the head row names the last. */
  ghost predicate Woven(h: Hash, chainId: string, rows: seq<AuditRow>, head: HeadRow, log: seq<Event>) {
    && (forall i :: 0 <= i < |rows| ==> WovenAt(h, chainId, rows, i, log))
    && head == HeadRow(HeadHash(h, chainId, rows), |rows|)
  }

  ghost predicate ChainInv(h: Hash, chainId: string, c: Chain, log: seq<Event>) {
    && (c.head.None? ==> c.rows == [])
    && (c.head.Some? ==> Woven(h, chainId, c.rows, c.head.value, log))
    && (c.pending.Some? ==> Woven(h, chainId, c.rows + c.pending.value.rows, c.pending.value.head, log))
  }

  ghost predicate ChainsInv(h: Hash, cs: Chains, log: seq<Event>) {
    forall id <- cs :: ChainInv(h, id, cs[id], log)
  }

  lemma WovenExtends(h: Hash, chainId: string, rows: seq<AuditRow>, head: HeadRow, row: AuditRow, e: Event, log: seq<Event>)
    requires Woven(h, chainId, rows, head, log) && e in log && e.Append? && e.chainId == chainId
    requires row == NewRow(h, chainId, head, e.entry, e.storedOld, e.storedNew, e.createdAt)
    ensures Woven(h, chainId, rows + [row], HeadRow(row.entryHash, row.chainSeq), log)
  {
    var all := rows + [row];
    forall i | 0 <= i < |all| ensures WovenAt(h, chainId, all, i, log) {
      if i < |rows| {
        assert WovenAt(h, chainId, rows, i, log);
        assert all[..i] == rows[..i];
      } else {
        assert all[..i] == rows;
        assert Appended(h, chainId, row, e);
      }
    }
  }

  lemma AppendKeepsInv(h: Hash, cs: Chains, e: Event, log: seq<Event>)
    requires ChainsInv(h, cs, log) && e.Append? && e in log
    ensures ChainsInv(h, Step(h, cs, e), log)
  {
    var c := ChainOf(cs, e.chainId);
    if c.pending.None? || c.pending.value.tx == e.tx {
      assert ChainInv(h, e.chainId, c, log);
      var p := LockedHead(h, e.chainId, c, e.tx);
      assert c.rows + [] == c.rows;
      assert Woven(h, e.chainId, c.rows + p.rows, p.head, log);
      var row := NewRow(h, e.chainId, p.head, e.entry, e.storedOld, e.storedNew, e.createdAt);
      WovenExtends(h, e.chainId, c.rows + p.rows, p.head, row, e, log);
      assert c.rows + p.rows + [row] == c.rows + (p.rows + [row]);
    }
  }

  lemma StepKeepsInv(h: Hash, cs: Chains, e: Event, log: seq<Event>)
    requires ChainsInv(h, cs, log) && e in log
    ensures ChainsInv(h, Step(h, cs, e), log)
  {
    if e.Append? { AppendKeepsInv(h, cs, e, log); }
  }

  lemma {:induction false} RunKeepsInv(h: Hash, cs: Chains, events: seq<Event>, log: seq<Event>)
    requires ChainsInv(h, cs, log) && forall e <- events :: e in log
    ensures ChainsInv(h, Run(h, cs, events), log)
    decreases |events|
  {
    if events != [] {
      assert events[0] in events;
      StepKeepsInv(h, cs, events[0], log);
      RunKeepsInv(h, Step(h, cs, events[0]), events[1..], log);
    }
  }

  // ---------------------------------------------------------------- which rows verify

  ghost predicate PayloadsStored(e: Event) {
    e.Append? ==>
      && Valid(e.entry.oldValue) && Valid(e.entry.newValue)
      && StoredAs(e.entry.oldValue, e.storedOld) && StoredAs(e.entry.newValue, e.storedNew)
  }

  ghost predicate PayloadsSurvive(parse: Parser, e: Event) {
    e.Append? ==> Survives(parse, e.entry.oldValue) && Survives(parse, e.entry.newValue)
  }

  /** The appended row carries the hash the verifier recomputes, if its payloads survive; otherwise
      the verifier rejects it, unless the two hashed texts collide. */
  lemma AppendedRowHash(h: Hash, parse: Parser, chainId: string, head: HeadRow, e: Entry, o: Json, n: Json, createdAt: string)
    requires ProperParser(parse) && Valid(e.oldValue) && Valid(e.newValue) && StoredAs(e.oldValue, o) && StoredAs(e.newValue, n)
    ensures var row := NewRow(h, chainId, head, e, o, n, createdAt);
      var written := BuildCanonical(EntryFields(chainId, head, e, createdAt));
      var reread := BuildCanonical(RowFields(parse, chainId, row));
      && (Survives(parse, e.oldValue) && Survives(parse, e.newValue) <==> written == reread)
      && (row.entryHash == ComputeEntryHash(h, RowFields(parse, chainId, row)) <==> written == reread || Collision(h, written, reread))
  {
    var row := NewRow(h, chainId, head, e, o, n, createdAt);
    var f, g := RowFields(parse, chainId, row), EntryFields(chainId, head, e, createdAt);
    ReadBack(parse, e.oldValue, o);
    ReadBack(parse, e.newValue, n);
    if Survives(parse, e.oldValue) && Survives(parse, e.newValue) {
      BuildCanonicalRespects(f, g);
    } else if BuildCanonical(f) == BuildCanonical(g) {
      BuildCanonicalInjective(f, g);
    }
  }

  /** The payloads of the event survive, or the text it hashed collides with the one the verifier hashes. */
  ghost predicate Verifiable(h: Hash, parse: Parser, chainId: string, row: AuditRow, e: Event)
    requires Appended(h, chainId, row, e)
  {
    || PayloadsSurvive(parse, e)
    || Collision(h, BuildCanonical(EntryFields(chainId, HeadRow(row.prevHash, row.chainSeq - 1), e.entry, e.createdAt)),
                 BuildCanonical(RowFields(parse, chainId, row)))
  }

  ghost predicate HashMatches(h: Hash, parse: Parser, chainId: string, row: AuditRow) {
    row.entryHash == ComputeEntryHash(h, RowFields(parse, chainId, row))
  }

  lemma RowVerifies(h: Hash, parse: Parser, chainId: string, row: AuditRow, e: Event)
    requires ProperParser(parse) && Appended(h, chainId, row, e) && PayloadsStored(e)
    ensures HashMatches(h, parse, chainId, row) <==> Verifiable(h, parse, chainId, row, e)
  {
    AppendedRowHash(h, parse, chainId, HeadRow(row.prevHash, row.chainSeq - 1), e.entry, e.storedOld, e.storedNew, e.createdAt);
  }

  lemma WovenIsLinked(h: Hash, parse: Parser, id: string, rows: seq<AuditRow>, head: HeadRow, log: seq<Event>)
    requires Woven(h, id, rows, head, log)
    ensures Linked(h, parse, id, rows) <==> forall row <- rows :: HashMatches(h, parse, id, row)
  {
    forall i | 0 <= i < |rows| ensures LinkedAt(h, parse, id, rows, i) <==> HashMatches(h, parse, id, rows[i]) {
      assert WovenAt(h, id, rows, i, log);
    }
  }

  /** Every row was appended by an event of the log, and reads back exactly if that event is verifiable. */
  lemma WovenVerifies(h: Hash, parse: Parser, id: string, rows: seq<AuditRow>, head: HeadRow, log: seq<Event>)
    requires ProperParser(parse) && Woven(h, id, rows, head, log) && forall e <- log :: PayloadsStored(e)
    ensures forall row <- rows :: exists e <- log :: Appended(h, id, row, e)
    ensures Linked(h, parse, id, rows) <==>
      forall row <- rows, e <- log :: Appended(h, id, row, e) ==> Verifiable(h, parse, id, row, e)
  {
    WovenIsLinked(h, parse, id, rows, head, log);
    forall row <- rows ensures exists e <- log :: Appended(h, id, row, e) {
      var i :| 0 <= i < |rows| && rows[i] == row;
      assert WovenAt(h, id, rows, i, log);
    }
    forall row <- rows, e <- log | Appended(h, id, row, e)
      ensures HashMatches(h, parse, id, row) <==> Verifiable(h, parse, id, row, e)
    {
      RowVerifies(h, parse, id, row, e);
    }
  }

  /** The verifier accepts the committed rows of a chain and its head row matches its last entry. */
  ghost predicate Accepted(h: Hash, parse: Parser, id: string, c: Chain) {
    && Verdict(Checker(h, parse, id), c.rows, GenesisHash(h, id), 0) == ChainResult(|c.rows|, None)
    && (c.head.None? ==> c.rows == [])
    && (c.head.Some? ==> c.head.value == HeadRow(HeadHash(h, id, c.rows), |c.rows|))
  }

  lemma LinkedAccepted(h: Hash, parse: Parser, id: string, c: Chain, log: seq<Event>)
    requires ChainInv(h, id, c, log) && Linked(h, parse, id, c.rows)
    ensures Accepted(h, parse, id, c)
  {
    VerdictAccepts(h, parse, id, c.rows, 0);
    assert c.rows[0..] == c.rows && c.rows[..0] == [];
    VerdictIsLinked(h, parse, id, c.rows);
  }

  lemma InvVerifies(h: Hash, parse: Parser, id: string, c: Chain, log: seq<Event>)
    requires ProperParser(parse) && ChainInv(h, id, c, log) && forall e <- log :: PayloadsStored(e)
    ensures forall row <- c.rows :: exists e <- log :: Appended(h, id, row, e)
    ensures Linked(h, parse, id, c.rows) <==>
      forall row <- c.rows, e <- log :: Appended(h, id, row, e) ==> Verifiable(h, parse, id, row, e)
  {
    if c.head.Some? {
      WovenVerifies(h, parse, id, c.rows, c.head.value, log);
    }
  }

  /** However appends interleave, commit or roll back under the head locks, every day's committed rows
      are accepted and match the head, if every payload survives. */
  lemma CommittedChainsAccepted(h: Hash, parse: Parser, events: seq<Event>)
    requires ProperParser(parse) && forall e <- events :: PayloadsStored(e) && PayloadsSurvive(parse, e)
    ensures var r := Run(h, map[], events); forall id <- r :: Accepted(h, parse, id, r[id])
  {
    RunKeepsInv(h, map[], events, events);
    var r := Run(h, map[], events);
    forall id | id in r ensures Accepted(h, parse, id, r[id]) {
      InvVerifies(h, parse, id, r[id], events);
      LinkedAccepted(h, parse, id, r[id], events);
    }
  }

  // ---------------------------------------------------------------- verifying every chain

  /** The head row names the last entry, or the genesis link of a chain without entries. */
  predicate HeadMatches(h: Hash, id: string, c: Chain) {
    c.head.Some? ==>
      var seqNo := if c.rows == [] then 0 else c.rows[|c.rows| - 1].chainSeq;
      c.head.value == HeadRow(HeadHash(h, id, c.rows), seqNo)
  }

  /** What `verifyAuditChains` demands of one chain; rows numbered 0 are never read. */
  ghost predicate ChainVerifies(h: Hash, parse: Parser, id: string, c: Chain) {
    Linked(h, parse, id, RowsAfter(c.rows, 0)) && HeadMatches(h, id, c)
  }

  lemma FirstBrokenIsLinked(h: Hash, parse: Parser, id: string, rows: seq<AuditRow>, v: ChainResult)
    requires FirstBroken(h, parse, id, rows, v)
    ensures v.error.None? <==> Linked(h, parse, id, rows)
  {
  }

  /** The first loop of `verifyAuditChains`: walk every chain. */
  method AllLinked(h: Hash, parse: Parser, chains: Chains, ids: seq<string>, pageSize: nat) returns (linked: bool)
    requires pageSize >= 1 && forall k :: 0 <= k < |ids| ==> ids[k] in chains && Distinct(chains[ids[k]].rows)
    ensures linked <==> forall k :: 0 <= k < |ids| ==> Linked(h, parse, ids[k], RowsAfter(chains[ids[k]].rows, 0))
  {
    linked := true;
    for k := 0 to |ids|
      invariant linked <==> forall j :: 0 <= j < k ==> Linked(h, parse, ids[j], RowsAfter(chains[ids[j]].rows, 0))
    {
      var ok := ChainOk(h, parse, ids[k], chains[ids[k]].rows, pageSize);
      linked := linked && ok;
    }
  }

  method ChainOk(h: Hash, parse: Parser, id: string, rows: seq<AuditRow>, pageSize: nat) returns (ok: bool)
    requires pageSize >= 1 && Distinct(rows)
    ensures ok <==> Linked(h, parse, id, RowsAfter(rows, 0))
  {
    var r := VerifyChain(h, parse, id, rows, pageSize);
    FirstBrokenIsLinked(h, parse, id, RowsAfter(rows, 0), r);
    ok := r.error.None?;
  }

  /** The second loop: the chains whose head row is not their last entry. */
  method MismatchedHeads(h: Hash, chains: Chains, ids: seq<string>) returns (mismatched: seq<string>)
    requires forall k :: 0 <= k < |ids| ==> ids[k] in chains
    ensures forall x :: x in mismatched <==> x in ids && !HeadMatches(h, x, chains[x])
  {
    mismatched := [];
    for k := 0 to |ids|
      invariant forall x :: x in mismatched <==> x in ids[..k] && !HeadMatches(h, x, chains[x])
    {
      assert ids[..k + 1] == ids[..k] + [ids[k]];
      if !HeadMatches(h, ids[k], chains[ids[k]]) {
        mismatched := mismatched + [ids[k]];
      }
    }
    assert ids[..|ids|] == ids;
  }

  /** `verifyAuditChains`. */
  method VerifyAuditChains(h: Hash, parse: Parser, chains: Chains, ids: seq<string>, pageSize: nat)
    returns (ok: bool, headMismatch: seq<string>)
    requires pageSize >= 1 && forall k :: 0 <= k < |ids| ==> ids[k] in chains && Distinct(chains[ids[k]].rows)
    ensures ok <==> forall k :: 0 <= k < |ids| ==> ChainVerifies(h, parse, ids[k], chains[ids[k]])
    ensures forall x :: x in headMismatch <==> x in ids && !HeadMatches(h, x, chains[x])
  {
    var linked := AllLinked(h, parse, chains, ids, pageSize);
    headMismatch := MismatchedHeads(h, chains, ids);
    ok := linked && headMismatch == [];
    AllHeadsMatch(h, chains, ids, headMismatch);
  }

  lemma AllHeadsMatch(h: Hash, chains: Chains, ids: seq<string>, mismatched: seq<string>)
    requires forall k :: 0 <= k < |ids| ==> ids[k] in chains
    requires forall x :: x in mismatched <==> x in ids && !HeadMatches(h, x, chains[x])
    ensures mismatched == [] <==> forall k :: 0 <= k < |ids| ==> HeadMatches(h, ids[k], chains[ids[k]])
  {
    if mismatched != [] {
      assert mismatched[0] in mismatched;
    }
    forall k | 0 <= k < |ids| && !HeadMatches(h, ids[k], chains[ids[k]]) ensures mismatched != [] {
      assert ids[k] in mismatched;
    }
  }

  lemma {:induction false} NumberedFromOne(rows: seq<AuditRow>)
    requires forall i :: 0 <= i < |rows| ==> rows[i].chainSeq == i + 1
    ensures Distinct(rows) && RowsAfter(rows, 0) == rows
  {
  }

  /** What the verification of a committed chain says about the run that wrote it. */
  ghost predicate VerdictOnRun(h: Hash, parse: Parser, id: string, c: Chain, events: seq<Event>) {
    && Distinct(c.rows) && HeadMatches(h, id, c)
    && (forall row <- c.rows :: exists e <- events :: Appended(h, id, row, e))
    && (ChainVerifies(h, parse, id, c) <==>
      forall row <- c.rows, e <- events :: Appended(h, id, row, e) ==> Verifiable(h, parse, id, row, e))
  }

  /** In every run of appends, commits and rollbacks each committed row comes from an append, its number
      is used once and the head matches; and the log verifies exactly if for every committed row the
      payloads survive, or two different texts with one digest are exhibited. */
  lemma CommittedLogVerifiesExactly(h: Hash, parse: Parser, events: seq<Event>)
    requires ProperParser(parse) && forall e <- events :: PayloadsStored(e)
    ensures var r := Run(h, map[], events); forall id <- r :: VerdictOnRun(h, parse, id, r[id], events)
  {
    RunKeepsInv(h, map[], events, events);
    var r := Run(h, map[], events);
    forall id | id in r ensures VerdictOnRun(h, parse, id, r[id], events) {
      InvVerifies(h, parse, id, r[id], events);
      InvNumbered(h, id, r[id], events);
    }
  }

  lemma InvNumbered(h: Hash, id: string, c: Chain, log: seq<Event>)
    requires ChainInv(h, id, c, log)
    ensures Distinct(c.rows) && RowsAfter(c.rows, 0) == c.rows && HeadMatches(h, id, c)
  {
    forall i | 0 <= i < |c.rows| ensures c.rows[i].chainSeq == i + 1 {
      assert WovenAt(h, id, c.rows, i, log);
    }
    NumberedFromOne(c.rows);
  }

  // ---------------------------------------------------------------- where an append ends up

  function Committed(cs: Chains, id: string): seq<AuditRow> {
    if id in cs then cs[id].rows else []
  }

  /** The rows a transaction has appended to a chain since it last committed or rolled back. */
  function Uncommitted(cs: Chains, id: string, tx: nat): seq<AuditRow> {
    if id in cs && cs[id].pending.Some? && cs[id].pending.value.tx == tx then cs[id].pending.value.rows else []
  }

  /** Another transaction holds uncommitted rows of the chain. */
  ghost predicate HeldByOther(cs: Chains, id: string, tx: nat) {
    exists other: nat :: other != tx && Uncommitted(cs, id, other) != []
  }

  /** The row carries what the event appends. */
  ghost predicate Carries(row: AuditRow, e: Event) {
    && e.Append?
    && row.userId == e.entry.userId && row.action == e.entry.action
    && row.entityType == e.entry.entityType && row.entityId == e.entry.entityId
    && row.oldValue == e.storedOld && row.newValue == e.storedNew
    && row.ip == e.entry.ip && row.userAgent == e.entry.userAgent && row.createdAt == e.createdAt
  }

  /** One more row than before, which carries the event. */
  ghost predicate OneMore(before: seq<AuditRow>, after: seq<AuditRow>, e: Event) {
    |after| == |before| + 1 && after[..|before|] == before && Carries(after[|before|], e)
  }

  /** The committed rows of a chain, and those of a transaction under way, after an event. */
  ghost predicate RowsMove(cs: Chains, e: Event, t: Chains, id: string, tx: nat) {
    match e
    case Append(own, chainId, _, _, _, _) =>
      && Committed(t, id) == Committed(cs, id)
      && if id == chainId && tx == own && !HeldByOther(cs, id, tx) then OneMore(Uncommitted(cs, id, tx), Uncommitted(t, id, tx), e)
         else Uncommitted(t, id, tx) == Uncommitted(cs, id, tx)
    case Commit(own) =>
      && Committed(t, id) == Committed(cs, id) + Uncommitted(cs, id, own)
      && Uncommitted(t, id, tx) == if tx == own then [] else Uncommitted(cs, id, tx)
    case Rollback(own) =>
      && Committed(t, id) == Committed(cs, id)
      && Uncommitted(t, id, tx) == if tx == own then [] else Uncommitted(cs, id, tx)
  }

  /** A transaction that holds a head row has appended to the chain. */
  ghost predicate HoldersWrite(cs: Chains) {
    forall id <- cs :: cs[id].pending.Some? ==> cs[id].pending.value.rows != []
  }

  lemma HoldersWriteStep(h: Hash, cs: Chains, e: Event)
    requires HoldersWrite(cs)
    ensures HoldersWrite(Step(h, cs, e))
  {
  }

  lemma {:induction false} HoldersWriteRun(h: Hash, cs: Chains, events: seq<Event>)
    requires HoldersWrite(cs)
    ensures HoldersWrite(Run(h, cs, events))
    decreases |events|
  {
    if events != [] {
      HoldersWriteStep(h, cs, events[0]);
      HoldersWriteRun(h, Step(h, cs, events[0]), events[1..]);
    }
  }

  lemma HeldIs(cs: Chains, id: string, tx: nat)
    requires HoldersWrite(cs)
    ensures HeldByOther(cs, id, tx) <==> ChainOf(cs, id).pending.Some? && ChainOf(cs, id).pending.value.tx != tx
  {
    var c := ChainOf(cs, id);
    if c.pending.Some? && c.pending.value.tx != tx {
      assert Uncommitted(cs, id, c.pending.value.tx) != [];
    }
  }

  lemma EventMovesRows(h: Hash, cs: Chains, e: Event, id: string, tx: nat)
    requires HoldersWrite(cs)
    ensures RowsMove(cs, e, Step(h, cs, e), id, tx)
  {
    if e.Append? {
      HeldIs(cs, id, tx);
      HeldIs(cs, e.chainId, e.tx);
    }
  }

  // ---------------------------------------------------------------- the store

  ghost predicate Reachable(h: Hash, cs: Chains) {
    exists events: seq<Event> :: cs == Run(h, map[], events)
  }

  lemma {:induction false} RunAppend(h: Hash, cs: Chains, events: seq<Event>, e: Event)
    ensures Run(h, cs, events + [e]) == Step(h, Run(h, cs, events), e)
    decreases |events|
  {
    if events == [] {
      assert events + [e] == [e] && [e][1..] == [];
    } else {
      assert (events + [e])[0] == events[0] && (events + [e])[1..] == events[1..] + [e];
      RunAppend(h, Step(h, cs, events[0]), events[1..], e);
    }
  }

  lemma StepReachable(h: Hash, cs: Chains, e: Event)
    requires Reachable(h, cs)
    ensures Reachable(h, Step(h, cs, e))
  {
    var events: seq<Event> :| cs == Run(h, map[], events);
    RunAppend(h, map[], events, e);
    assert Step(h, cs, e) == Run(h, map[], events + [e]);
  }

  /** An append waits exactly while another transaction holds uncommitted rows of the chain; otherwise it
      adds one row that carries its entry to those of its own transaction. A commit moves the rows of its
      transaction behind the committed ones, a rollback drops them; no other row moves. */
  lemma RowsMoveExactly(h: Hash, cs: Chains, e: Event, id: string, tx: nat)
    requires Reachable(h, cs)
    ensures RowsMove(cs, e, Step(h, cs, e), id, tx)
  {
    var events: seq<Event> :| cs == Run(h, map[], events);
    HoldersWriteRun(h, map[], events);
    EventMovesRows(h, cs, e, id, tx);
  }

  // ---------------------------------------------------------------- which appends are kept

  /** No event of the run ends the transaction. */
  predicate StaysOpen(events: seq<Event>, tx: nat) {
    forall n :: 0 <= n < |events| ==> events[n] != Commit(tx) && events[n] != Rollback(tx)
  }

  /** While a transaction is open and holds rows of a chain, they stay and nobody commits to the chain. */
  lemma {:induction false} OpenRowsStay(h: Hash, cs: Chains, events: seq<Event>, id: string, tx: nat)
    requires HoldersWrite(cs) && Uncommitted(cs, id, tx) != [] && StaysOpen(events, tx)
    ensures var t := Run(h, cs, events);
      Uncommitted(cs, id, tx) <= Uncommitted(t, id, tx) && Committed(t, id) == Committed(cs, id)
    decreases |events|
  {
    if events != [] {
      var t := Step(h, cs, events[0]);
      EventMovesRows(h, cs, events[0], id, tx);
      if events[0].Commit? {
        assert Uncommitted(cs, id, events[0].tx) == [];
      }
      HoldersWriteStep(h, cs, events[0]);
      OpenRowsStay(h, t, events[1..], id, tx);
    }
  }

  lemma {:induction false} CommittedStays(h: Hash, cs: Chains, events: seq<Event>, id: string)
    requires HoldersWrite(cs)
    ensures Committed(cs, id) <= Committed(Run(h, cs, events), id)
    decreases |events|
  {
    if events != [] {
      EventMovesRows(h, cs, events[0], id, 0);
      HoldersWriteStep(h, cs, events[0]);
      CommittedStays(h, Step(h, cs, events[0]), events[1..], id);
    }
  }

  /** The place an append takes in its chain once its transaction commits. */
  function Place(cs: Chains, e: Event): nat
    requires e.Append?
  {
    |Committed(cs, e.chainId)| + |Uncommitted(cs, e.chainId, e.tx)|
  }

  lemma AppendHolds(h: Hash, cs: Chains, e: Event, middle: seq<Event>)
    requires Reachable(h, cs) && e.Append? && !HeldByOther(cs, e.chainId, e.tx) && StaysOpen(middle, e.tx)
    ensures var s := Run(h, Step(h, cs, e), middle);
      && HoldersWrite(s) && Committed(s, e.chainId) == Committed(cs, e.chainId)
      && var u, v := Uncommitted(cs, e.chainId, e.tx), Uncommitted(s, e.chainId, e.tx);
        |v| > |u| && v[..|u|] == u && Carries(v[|u|], e)
  {
    var events: seq<Event> :| cs == Run(h, map[], events);
    HoldersWriteRun(h, map[], events);
    EventMovesRows(h, cs, e, e.chainId, e.tx);
    HoldersWriteStep(h, cs, e);
    HoldersWriteRun(h, Step(h, cs, e), middle);
    OpenRowsStay(h, Step(h, cs, e), middle, e.chainId, e.tx);
  }

  /** Every append that does not wait is kept if its transaction commits next: whatever happens before
      and after, a committed row carries its entry, at its place. */
  lemma CommittedAppendIsKept(h: Hash, cs: Chains, e: Event, middle: seq<Event>, rest: seq<Event>)
    requires Reachable(h, cs) && e.Append? && !HeldByOther(cs, e.chainId, e.tx) && StaysOpen(middle, e.tx)
    ensures var rows := Committed(Run(h, Step(h, Run(h, Step(h, cs, e), middle), Commit(e.tx)), rest), e.chainId);
      Place(cs, e) < |rows| && Carries(rows[Place(cs, e)], e)
  {
    AppendHolds(h, cs, e, middle);
    var s := Run(h, Step(h, cs, e), middle);
    EventMovesRows(h, s, Commit(e.tx), e.chainId, e.tx);
    HoldersWriteStep(h, s, Commit(e.tx));
    var t := Step(h, s, Commit(e.tx));
    assert Carries(Committed(t, e.chainId)[Place(cs, e)], e);
    CommittedStays(h, t, rest, e.chainId);
  }

  /** If its transaction rolls back next, nothing of it is left: the chain is as it was committed before,
      and no row of the transaction is under way. */
  lemma RolledBackAppendIsGone(h: Hash, cs: Chains, e: Event, middle: seq<Event>)
    requires Reachable(h, cs) && e.Append? && !HeldByOther(cs, e.chainId, e.tx) && StaysOpen(middle, e.tx)
    ensures var t := Step(h, Run(h, Step(h, cs, e), middle), Rollback(e.tx));
      Committed(t, e.chainId) == Committed(cs, e.chainId) && forall tx: nat :: Uncommitted(t, e.chainId, tx) == []
  {
    AppendHolds(h, cs, e, middle);
    var s := Run(h, Step(h, cs, e), middle);
    forall tx: nat ensures RowsMove(s, Rollback(e.tx), Step(h, s, Rollback(e.tx)), e.chainId, tx) {
      EventMovesRows(h, s, Rollback(e.tx), e.chainId, tx);
    }
  }

  lemma WaitsExactly(h: Hash, cs: Chains, id: string, tx: nat)
    requires Reachable(h, cs)
    ensures HeldByOther(cs, id, tx) <==> ChainOf(cs, id).pending.Some? && ChainOf(cs, id).pending.value.tx != tx
  {
    var events: seq<Event> :| cs == Run(h, map[], events);
    HoldersWriteRun(h, map[], events);
    HeldIs(cs, id, tx);
  }

  class AuditStore {
    const h: Hash
    var chains: Chains

    /** Some interleaving of appends, commits and rollbacks leads to these chains. */
    ghost predicate Valid()
      reads this
    {
      Reachable(h, chains)
    }

    constructor (h: Hash)
      ensures Valid() && this.h == h && chains == map[]
    {
      this.h := h;
      chains := map[];
      new;
      assert chains == Run(h, map[], []);
    }

    /** `appendChained`: ensure and lock the head row, hash, insert the row, advance the head. */
    method AppendLocked(tx: nat, chainId: string, e: Entry, storedOld: Json, storedNew: Json, createdAt: string)
      returns (waits: bool)
      modifies this`chains
      ensures chains == AppendTo(h, old(chains), tx, chainId, e, storedOld, storedNew, createdAt)
      ensures waits <==> var c := ChainOf(old(chains), chainId); c.pending.Some? && c.pending.value.tx != tx
    {
      var c := ChainOf(chains, chainId);
      if c.pending.Some? && c.pending.value.tx != tx {
        return true;
      }
      var p := LockedHead(h, chainId, c, tx);
      var prevHash := p.head.hash;
      var chainSeq := p.head.seqNo + 1;
      var entryHash := ComputeEntryHash(h, EntryFields(chainId, p.head, e, createdAt));
      var row := AuditRow(chainSeq, prevHash, entryHash, e.userId, e.action, e.entityType, e.entityId,
                          storedOld, storedNew, e.ip, e.userAgent, createdAt);
      p := p.(rows := p.rows + [row]);
      p := p.(head := HeadRow(entryHash, chainSeq));
      chains := chains[chainId := c.(pending := Some(p))];
      waits := false;
    }

    /** The append of an interleaving: it waits exactly while another transaction holds rows of the chain. */
    method AppendChained(tx: nat, chainId: string, e: Entry, storedOld: Json, storedNew: Json, createdAt: string)
      returns (waits: bool)
      requires Valid()
      modifies this`chains
      ensures Valid() && chains == Step(h, old(chains), Append(tx, chainId, e, storedOld, storedNew, createdAt))
      ensures waits <==> old(HeldByOther(chains, chainId, tx))
      ensures waits ==> chains == old(chains)
      ensures !waits ==> OneMore(old(Uncommitted(chains, chainId, tx)), Uncommitted(chains, chainId, tx),
                                 Append(tx, chainId, e, storedOld, storedNew, createdAt))
      ensures forall id :: Committed(chains, id) == old(Committed(chains, id))
      ensures forall id <- old(chains) :: id in chains && (id != chainId ==> chains[id] == old(chains)[id])
    {
      ghost var event := Append(tx, chainId, e, storedOld, storedNew, createdAt);
      StepReachable(h, chains, event);
      WaitsExactly(h, chains, chainId, tx);
      RowsMoveExactly(h, chains, event, chainId, tx);
      waits := AppendLocked(tx, chainId, e, storedOld, storedNew, createdAt);
    }

    method CommitTx(tx: nat)
      requires Valid()
      modifies this`chains
      ensures Valid() && chains == Step(h, old(chains), Commit(tx))
      ensures forall id :: Committed(chains, id) == old(Committed(chains, id)) + old(Uncommitted(chains, id, tx))
      ensures forall id :: Uncommitted(chains, id, tx) == []
    {
      StepReachable(h, chains, Commit(tx));
      chains := map c | c in chains :: CommitChain(chains[c], tx);
    }

    method RollbackTx(tx: nat)
      requires Valid()
      modifies this`chains
      ensures Valid() && chains == Step(h, old(chains), Rollback(tx))
      ensures forall id :: Committed(chains, id) == old(Committed(chains, id)) && Uncommitted(chains, id, tx) == []
    {
      StepReachable(h, chains, Rollback(tx));
      chains := map c | c in chains :: RollbackChain(chains[c], tx);
    }
  }
}
