/** Reconciling the request ledger with what the gateway charged: two tables built in one
    pass each, compared entry by entry. */
module Reconciliation {
  import opened Results

  datatype Field = InputTokens | OutputTokens | CacheReadTokens | CacheCreationTokens

  /** Token counts by field; a missing one counts as zero. */
  datatype Tokens = Tokens(input: Option<int>, output: Option<int>, cacheRead: Option<int>,
                           cacheCreation: Option<int>) {
    function Get(field: Field): int {
      var n := match field
        case InputTokens => input
        case OutputTokens => output
        case CacheReadTokens => cacheRead
        case CacheCreationTokens => cacheCreation;
      if n.Some? then n.value else 0
    }
  }

  /** A ledger line: HTTP status, whether the outcome is `completed`, its server id if any. */
  datatype LedgerLine = LedgerLine(time: int, status: int, completed: bool, id: Option<string>,
                                   model: Option<string>, tokens: Tokens)

  /** A completed request that the server gave an id. */
  datatype Row = Row(id: string, model: Option<string>, tokens: Tokens)

  /** A usage record: complete, or lacking a required field. */
  datatype Record =
    | Record(id: string, model: Option<string>, tokens: Tokens, charged: bool)
    | Incomplete(requestId: Option<string>)

  datatype Problem =
    | DuplicateInLedger(id: string)
    | MalformedServerRecord(requestId: Option<string>)
    | DuplicateOnServer(id: string)
    | MissingOnServer(id: string)
    | TokenMismatch(id: string, field: Field)
    | ModelMismatch(id: string)
    | NotChargedYet(id: string)
    | MissingInLedger(id: string)

  datatype Report = Report(ledgerCompleted: nat, serverRecords: nat, matched: nat, problems: seq<Problem>)

  /** The rows that are reconciled: completed requests with a server id, since a time. */
  function CompletedRows(ledger: seq<LedgerLine>, since: Option<int>): seq<Row> {
    if ledger == [] then []
    else
      var line := ledger[|ledger| - 1];
      CompletedRows(ledger[..|ledger| - 1], since)
      + if (since.Some? ==> line.time >= since.value) && line.status == 200 && line.completed
           && line.id.Some? && line.id.value != ""
        then [Row(line.id.value, line.model, line.tokens)] else []
  }

  // ---------------------------------------------------------------- what the problems are

  predicate HasRow(rows: seq<Row>, id: string) {
    exists row <- rows :: row.id == id
  }

  predicate HasRecord(server: seq<Record>, id: string) {
    exists record <- server :: record.Record? && record.id == id
  }

  /** The last row of an id, which is the one compared. */
  function LastRow(rows: seq<Row>, id: string): (r: Row)
    requires HasRow(rows, id)
    ensures r in rows && r.id == id
  {
    var last := rows[|rows| - 1];
    assert rows == rows[..|rows| - 1] + [last];
    if last.id == id then last else LastRow(rows[..|rows| - 1], id)
  }

  function LastRecord(server: seq<Record>, id: string): (r: Record)
    requires HasRecord(server, id)
    ensures r in server && r.Record? && r.id == id
  {
    var last := server[|server| - 1];
    assert server == server[..|server| - 1] + [last];
    if last.Record? && last.id == id then last else LastRecord(server[..|server| - 1], id)
  }

  predicate RowTwice(rows: seq<Row>, id: string) {
    exists i, j :: 0 <= i < j < |rows| && rows[i].id == id && rows[j].id == id
  }

  predicate IsRecordOf(record: Record, id: string) {
    record.Record? && record.id == id
  }

  predicate RecordTwice(server: seq<Record>, id: string) {
    exists i, j :: 0 <= i < j < |server| && IsRecordOf(server[i], id) && IsRecordOf(server[j], id)
  }

  predicate InBoth(rows: seq<Row>, server: seq<Record>, id: string) {
    HasRow(rows, id) && HasRecord(server, id)
  }

  /** What each problem says about the two lists. */
  predicate IsProblem(p: Problem, rows: seq<Row>, server: seq<Record>) {
    match p
    case DuplicateInLedger(id) => RowTwice(rows, id)
    case MalformedServerRecord(requestId) => Incomplete(requestId) in server
    case DuplicateOnServer(id) => RecordTwice(server, id)
    case MissingOnServer(id) => HasRow(rows, id) && !HasRecord(server, id)
    case TokenMismatch(id, field) =>
      InBoth(rows, server, id) && LastRow(rows, id).tokens.Get(field) != LastRecord(server, id).tokens.Get(field)
    case ModelMismatch(id) => InBoth(rows, server, id) && LastRow(rows, id).model != LastRecord(server, id).model
    case NotChargedYet(id) => InBoth(rows, server, id) && !LastRecord(server, id).charged
    case MissingInLedger(id) => HasRecord(server, id) && !HasRow(rows, id)
  }

  predicate PairAgrees(row: Row, record: Record)
    requires record.Record?
  {
    && (forall field :: row.tokens.Get(field) == record.tokens.Get(field))
    && row.model == record.model && record.charged
  }

  predicate Agrees(rows: seq<Row>, server: seq<Record>, id: string) {
    InBoth(rows, server, id) && PairAgrees(LastRow(rows, id), LastRecord(server, id))
  }

  /** The server charged exactly what the row says. */
  predicate IsAccounted(row: Row, server: seq<Record>)
    requires forall record <- server :: record.Record?
  {
    exists record <- server :: record.id == row.id && PairAgrees(row, record)
  }

  /** The two lists account for the same requests, one to one. */
  predicate Reconciled(rows: seq<Row>, server: seq<Record>) {
    && (forall record <- server :: record.Record?)
    && (forall i, j | 0 <= i < j < |server| :: server[i].id != server[j].id)
    && (forall i, j | 0 <= i < j < |rows| :: rows[i].id != rows[j].id)
    && (forall row <- rows :: IsAccounted(row, server))
    && (forall record <- server :: HasRow(rows, record.id))
  }

  // ---------------------------------------------------------------- the passes

  /** A dictionary in insertion order. */
  datatype Dict<T> = Dict(keys: seq<string>, entries: map<string, T>) {
    ghost predicate Valid() {
      && (forall key :: key in keys <==> key in entries)
      && (forall i, j | 0 <= i < j < |keys| :: keys[i] != keys[j])
    }

    function Put(key: string, value: T): (r: Dict<T>)
      ensures Valid() ==> r.Valid()
      ensures r.entries == entries[key := value]
    {
      Dict(if key in entries then keys else keys + [key], entries[key := value])
    }
  }

  ghost predicate HoldsRows(localOk: Dict<Row>, rows: seq<Row>) {
    && localOk.Valid()
    && (forall id :: id in localOk.entries <==> HasRow(rows, id))
    && (forall id <- localOk.entries :: localOk.entries[id] == LastRow(rows, id))
  }

  ghost predicate HoldsRecords(remote: Dict<Record>, server: seq<Record>) {
    && remote.Valid()
    && (forall id :: id in remote.entries <==> HasRecord(server, id))
    && (forall id <- remote.entries :: remote.entries[id] == LastRecord(server, id))
  }

  lemma NoRowHeld()
    ensures HoldsRows(Dict([], map[]), []) && forall id :: !RowTwice([], id)
  {
  }

  lemma RowOneMore(rows: seq<Row>, row: Row)
    ensures forall id :: HasRow(rows + [row], id) <==> HasRow(rows, id) || row.id == id
    ensures forall id | HasRow(rows + [row], id) ::
              LastRow(rows + [row], id) == if row.id == id then row else LastRow(rows, id)
    ensures forall id :: RowTwice(rows + [row], id) <==> RowTwice(rows, id) || (HasRow(rows, id) && row.id == id)
  {
    var longer := rows + [row];
    assert longer[..|rows|] == rows;
    forall id ensures RowTwice(longer, id) <==> RowTwice(rows, id) || (HasRow(rows, id) && row.id == id) {
      if RowTwice(rows, id) {
        var i, j :| 0 <= i < j < |rows| && rows[i].id == id && rows[j].id == id;
        assert longer[i].id == id && longer[j].id == id;
      }
      if HasRow(rows, id) && row.id == id {
        var i :| 0 <= i < |rows| && rows[i].id == id;
        assert longer[i].id == id && longer[|rows|].id == id;
      }
    }
  }

  lemma HoldsOneMoreRow(localOk: Dict<Row>, rows: seq<Row>, row: Row)
    requires HoldsRows(localOk, rows)
    ensures HoldsRows(localOk.Put(row.id, row), rows + [row])
    ensures row.id in localOk.entries <==> HasRow(rows, row.id)
  {
    hide LastRow, RowTwice, HasRow;
    RowOneMore(rows, row);
  }

  method ReadRows(rows: seq<Row>) returns (localOk: Dict<Row>, problems: seq<Problem>)
    ensures HoldsRows(localOk, rows)
    ensures forall p :: p in problems <==> p.DuplicateInLedger? && RowTwice(rows, p.id)
  {
    hide HoldsRows, LastRow, RowTwice, HasRow;
    localOk, problems := Dict([], map[]), [];
    NoRowHeld();
    for n := 0 to |rows|
      invariant HoldsRows(localOk, rows[..n])
      invariant forall p :: p in problems <==> p.DuplicateInLedger? && RowTwice(rows[..n], p.id)
    {
      var row := rows[n];
      assert rows[..n + 1] == rows[..n] + [row];
      RowOneMore(rows[..n], row);
      HoldsOneMoreRow(localOk, rows[..n], row);
      if row.id in localOk.entries { problems := problems + [DuplicateInLedger(row.id)]; }
      localOk := localOk.Put(row.id, row);
    }
    assert rows[..|rows|] == rows;
  }

  lemma NoneHeld()
    ensures HoldsRecords(Dict([], map[]), []) && forall id :: !RecordTwice([], id)
  {
  }

  lemma RecordOneMore(server: seq<Record>, record: Record)
    ensures forall id :: HasRecord(server + [record], id) <==>
              HasRecord(server, id) || (record.Record? && record.id == id)
    ensures forall id | HasRecord(server + [record], id) ::
              LastRecord(server + [record], id) ==
              if record.Record? && record.id == id then record else LastRecord(server, id)
    ensures forall id :: RecordTwice(server + [record], id) <==>
              RecordTwice(server, id) || (HasRecord(server, id) && record.Record? && record.id == id)
  {
  }

  lemma HoldsOneMore(remote: Dict<Record>, server: seq<Record>, record: Record)
    requires HoldsRecords(remote, server)
    ensures HoldsRecords(if record.Record? then remote.Put(record.id, record) else remote, server + [record])
    ensures record.Record? ==> (record.id in remote.entries <==> HasRecord(server, record.id))
  {
    hide LastRecord, RecordTwice, HasRecord;
    RecordOneMore(server, record);
  }

  method ReadRecords(server: seq<Record>) returns (remote: Dict<Record>, problems: seq<Problem>)
    ensures HoldsRecords(remote, server)
    ensures forall p :: p in problems <==>
              || (p.MalformedServerRecord? && Incomplete(p.requestId) in server)
              || (p.DuplicateOnServer? && RecordTwice(server, p.id))
  {
    hide HoldsRecords, LastRecord, RecordTwice, HasRecord;
    remote, problems := Dict([], map[]), [];
    NoneHeld();
    for n := 0 to |server|
      invariant HoldsRecords(remote, server[..n])
      invariant forall p :: p in problems <==>
                  (p.MalformedServerRecord? && Incomplete(p.requestId) in server[..n])
                  || (p.DuplicateOnServer? && RecordTwice(server[..n], p.id))
    {
      var record := server[n];
      assert server[..n + 1] == server[..n] + [record];
      RecordOneMore(server[..n], record);
      HoldsOneMore(remote, server[..n], record);
      match record {
        case Incomplete(requestId) => problems := problems + [MalformedServerRecord(requestId)];
        case Record(id, _, _, _) =>
          if id in remote.entries { problems := problems + [DuplicateOnServer(id)]; }
          remote := remote.Put(id, record);
      }
    }
    assert server[..|server|] == server;
  }

  lemma AllFields()
    ensures forall field :: field in [InputTokens, OutputTokens, CacheReadTokens, CacheCreationTokens]
  {
    forall field ensures field in [InputTokens, OutputTokens, CacheReadTokens, CacheCreationTokens] {
      match field
      case InputTokens =>
      case OutputTokens =>
      case CacheReadTokens =>
      case CacheCreationTokens =>
    }
  }

  /** The problems of one pair. */
  method ComparePair(row: Row, record: Record) returns (problems: seq<Problem>)
    requires record.Record?
    ensures problems == [] <==> PairAgrees(row, record)
    ensures forall p :: p in problems <==>
              || (p.TokenMismatch? && p.id == row.id && row.tokens.Get(p.field) != record.tokens.Get(p.field))
              || (p == ModelMismatch(row.id) && row.model != record.model)
              || (p == NotChargedYet(row.id) && !record.charged)
  {
    problems := [];
    var fields := [InputTokens, OutputTokens, CacheReadTokens, CacheCreationTokens];
    for i := 0 to |fields|
      invariant forall p :: p in problems <==>
                  && p.TokenMismatch? && p.id == row.id && p.field in fields[..i]
                  && row.tokens.Get(p.field) != record.tokens.Get(p.field)
    {
      assert fields[..i + 1] == fields[..i] + [fields[i]];
      if row.tokens.Get(fields[i]) != record.tokens.Get(fields[i]) {
        problems := problems + [TokenMismatch(row.id, fields[i])];
      }
    }
    assert fields[..4] == fields;
    AllFields();
    if row.model != record.model { problems := problems + [ModelMismatch(row.id)]; }
    if !record.charged { problems := problems + [NotChargedYet(row.id)]; }
    if problems == [] {
      forall field ensures row.tokens.Get(field) == record.tokens.Get(field) {
        assert TokenMismatch(row.id, field) !in problems;
      }
      assert ModelMismatch(row.id) !in problems && NotChargedYet(row.id) !in problems;
    } else {
      assert problems[0] in problems;
    }
  }

  /** The ids that both sides list, agree on and are charged for. */
  function AgreedIds(rows: seq<Row>, server: seq<Record>): set<string> {
    set row <- rows | Agrees(rows, server, row.id) :: row.id
  }

  /** The problems that a row can have. */
  predicate IsOfPair(p: Problem) {
    p.MissingOnServer? || p.TokenMismatch? || p.ModelMismatch? || p.NotChargedYet?
  }

  lemma AgreedAreRows(rows: seq<Row>, server: seq<Record>)
    ensures forall id :: id in AgreedIds(rows, server) <==> HasRow(rows, id) && Agrees(rows, server, id)
  {
    forall id ensures id in AgreedIds(rows, server) <==> HasRow(rows, id) && Agrees(rows, server, id) {
      if HasRow(rows, id) { assert LastRow(rows, id) in rows && LastRow(rows, id).id == id; }
    }
  }

  lemma OfListedRow(p: Problem, rows: seq<Row>, server: seq<Record>)
    requires IsOfPair(p) && IsProblem(p, rows, server)
    ensures HasRow(rows, p.id)
  {
    hide HasRow, HasRecord, LastRow, LastRecord;
  }

  lemma MissingIsAll(id: string, rows: seq<Row>, server: seq<Record>)
    requires HasRow(rows, id) && !HasRecord(server, id)
    ensures forall p :: IsOfPair(p) && p.id == id ==> (IsProblem(p, rows, server) <==> p == MissingOnServer(id))
    ensures !Agrees(rows, server, id)
  {
    hide HasRow, HasRecord, LastRow, LastRecord;
  }

  lemma PairIsAll(id: string, rows: seq<Row>, server: seq<Record>)
    requires HasRow(rows, id) && HasRecord(server, id)
    ensures var row, record := LastRow(rows, id), LastRecord(server, id);
            forall p :: IsOfPair(p) && p.id == id ==>
              (IsProblem(p, rows, server) <==>
                 || (p.TokenMismatch? && row.tokens.Get(p.field) != record.tokens.Get(p.field))
                 || (p == ModelMismatch(id) && row.model != record.model)
                 || (p == NotChargedYet(id) && !record.charged))
    ensures Agrees(rows, server, id) <==> PairAgrees(LastRow(rows, id), LastRecord(server, id))
  {
    hide HasRow, HasRecord, LastRow, LastRecord, PairAgrees;
  }

  method ComparePairs(localOk: Dict<Row>, remote: Dict<Record>, ghost rows: seq<Row>, ghost server: seq<Record>)
    returns (matched: nat, problems: seq<Problem>)
    requires HoldsRows(localOk, rows) && HoldsRecords(remote, server)
    ensures matched == |AgreedIds(rows, server)|
    ensures forall p :: p in problems <==> IsOfPair(p) && IsProblem(p, rows, server)
  {
    hide LastRow, LastRecord, HasRow, HasRecord, PairAgrees, IsProblem, RowTwice, RecordTwice, Agrees, InBoth, AgreedIds;
    matched, problems := 0, [];
    ghost var agreed: set<string> := {};
    for n := 0 to |localOk.keys|
      invariant forall id :: id in agreed <==> id in localOk.keys[..n] && Agrees(rows, server, id)
      invariant matched == |agreed|
      invariant forall p :: p in problems <==>
                  IsOfPair(p) && p.id in localOk.keys[..n] && IsProblem(p, rows, server)
    {
      var id := localOk.keys[n];
      assert localOk.keys[..n + 1] == localOk.keys[..n] + [id];
      assert id !in localOk.keys[..n];
      if id !in remote.entries {
        problems := problems + [MissingOnServer(id)];
        MissingIsAll(id, rows, server);
      } else {
        var found := ComparePair(localOk.entries[id], remote.entries[id]);
        PairIsAll(id, rows, server);
        problems := problems + found;
        if found == [] {
          matched := matched + 1;
          agreed := agreed + {id};
        }
      }
    }
    assert localOk.keys[..|localOk.keys|] == localOk.keys;
    forall p | IsOfPair(p) && IsProblem(p, rows, server) ensures p in problems {
      OfListedRow(p, rows, server);
    }
    assert agreed == AgreedIds(rows, server) by { AgreedAreRows(rows, server); }
  }

  method FindUnlisted(localOk: Dict<Row>, remote: Dict<Record>, ghost rows: seq<Row>, ghost server: seq<Record>)
    returns (problems: seq<Problem>)
    requires HoldsRows(localOk, rows) && HoldsRecords(remote, server)
    ensures forall p :: p in problems <==> p.MissingInLedger? && IsProblem(p, rows, server)
  {
    hide LastRow, LastRecord, HasRow, HasRecord;
    problems := [];
    for n := 0 to |remote.keys|
      invariant forall p :: p in problems <==>
                  p.MissingInLedger? && p.id in remote.keys[..n] && IsProblem(p, rows, server)
    {
      var id := remote.keys[n];
      assert remote.keys[..n + 1] == remote.keys[..n] + [id];
      if id !in localOk.entries { problems := problems + [MissingInLedger(id)]; }
    }
    assert remote.keys[..|remote.keys|] == remote.keys;
  }

  lemma ListProblems(rows: seq<Row>, server: seq<Record>)
    ensures forall id :: IsProblem(DuplicateInLedger(id), rows, server) <==> RowTwice(rows, id)
    ensures forall id :: IsProblem(DuplicateOnServer(id), rows, server) <==> RecordTwice(server, id)
    ensures forall id :: IsProblem(MalformedServerRecord(id), rows, server) <==> Incomplete(id) in server
  {
  }

  lemma NoProblemMeansReconciled(rows: seq<Row>, server: seq<Record>)
    requires forall p :: !IsProblem(p, rows, server)
    ensures Reconciled(rows, server)
  {
    forall record | record in server ensures record.Record? {
      assert record.Incomplete? ==> IsProblem(MalformedServerRecord(record.requestId), rows, server);
    }
    forall i, j | 0 <= i < j < |server| ensures server[i].id != server[j].id {
      assert server[i] in server && server[j] in server;
      assert !IsProblem(DuplicateOnServer(server[i].id), rows, server);
    }
    forall i, j | 0 <= i < j < |rows| ensures rows[i].id != rows[j].id {
      assert !IsProblem(DuplicateInLedger(rows[i].id), rows, server);
    }
    forall row | row in rows ensures IsAccounted(row, server) {
      var id := row.id;
      assert !IsProblem(MissingOnServer(id), rows, server);
      assert !IsProblem(ModelMismatch(id), rows, server) && !IsProblem(NotChargedYet(id), rows, server);
      assert LastRow(rows, id) == row;
      forall field ensures row.tokens.Get(field) == LastRecord(server, id).tokens.Get(field) {
        assert !IsProblem(TokenMismatch(id, field), rows, server);
      }
      assert PairAgrees(row, LastRecord(server, id));
    }
    forall record | record in server ensures HasRow(rows, record.id) {
      assert HasRecord(server, record.id);
      assert !IsProblem(MissingInLedger(record.id), rows, server);
    }
  }

  lemma ReconciledHasNoProblem(rows: seq<Row>, server: seq<Record>, p: Problem)
    requires Reconciled(rows, server)
    ensures !IsProblem(p, rows, server)
  {
  }

  lemma NoProblemIffReconciled(rows: seq<Row>, server: seq<Record>)
    ensures (forall p :: !IsProblem(p, rows, server)) <==> Reconciled(rows, server)
  {
    if forall p :: !IsProblem(p, rows, server) {
      NoProblemMeansReconciled(rows, server);
    }
    if Reconciled(rows, server) {
      forall p ensures !IsProblem(p, rows, server) { ReconciledHasNoProblem(rows, server, p); }
    }
  }

  lemma {:induction false} DistinctKeys(keys: seq<string>, ids: set<string>)
    requires forall i, j | 0 <= i < j < |keys| :: keys[i] != keys[j]
    requires forall id :: id in keys <==> id in ids
    ensures |keys| == |ids|
  {
    if keys == [] {
      assert ids == {};
    } else {
      var last := keys[|keys| - 1];
      assert keys == keys[..|keys| - 1] + [last];
      DistinctKeys(keys[..|keys| - 1], ids - {last});
    }
  }

  function RowIds(rows: seq<Row>): (r: seq<string>)
    ensures |r| == |rows| && forall i | 0 <= i < |r| :: r[i] == rows[i].id
  {
    seq(|rows|, i requires 0 <= i < |rows| => rows[i].id)
  }

  function RecordIds(server: seq<Record>): (r: seq<string>)
    requires forall record <- server :: record.Record?
    ensures |r| == |server| && forall i | 0 <= i < |r| :: r[i] == server[i].id
  {
    seq(|server|, i requires 0 <= i < |server| => assert server[i] in server; server[i].id)
  }

  lemma IdsOfRows(rows: seq<Row>, id: string)
    ensures id in RowIds(rows) <==> HasRow(rows, id)
  {
  }

  lemma IdsOfRecords(server: seq<Record>, id: string)
    requires forall record <- server :: record.Record?
    ensures id in RecordIds(server) <==> HasRecord(server, id)
  {
  }

  lemma SameIds(rows: seq<Row>, server: seq<Record>, id: string)
    requires Reconciled(rows, server)
    ensures HasRow(rows, id) <==> HasRecord(server, id)
    ensures HasRow(rows, id) <==> id in AgreedIds(rows, server)
  {
  }

  lemma ReconciledCounts(localOk: Dict<Row>, remote: Dict<Record>, rows: seq<Row>, server: seq<Record>)
    requires HoldsRows(localOk, rows) && HoldsRecords(remote, server) && Reconciled(rows, server)
    ensures |localOk.keys| == |remote.keys| == |rows| == |server| == |AgreedIds(rows, server)|
  {
    hide AgreedIds, HasRow, HasRecord, RowIds, RecordIds, LastRow, LastRecord, PairAgrees;
    var ids := AgreedIds(rows, server);
    forall id ensures (HasRow(rows, id) <==> id in ids) && (HasRecord(server, id) <==> id in ids) {
      SameIds(rows, server, id);
    }
    forall id ensures id in RowIds(rows) <==> id in ids { IdsOfRows(rows, id); }
    forall id ensures id in RecordIds(server) <==> id in ids { IdsOfRecords(server, id); }
    DistinctKeys(localOk.keys, ids);
    DistinctKeys(remote.keys, ids);
    DistinctKeys(RowIds(rows), ids);
    DistinctKeys(RecordIds(server), ids);
  }

  /** The reconciliation in `main`: it reports every discrepancy and nothing else, and finds
      none exactly when the two lists account for the same requests one to one. */
  method Reconcile(ledger: seq<LedgerLine>, since: Option<int>, server: seq<Record>) returns (report: Report)
    ensures forall p :: p in report.problems <==> IsProblem(p, CompletedRows(ledger, since), server)
    ensures report.problems == [] <==> Reconciled(CompletedRows(ledger, since), server)
    ensures report.matched == |AgreedIds(CompletedRows(ledger, since), server)|
    ensures report.problems == [] ==>
              && report.matched == report.ledgerCompleted == report.serverRecords
              && report.matched == |CompletedRows(ledger, since)| == |server|
  {
    hide HoldsRows, HoldsRecords, IsProblem, Reconciled, AgreedIds, RowTwice, RecordTwice;
    var rows := CompletedRows(ledger, since);
    var localOk, inLedger := ReadRows(rows);
    var remote, onServer := ReadRecords(server);
    var matched, inPairs := ComparePairs(localOk, remote, rows, server);
    var unlisted := FindUnlisted(localOk, remote, rows, server);
    var problems := inLedger + onServer + inPairs + unlisted;
    ListProblems(rows, server);
    forall p ensures p in problems <==> IsProblem(p, rows, server) {}
    NoProblemIffReconciled(rows, server);
    report := Report(|localOk.keys|, |remote.keys|, matched, problems);
    if problems == [] {
      ReconciledCounts(localOk, remote, rows, server);
    } else {
      assert problems[0] in problems;
    }
  }
}
