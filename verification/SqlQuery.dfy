/** PostgresStore.QueryLogs (cmd/server/main.go): the clause builder with its numbered placeholders,
    and the read that fetches one row more than a page. */
module SqlQuery {
  import opened Strings
  import opened Codecs
  import opened Chain
  import opened Verify
  import opened Paging
  import opened Positions

  // ----- The SQL that can be built, and what it means -----

  datatype Value = Text(s: string) | Number(n: int)

  datatype Field = ClientIdField | AppField | LevelField

  /** A condition refers to its argument by placeholder number: $1 is the first argument. */
  datatype Clause = FieldEquals(field: Field, arg: nat) | TextLike(arg: nat) | IndexAbove(arg: nat)

  /** SELECT ... WHERE clauses ORDER BY entry_index ASC LIMIT $limitArg [OFFSET $offsetArg]. */
  datatype Select = Select(clauses: seq<Clause>, limitArg: nat, offsetArg: Option<nat>)

  /** PostgreSQL's JSON operators on record_json (None is NULL) and its ILIKE. */
  datatype Dialect = Dialect(field: (Field, string) -> Option<string>, message: string -> Option<string>,
                             ilike: (string, string) -> bool)

  function TextArg(args: seq<Value>, n: nat): Option<string> {
    if 1 <= n <= |args| && args[n - 1].Text? then Some(args[n - 1].s) else None
  }

  function NumberArg(args: seq<Value>, n: nat): Option<int> {
    if 1 <= n <= |args| && args[n - 1].Number? then Some(args[n - 1].n) else None
  }

  predicate Holds(d: Dialect, clause: Clause, args: seq<Value>, row: Row) {
    match clause
    case FieldEquals(field, n) =>
      TextArg(args, n).Some? && d.field(field, row.payload) == Some(TextArg(args, n).value)
    case TextLike(n) =>
      && TextArg(args, n).Some?
      && ((d.message(row.payload).Some? && d.ilike(d.message(row.payload).value, TextArg(args, n).value))
          || d.ilike(row.payload, TextArg(args, n).value))
    case IndexAbove(n) => NumberArg(args, n).Some? && row.index > NumberArg(args, n).value
  }

  predicate HoldAll(d: Dialect, clauses: seq<Clause>, args: seq<Value>, row: Row) {
    forall clause | clause in clauses :: Holds(d, clause, args, row)
  }

  function Where(d: Dialect, clauses: seq<Clause>, args: seq<Value>): Row -> bool {
    (row: Row) => HoldAll(d, clauses, args, row)
  }

  function RunCount(d: Dialect, clauses: seq<Clause>, args: seq<Value>, table: seq<Row>): nat {
    |Filter(Where(d, clauses, args), table)|
  }

  /** Over a table in key order; an argument of the wrong kind is an error. */
  function RunSelect(d: Dialect, sel: Select, args: seq<Value>, table: seq<Row>): Option<seq<Row>> {
    var limit := NumberArg(args, sel.limitArg);
    var offset := if sel.offsetArg.None? then Some(0) else NumberArg(args, sel.offsetArg.value);
    if limit.None? || limit.value < 0 || offset.None? || offset.value < 0 then None
    else Some(Take(Drop(Filter(Where(d, sel.clauses, args), table), offset.value), limit.value))
  }

  // ----- What the query asks for, clause by clause -----

  predicate RowMatches(d: Dialect, q: LogQuery, row: Row) {
    && (q.clientId != "" ==> d.field(ClientIdField, row.payload) == Some(q.clientId))
    && (q.app != "" ==> d.field(AppField, row.payload) == Some(q.app))
    && (q.level != "" ==> d.field(LevelField, row.payload) == Some(q.level))
    && (q.text != "" ==>
          || (d.message(row.payload).Some? && d.ilike(d.message(row.payload).value, "%" + q.text + "%"))
          || d.ilike(row.payload, "%" + q.text + "%"))
  }

  function Matching(d: Dialect, q: LogQuery): Row -> bool { (row: Row) => RowMatches(d, q, row) }

  /** There is no cursor clause for 0. */
  function PastRow(after: nat): Row -> bool { (row: Row) => after == 0 || row.index > after }

  // ----- The builder -----

  /** A clause list and its arguments as they grow together. */
  datatype Built = Built(clauses: seq<Clause>, args: seq<Value>) {
    /** Every placeholder is in range, so later arguments do not disturb it. */
    predicate Bound() { forall clause | clause in clauses :: 1 <= clause.arg <= |args| }

    function Field(field: Field, value: string): Built {
      if value == "" then this else Built(clauses + [FieldEquals(field, |args| + 1)], args + [Text(value)])
    }

    function Search(text: string): Built {
      if text == "" then this else Built(clauses + [TextLike(|args| + 1)], args + [Text("%" + text + "%")])
    }

    function Cursor(after: nat): Built
      requires after <= MAX_UINT64
    {
      if after == 0 then this else Built(clauses + [IndexAbove(|args| + 1)], args + [Number(Int64(after))])
    }
  }

  function BuildFilters(q: LogQuery): Built {
    Built([], []).Field(ClientIdField, q.clientId).Field(AppField, q.app).Field(LevelField, q.level).Search(q.text)
  }

  /** The cursor clause, then LIMIT and OFFSET. */
  function AddPaging(filters: Built, q: LogQuery): (Select, seq<Value>)
    requires Bounded(q)
  {
    var b := filters.Cursor(q.after);
    var withLimit := b.args + [Number(q.limit + 1)];
    if q.offset > 0 then (Select(b.clauses, |withLimit|, Some(|withLimit| + 1)), withLimit + [Number(q.offset)])
    else (Select(b.clauses, |withLimit|, None), withLimit)
  }

  function BuildList(q: LogQuery): (Select, seq<Value>)
    requires Bounded(q)
  {
    AddPaging(BuildFilters(q), q)
  }

  lemma LaterArgs(d: Dialect, b: Built, more: seq<Value>, row: Row)
    requires b.Bound()
    ensures HoldAll(d, b.clauses, b.args + more, row) == HoldAll(d, b.clauses, b.args, row)
  {
    forall clause | clause in b.clauses
      ensures Holds(d, clause, b.args + more, row) == Holds(d, clause, b.args, row)
    {
      assert (b.args + more)[clause.arg - 1] == b.args[clause.arg - 1];
    }
  }

  /** A clause added together with its argument means its own conjunct and changes no other. */
  lemma Added(d: Dialect, b: Built, clause: Clause, value: Value, row: Row)
    requires b.Bound() && clause.arg == |b.args| + 1
    ensures var b' := Built(b.clauses + [clause], b.args + [value]);
            && b'.Bound()
            && HoldAll(d, b'.clauses, b'.args, row) == (HoldAll(d, b.clauses, b.args, row) && Holds(d, clause, b'.args, row))
            && b'.args[clause.arg - 1] == value
  {
    LaterArgs(d, b, [value], row);
    var b' := Built(b.clauses + [clause], b.args + [value]);
    assert forall x :: x in b'.clauses <==> x in b.clauses || x == clause;
    assert clause in b'.clauses;
  }

  lemma FieldMeans(d: Dialect, b: Built, field: Field, value: string, row: Row)
    requires b.Bound()
    ensures var b' := b.Field(field, value);
            b'.Bound() && HoldAll(d, b'.clauses, b'.args, row)
            == (HoldAll(d, b.clauses, b.args, row) && (value != "" ==> d.field(field, row.payload) == Some(value)))
  {
    Added(d, b, FieldEquals(field, |b.args| + 1), Text(value), row);
  }

  lemma SearchMeans(d: Dialect, b: Built, text: string, row: Row)
    requires b.Bound()
    ensures var b' := b.Search(text);
            b'.Bound() && HoldAll(d, b'.clauses, b'.args, row)
            == (HoldAll(d, b.clauses, b.args, row) &&
                (text != "" ==>
                   || (d.message(row.payload).Some? && d.ilike(d.message(row.payload).value, "%" + text + "%"))
                   || d.ilike(row.payload, "%" + text + "%")))
  {
    Added(d, b, TextLike(|b.args| + 1), Text("%" + text + "%"), row);
  }

  /** The WHERE clause of the count query selects exactly the rows that meet every present filter. */
  lemma FiltersMean(d: Dialect, q: LogQuery, row: Row)
    ensures var b := BuildFilters(q);
            b.Bound() && HoldAll(d, b.clauses, b.args, row) == RowMatches(d, q, row)
    ensures RowMatches(d, q, row) <==>
              && (q.clientId != "" ==> d.field(ClientIdField, row.payload) == Some(q.clientId))
              && (q.app != "" ==> d.field(AppField, row.payload) == Some(q.app))
              && (q.level != "" ==> d.field(LevelField, row.payload) == Some(q.level))
              && (q.text != "" ==>
                    var pattern := "%" + q.text + "%";
                    d.ilike(row.payload, pattern)
                    || (d.message(row.payload).Some? && d.ilike(d.message(row.payload).value, pattern)))
  {
    var b0 := Built([], []);
    FieldMeans(d, b0, ClientIdField, q.clientId, row);
    var b1 := b0.Field(ClientIdField, q.clientId);
    FieldMeans(d, b1, AppField, q.app, row);
    var b2 := b1.Field(AppField, q.app);
    FieldMeans(d, b2, LevelField, q.level, row);
    var b3 := b2.Field(LevelField, q.level);
    SearchMeans(d, b3, q.text, row);
  }

  lemma CursorMeans(d: Dialect, b: Built, after: nat, row: Row)
    requires b.Bound() && after <= MAX_INT64
    ensures var b' := b.Cursor(after);
            b'.Bound() && HoldAll(d, b'.clauses, b'.args, row)
            == (HoldAll(d, b.clauses, b.args, row) && (after == 0 || row.index > after))
  {
    Added(d, b, IndexAbove(|b.args| + 1), Number(Int64(after)), row);
  }

  lemma PagingMeans(d: Dialect, b: Built, q: LogQuery, row: Row)
    requires Bounded(q) && b.Bound()
    ensures var (sel, args) := AddPaging(b, q);
            && HoldAll(d, sel.clauses, args, row)
               == (HoldAll(d, b.clauses, b.args, row) && (q.after == 0 || row.index > q.after))
            && NumberArg(args, sel.limitArg) == Some(q.limit + 1)
            && (if q.offset == 0 then sel.offsetArg.None?
                else sel.offsetArg.Some? && NumberArg(args, sel.offsetArg.value) == Some(q.offset))
  {
    CursorMeans(d, b, q.after, row);
    var b' := b.Cursor(q.after);
    var limit, offset := [Number(q.limit + 1)], [Number(q.offset)];
    LaterArgs(d, b', limit, row);
    LaterArgs(d, b', limit + offset, row);
    assert b'.args + limit + offset == b'.args + (limit + offset);
  }

  /** The list query selects the rows that meet every filter and lie past the cursor, and its LIMIT
      and OFFSET placeholders carry limit + 1 and the offset. */
  lemma ListMeans(d: Dialect, q: LogQuery, row: Row)
    requires Bounded(q)
    ensures var (sel, args) := BuildList(q);
            && HoldAll(d, sel.clauses, args, row) == (RowMatches(d, q, row) && (q.after == 0 || row.index > q.after))
            && NumberArg(args, sel.limitArg) == Some(q.limit + 1)
            && (if q.offset == 0 then sel.offsetArg.None?
                else sel.offsetArg.Some? && NumberArg(args, sel.offsetArg.value) == Some(q.offset))
  {
    FiltersMean(d, q, row);
    PagingMeans(d, BuildFilters(q), q, row);
  }

  // ----- The read -----

  /** Matching rows past the cursor, after OFFSET. */
  function Rest(d: Dialect, table: seq<Row>, q: LogQuery): seq<Row>
    requires Bounded(q)
  {
    Drop(Filter(PastRow(q.after), Filter(Matching(d, q), table)), q.offset)
  }

  lemma SelectMeans(d: Dialect, table: seq<Row>, q: LogQuery)
    requires Bounded(q)
    ensures var (sel, args) := BuildList(q);
            RunSelect(d, sel, args, table) == Some(Take(Rest(d, table, q), q.limit + 1))
  {
    var (sel, args) := BuildList(q);
    forall i | 0 <= i < |table|
      ensures Where(d, sel.clauses, args)(table[i]) == (Matching(d, q)(table[i]) && PastRow(q.after)(table[i]))
    {
      ListMeans(d, q, table[i]);
    }
    FilterTwice(Matching(d, q), PastRow(q.after), Where(d, sel.clauses, args), table);
    ListMeans(d, q, Row(0, "", "", "", "", ""));
  }

  lemma CountMeans(d: Dialect, table: seq<Row>, q: LogQuery)
    ensures var b := BuildFilters(q);
            RunCount(d, b.clauses, b.args, table) == |Filter(Matching(d, q), table)|
  {
    var b := BuildFilters(q);
    forall i | 0 <= i < |table| ensures Where(d, b.clauses, b.args)(table[i]) == Matching(d, q)(table[i]) {
      FiltersMean(d, q, table[i]);
    }
    FilterAgrees(Where(d, b.clauses, b.args), Matching(d, q), table);
  }

  /** uint64(dbIndex), which reinterprets a negative key. */
  function Uint64(n: int): nat {
    if n >= 0 then n else if n + MAX_INT64 + 1 >= 0 then n + MAX_UINT64 + 1 else 0
  }

  function RowEntry(c: Codec, row: Row): Option<Entry> {
    match c.unmarshal(row.payload)
    case None => None
    case Some(record) =>
      Some(Entry(Uint64(row.index), row.timestamp, row.prevHash, row.payloadHash, row.entryHash, record))
  }

  /** None when some record_json does not decode. */
  function RowEntries(c: Codec, rows: seq<Row>): (r: Option<seq<Entry>>)
    ensures r.Some? ==> |r.value| == |rows|
  {
    if rows == [] then Some([]) else
    var init := RowEntries(c, rows[..|rows| - 1]);
    var last := RowEntry(c, rows[|rows| - 1]);
    if init.None? || last.None? then None else Some(init.value + [last.value])
  }

  /** The cursor means the same to the key column and to the decoded index: without a cursor the code
      that reads a file passes over index 0, and with one a negative key counts as large there. */
  predicate Keyed(table: seq<Row>, after: nat) {
    forall i :: 0 <= i < |table| ==> if after == 0 then table[i].index != 0 && table[i].index + MAX_INT64 + 1 >= 0 else table[i].index >= 0
  }

  /** And it does so exactly for such keys. */
  lemma KeyedIff(c: Codec, row: Row, after: nat)
    requires RowEntry(c, row).Some? && -1 - MAX_INT64 <= row.index <= MAX_INT64 && after <= MAX_INT64
    ensures PastRow(after)(row) == Past(after)(RowEntry(c, row).value) <==> Keyed([row], after)
  {
    assert [row][0] == row;
  }

  lemma {:induction false} FilterKeyed(p: Row -> bool, table: seq<Row>, after: nat)
    requires Keyed(table, after)
    ensures Keyed(Filter(p, table), after)
  {
    if table != [] {
      FilterKeyed(p, table[..|table| - 1], after);
    }
  }

  /** The answer in terms of the matching rows: an error when a fetched record does not decode, else
      the page of decoded rows.  The count is a statement of its own and may see an older table. */
  function TableAnswer(c: Codec, d: Dialect, counted: seq<Row>, table: seq<Row>, q: LogQuery): Result<Page>
    requires Bounded(q)
  {
    var fetched := RowEntries(c, Take(Rest(d, table, q), q.limit + 1));
    if fetched.None? then Err(BAD_JSON)
    else Ok(Cut(fetched.value, |Filter(Matching(d, q), counted)|, q))
  }

  lemma {:induction false} RowEntriesPrefix(c: Codec, rows: seq<Row>, n: nat)
    requires n <= |rows|
    ensures RowEntries(c, rows[..n]).None? ==> RowEntries(c, rows).None?
    ensures RowEntries(c, rows).Some? ==> RowEntries(c, rows[..n]) == Some(RowEntries(c, rows).value[..n])
  {
    if RowEntries(c, rows).Some? {
      var all := RowEntries(c, rows).value;
      if n < |rows| {
        assert all[..|rows| - 1][..n] == all[..n];
      } else {
        assert all[..n] == all;
      }
    }
    if n < |rows| {
      RowEntriesPrefix(c, rows[..|rows| - 1], n);
      assert rows[..|rows| - 1][..n] == rows[..n];
    } else {
      assert rows[..n] == rows;
    }
  }

  method DecodeRows(c: Codec, rows: seq<Row>) returns (r: Option<seq<Entry>>)
    ensures r == RowEntries(c, rows)
  {
    var items: seq<Entry> := [];
    var i := 0;
    while i < |rows|
      invariant 0 <= i <= |rows|
      invariant RowEntries(c, rows[..i]) == Some(items)
    {
      var entry := RowEntry(c, rows[i]);
      assert rows[..i + 1][..i] == rows[..i];
      if entry.None? {
        RowEntriesPrefix(c, rows, i + 1);
        return None;
      }
      items := items + [entry.value];
      i := i + 1;
    }
    assert rows[..i] == rows;
    return Some(items);
  }

  lemma RowEntryAt(c: Codec, rows: seq<Row>, i: nat)
    requires RowEntries(c, rows).Some? && i < |rows|
    ensures RowEntry(c, rows[i]) == Some(RowEntries(c, rows).value[i])
  {
    RowEntriesPrefix(c, rows, i + 1);
    assert rows[..i + 1][..i] == rows[..i];
  }

  /** SELECT COUNT(*) with the filters only. */
  method CountRows(d: Dialect, table: seq<Row>, q: LogQuery) returns (n: nat)
    ensures n == |Filter(Matching(d, q), table)|
  {
    var filters := BuildFilters(q);
    n := RunCount(d, filters.clauses, filters.args, table);
    CountMeans(d, table, q);
  }

  method FetchRows(d: Dialect, table: seq<Row>, q: LogQuery) returns (rows: seq<Row>)
    requires Bounded(q)
    ensures rows == Take(Rest(d, table, q), q.limit + 1)
  {
    var (sel, args) := BuildList(q);
    SelectMeans(d, table, q);
    rows := RunSelect(d, sel, args, table).value;
  }

  // ----- What the answer holds, by position -----

  ghost function BeyondRow(d: Dialect, q: LogQuery): Row -> bool {
    (row: Row) => RowMatches(d, q, row) && (q.after == 0 || row.index > q.after)
  }

  /** A row and its decoded entry; a negative key shows as the uint64 with the same bits. */
  ghost predicate Decodes(c: Codec, row: Row, e: Entry) {
    && c.unmarshal(row.payload) == Some(e.record) && e.timestamp == row.timestamp && e.prevHash == row.prevHash
    && e.payloadHash == row.payloadHash && e.entryHash == row.entryHash
    && (row.index >= 0 ==> e.index == row.index)
    && (-0x8000_0000_0000_0000 <= row.index < 0 ==> e.index == row.index + 0x1_0000_0000_0000_0000)
  }

  lemma RowEntryExactly(c: Codec, row: Row)
    ensures RowEntry(c, row).Some? <==> c.unmarshal(row.payload).Some?
    ensures RowEntry(c, row).Some? ==> Decodes(c, row, RowEntry(c, row).value)
  {
  }

  /** Item `k` of the page is the row that is hit number `offset + k`, decoded. */
  ghost predicate RowItemIs(c: Codec, p: Row -> bool, table: seq<Row>, offset: int, items: seq<Entry>, k: nat)
    requires k < |items|
  {
    exists i: nat :: Nth(p, table, offset + k, i) && Decodes(c, table[i], items[k])
  }

  /** A page of a table by position: the rows that meet the filters past the cursor, from number `offset`
      on, as many as the limit allows; a next cursor exactly when one more is left; and as total the number
      of rows that meet the filters in the table as it was when they were counted. */
  ghost predicate IsTablePage(c: Codec, d: Dialect, page: Page, counted: seq<Row>, table: seq<Row>, q: LogQuery) {
    var past := BeyondRow(d, q);
    var left := |Hits(past, table, |table|)| - q.offset;
    && |page.items| == (if left < 0 then 0 else if left < q.limit then left else q.limit)
    && (forall k {:trigger RowItemIs(c, past, table, q.offset, page.items, k)} :: 0 <= k < |page.items| ==>
          RowItemIs(c, past, table, q.offset, page.items, k))
    && page.limit == q.limit
    && page.nextCursor == (if |page.items| > 0 && left > q.limit then Some(page.items[|page.items| - 1].index) else None)
    && page.total == (if q.wantTotal then Some(|Hits(Matching(d, q), counted, |counted|)|) else None)
    && page.offset == (if q.offset > 0 then Some(q.offset) else None)
  }

  /** Row `i` belongs to this page, or is the one more that is fetched, and its record does not decode. */
  ghost predicate BadRow(c: Codec, past: Row -> bool, table: seq<Row>, offset: int, limit: int, i: nat) {
    && i < |table| && past(table[i]) && offset <= |Hits(past, table, i)| <= offset + limit
    && c.unmarshal(table[i].payload).None?
  }

  ghost predicate Undecodable(c: Codec, d: Dialect, table: seq<Row>, q: LogQuery) {
    exists i: nat :: BadRow(c, BeyondRow(d, q), table, q.offset, q.limit, i)
  }

  lemma FetchedByPosition(d: Dialect, table: seq<Row>, q: LogQuery)
    requires Bounded(q)
    ensures HitsFrom(BeyondRow(d, q), table, q.offset, q.limit + 1, Take(Rest(d, table, q), q.limit + 1))
  {
    var past := BeyondRow(d, q);
    FilterTwice(Matching(d, q), PastRow(q.after), past, table);
    HitsTaken(past, table, q.offset, q.limit + 1);
  }

  lemma {:induction false} DecodeFails(c: Codec, rows: seq<Row>) returns (k: nat)
    requires RowEntries(c, rows).None?
    ensures k < |rows| && c.unmarshal(rows[k].payload).None?
  {
    if RowEntries(c, rows[..|rows| - 1]).None? {
      k := DecodeFails(c, rows[..|rows| - 1]);
    } else {
      k := |rows| - 1;
    }
  }

  lemma DecodedItems(c: Codec, p: Row -> bool, table: seq<Row>, offset: int, limit: int, rows: seq<Row>, items: seq<Entry>)
    requires HitsFrom(p, table, offset, limit + 1, rows) && RowEntries(c, rows).Some? && limit > 0
    requires items == Take(RowEntries(c, rows).value, limit)
    ensures forall k {:trigger RowItemIs(c, p, table, offset, items, k)} :: 0 <= k < |items| ==> RowItemIs(c, p, table, offset, items, k)
  {
    forall k | 0 <= k < |items| ensures RowItemIs(c, p, table, offset, items, k) {
      assert ItemIs(p, table, offset, rows, k);
      var i: nat :| Nth(p, table, offset + k, i) && table[i] == rows[k];
      RowEntryAt(c, rows, k);
      RowEntryExactly(c, rows[k]);
    }
  }

  /** The same hit is at one position. */
  lemma NthUnique<T>(p: T -> bool, s: seq<T>, k: int, i: nat, j: nat)
    requires Nth(p, s, k, i) && Nth(p, s, k, j)
    ensures i == j
  {
    if i < j {
      HitsAscend(p, s, i, j);
    } else if j < i {
      HitsAscend(p, s, j, i);
    }
  }

  lemma {:induction false} HitsAscend<T>(p: T -> bool, s: seq<T>, i: nat, j: nat)
    requires i < j <= |s| && p(s[i])
    ensures |Hits(p, s, i)| < |Hits(p, s, j)|
  {
    HitsStep(p, s, j);
    if i + 1 < j {
      HitsAscend(p, s, i, j - 1);
    }
  }

  lemma BadRowFound(c: Codec, past: Row -> bool, table: seq<Row>, offset: int, limit: int, rows: seq<Row>) returns (i: nat)
    requires HitsFrom(past, table, offset, limit + 1, rows) && RowEntries(c, rows).None?
    ensures BadRow(c, past, table, offset, limit, i)
  {
    var k := DecodeFails(c, rows);
    assert ItemIs(past, table, offset, rows, k);
    i :| Nth(past, table, offset + k, i) && table[i] == rows[k];
  }

  lemma BadRowFails(c: Codec, past: Row -> bool, table: seq<Row>, offset: int, limit: int, rows: seq<Row>, i: nat)
    requires HitsFrom(past, table, offset, limit + 1, rows) && BadRow(c, past, table, offset, limit, i)
    ensures RowEntries(c, rows).None?
  {
    HitsAscend(past, table, i, |table|);
    var k := |Hits(past, table, i)| - offset;
    assert ItemIs(past, table, offset, rows, k);
    var j: nat :| Nth(past, table, offset + k, j) && table[j] == rows[k];
    NthUnique(past, table, offset + k, i, j);
    if RowEntries(c, rows).Some? {
      RowEntryAt(c, rows, k);
    }
  }

  lemma FailsIff(c: Codec, d: Dialect, table: seq<Row>, q: LogQuery)
    requires Bounded(q)
    ensures RowEntries(c, Take(Rest(d, table, q), q.limit + 1)).None? <==> Undecodable(c, d, table, q)
  {
    var rows, past := Take(Rest(d, table, q), q.limit + 1), BeyondRow(d, q);
    FetchedByPosition(d, table, q);
    if RowEntries(c, rows).None? {
      var i := BadRowFound(c, past, table, q.offset, q.limit, rows);
    } else if i: nat :| BadRow(c, past, table, q.offset, q.limit, i) {
      BadRowFails(c, past, table, q.offset, q.limit, rows, i);
    }
  }

  /** The page cut from fetched rows that decode. */
  lemma CutIsTablePage(c: Codec, d: Dialect, counted: seq<Row>, table: seq<Row>, q: LogQuery, rows: seq<Row>, fetched: seq<Entry>)
    requires Bounded(q) && HitsFrom(BeyondRow(d, q), table, q.offset, q.limit + 1, rows) && RowEntries(c, rows) == Some(fetched)
    ensures IsTablePage(c, d, Cut(fetched, |Filter(Matching(d, q), counted)|, q), counted, table, q)
  {
    DecodedItems(c, BeyondRow(d, q), table, q.offset, q.limit, rows, Take(fetched, q.limit));
    WholeIsPrefix(counted);
    FilterCounts(Matching(d, q), counted, |counted|);
  }

  lemma TablePageByPosition(c: Codec, d: Dialect, counted: seq<Row>, table: seq<Row>, q: LogQuery)
    requires Bounded(q)
    ensures var r := TableAnswer(c, d, counted, table, q);
            && (r.Err? <==> Undecodable(c, d, table, q))
            && (r.Ok? ==> IsTablePage(c, d, r.value, counted, table, q))
  {
    var rows := Take(Rest(d, table, q), q.limit + 1);
    FailsIff(c, d, table, q);
    FetchedByPosition(d, table, q);
    if RowEntries(c, rows).Some? {
      CutIsTablePage(c, d, counted, table, q, rows, RowEntries(c, rows).value);
    }
  }

  method ReadPage(c: Codec, d: Dialect, counted: seq<Row>, table: seq<Row>, q: LogQuery) returns (r: Result<Page>)
    requires Bounded(q)
    ensures r == TableAnswer(c, d, counted, table, q)
  {
    var total := None;
    if q.wantTotal {
      var n := CountRows(d, counted, q);
      total := Some(n);
    }
    var rows := FetchRows(d, table, q);
    var decoded := DecodeRows(c, rows);
    if decoded.None? {
      return Err(BAD_JSON);
    }
    var items := decoded.value;
    var nextCursor := None;
    if |items| > q.limit {
      items := items[..q.limit];
      nextCursor := Some(items[|items| - 1].index);
    }
    assert items == Take(decoded.value, q.limit);
    return Ok(Page(items, q.limit, nextCursor, total, if q.offset > 0 then Some(q.offset) else None));
  }

  /** The read, with what its answer holds by position. */
  method QueryTable(c: Codec, d: Dialect, counted: seq<Row>, table: seq<Row>, q: LogQuery) returns (r: Result<Page>)
    requires Bounded(q)
    ensures r == TableAnswer(c, d, counted, table, q)
    ensures r.Err? <==> Undecodable(c, d, table, q)
    ensures r.Ok? ==> IsTablePage(c, d, r.value, counted, table, q)
  {
    r := ReadPage(c, d, counted, table, q);
    TablePageByPosition(c, d, counted, table, q);
  }

  // ----- Both backends refine one specification -----

  lemma {:induction false} FilterDecoded(c: Codec, p: Entry -> bool, rp: Row -> bool, rows: seq<Row>, entries: seq<Entry>)
    requires RowEntries(c, rows) == Some(entries)
    requires forall i :: 0 <= i < |rows| ==> p(entries[i]) == rp(rows[i])
    ensures RowEntries(c, Filter(rp, rows)) == Some(Filter(p, entries))
  {
    if rows != [] {
      var n := |rows| - 1;
      FilterDecoded(c, p, rp, rows[..n], entries[..n]);
      if rp(rows[n]) {
        var kept := Filter(rp, rows[..n]);
        assert (kept + [rows[n]])[..|kept|] == kept;
      }
    }
  }

  lemma {:induction false} RowEntriesDrop(c: Codec, rows: seq<Row>, n: nat)
    requires RowEntries(c, rows).Some? && n <= |rows|
    ensures RowEntries(c, rows[n..]) == Some(RowEntries(c, rows).value[n..])
  {
    if n < |rows| {
      var last := |rows| - 1;
      RowEntriesDrop(c, rows[..last], n);
      assert rows[n..][..last - n] == rows[..last][n..] && rows[n..][last - n] == rows[last];
      var all := RowEntries(c, rows).value;
      assert all[..last] == RowEntries(c, rows[..last]).value;
      assert all[n..] == all[..last][n..] + [all[last]];
    } else {
      assert rows[n..] == [] && RowEntries(c, rows).value[n..] == [];
    }
  }

  /** The decoded rows of a table, with a predicate on entries that means what the query's SQL
      filters mean on rows. */
  predicate SameLog(c: Codec, d: Dialect, p: Entry -> bool, table: seq<Row>, entries: seq<Entry>, q: LogQuery) {
    && Keyed(table, q.after)
    && RowEntries(c, table) == Some(entries)
    && forall i :: 0 <= i < |table| ==> p(entries[i]) == RowMatches(d, q, table[i])
  }

  lemma RemainingDecoded(c: Codec, d: Dialect, p: Entry -> bool, table: seq<Row>, entries: seq<Entry>, q: LogQuery)
    requires Bounded(q) && SameLog(c, d, p, table, entries, q)
    ensures |Filter(Matching(d, q), table)| == |Filter(p, entries)|
    ensures var rows := Filter(PastRow(q.after), Filter(Matching(d, q), table));
            RowEntries(c, rows) == Some(Remaining(p, entries, q.after))
  {
    FilterKeyed(Matching(d, q), table, q.after);
    FilterDecoded(c, p, Matching(d, q), table, entries);
    var rows, kept := Filter(Matching(d, q), table), Filter(p, entries);
    forall i | 0 <= i < |rows| ensures Past(q.after)(kept[i]) == PastRow(q.after)(rows[i]) {
      RowEntryAt(c, rows, i);
    }
    FilterDecoded(c, Past(q.after), PastRow(q.after), rows, kept);
    RemainingIsFiltered(p, entries, q.after);
  }

  lemma FetchedDecoded(c: Codec, rows: seq<Row>, rem: seq<Entry>, q: LogQuery)
    requires Bounded(q) && RowEntries(c, rows) == Some(rem)
    ensures var fetched := Take(Drop(rows, q.offset), q.limit + 1);
            RowEntries(c, fetched) == Some(Take(Drop(rem, q.offset), q.limit + 1))
  {
    var rest := Drop(rows, q.offset);
    if q.offset <= |rows| {
      RowEntriesDrop(c, rows, q.offset);
    }
    if q.limit + 1 <= |rest| {
      RowEntriesPrefix(c, rest, q.limit + 1);
    }
  }

  /** The limit + 1 read of a decodable table answers with the specified page. */
  lemma TableRefines(c: Codec, d: Dialect, p: Entry -> bool, table: seq<Row>, entries: seq<Entry>, q: LogQuery)
    requires Bounded(q) && SameLog(c, d, p, table, entries, q)
    ensures TableAnswer(c, d, table, table, q) == Ok(PageOf(p, entries, q))
  {
    var rest, n := Drop(Remaining(p, entries, q.after), q.offset), |Filter(p, entries)|;
    AnswerIsCut(c, d, p, table, entries, q);
    CutNeedsOneMore(rest, Take(rest, q.limit + 1), n, n, q);
  }

  lemma AnswerIsCut(c: Codec, d: Dialect, p: Entry -> bool, table: seq<Row>, entries: seq<Entry>, q: LogQuery)
    requires Bounded(q) && SameLog(c, d, p, table, entries, q)
    ensures TableAnswer(c, d, table, table, q)
            == Ok(Cut(Take(Drop(Remaining(p, entries, q.after), q.offset), q.limit + 1), |Filter(p, entries)|, q))
  {
    RestDecoded(c, d, p, table, entries, q);
    AnswerFor(c, d, table, q, Take(Drop(Remaining(p, entries, q.after), q.offset), q.limit + 1), |Filter(p, entries)|);
  }

  lemma RestDecoded(c: Codec, d: Dialect, p: Entry -> bool, table: seq<Row>, entries: seq<Entry>, q: LogQuery)
    requires Bounded(q) && SameLog(c, d, p, table, entries, q)
    ensures |Filter(Matching(d, q), table)| == |Filter(p, entries)|
    ensures RowEntries(c, Take(Rest(d, table, q), q.limit + 1))
            == Some(Take(Drop(Remaining(p, entries, q.after), q.offset), q.limit + 1))
  {
    RemainingDecoded(c, d, p, table, entries, q);
    FetchedDecoded(c, Filter(PastRow(q.after), Filter(Matching(d, q), table)), Remaining(p, entries, q.after), q);
  }

  lemma AnswerFor(c: Codec, d: Dialect, table: seq<Row>, q: LogQuery, fetched: seq<Entry>, matches: nat)
    requires Bounded(q) && |Filter(Matching(d, q), table)| == matches
    requires RowEntries(c, Take(Rest(d, table, q), q.limit + 1)) == Some(fetched)
    ensures TableAnswer(c, d, table, table, q) == Ok(Cut(fetched, matches, q))
  {
  }

  /** So the same query over the same log gives the same answer, cursor and total included, from
      either backend, for any predicate the two agree on. */
  method QueryBoth(c: Codec, d: Dialect, p: Entry -> bool, lines: seq<string>, table: seq<Row>, q: LogQuery)
      returns (fromFile: Result<Page>, fromTable: Result<Page>)
    requires Bounded(q) && ReadEntries(c, lines).clean
    requires SameLog(c, d, p, table, ReadEntries(c, lines).entries, q)
    ensures fromFile == fromTable == Ok(PageOf(p, ReadEntries(c, lines).entries, q))
    ensures IsPageOf(fromFile.value, p, ReadEntries(c, lines).entries, q)
  {
    fromFile := ScanFile(c, p, lines, q);
    fromTable := QueryTable(c, d, table, table, q);
    TableRefines(c, d, p, table, ReadEntries(c, lines).entries, q);
  }
}
