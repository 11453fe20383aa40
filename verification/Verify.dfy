/** The two chain verifiers, FileStore.verifyChainUnsafe and PostgresStore.Verify
    (cmd/server/main.go), against one declarative description of their verdict. */
module Verify {
  import opened Strings
  import opened Chain
  import opened Positions

  /** Arbitrary JSON metadata; only its presence and its marshalled text matter to the server. */
  datatype Metadata = NoMetadata | Metadata(fields: map<string, string>)

  datatype LogRecord = LogRecord(clientId: string, app: string, level: string, message: string, metadata: Metadata)

  datatype Entry = Entry(index: nat, timestamp: string, prevHash: string,
                         payloadHash: string, entryHash: string, record: LogRecord)

  /** What trimming and decoding one line of the log file yields. */
  datatype Line = Blank | Garbled | Parsed(entry: Entry)

  /** encoding/json as the store uses it: arbitrary functions, with the needed laws stated where
      they are needed. */
  datatype Codec = Codec(marshal: LogRecord -> Option<string>, unmarshal: string -> Option<LogRecord>,
                         writeLine: Entry -> Option<string>, readLine: string -> Line)

  const BAD_JSON := "invalid JSON line"
  const BAD_PAYLOAD := "payload marshal failed"
  const BAD_INDEX := "index sequence broken"
  const BAD_PREV := "previous hash mismatch"
  const BAD_PAYLOAD_HASH := "payload hash mismatch"
  const BAD_ENTRY_HASH := "entry hash mismatch"

  datatype VerifyResult = VerifyResult(valid: bool, total: nat, lastHash: string,
                                       invalidAt: Option<nat>, reason: Option<string>)

  /** The row of a decoded entry: its header with its record marshalled again. */
  function EntryRow(c: Codec, e: Entry): Option<Row> {
    match c.marshal(e.record)
    case None => None
    case Some(p) => Some(Row(e.index, e.timestamp, e.prevHash, e.payloadHash, e.entryHash, p))
  }

  /** How reading a log file ends: at its end, or at a line no row can be made of. */
  datatype Reading = Reading(rows: seq<Row>, stop: Option<string>)

  /** The rows of a file up to the first line that is not JSON or whose record cannot be
      marshalled again; blank lines are skipped. */
  function ReadRows(c: Codec, lines: seq<string>): Reading {
    if lines == [] then Reading([], None) else
    var sofar := ReadRows(c, lines[..|lines| - 1]);
    if sofar.stop.Some? then sofar else
    match c.readLine(lines[|lines| - 1])
    case Blank => sofar
    case Garbled => Reading(sofar.rows, Some(BAD_JSON))
    case Parsed(e) =>
      match EntryRow(c, e)
      case None => Reading(sofar.rows, Some(BAD_PAYLOAD))
      case Some(row) => Reading(sofar.rows + [row], None)
  }

  /** What a line is good for: a row, nothing, or the reason to stop. */
  predicate HoldsRow(c: Codec, line: string) { c.readLine(line).Parsed? && c.marshal(c.readLine(line).entry.record).Some? }

  predicate Skipped(c: Codec, line: string) { c.readLine(line).Blank? }

  /** Line hit number `k` decodes to an entry with this row's header and a record that marshals to its
      payload. */
  ghost predicate RowOfLine(c: Codec, lines: seq<string>, end: nat, k: int, row: Row)
    requires end <= |lines|
  {
    exists i: nat :: i < end && Nth(line => HoldsRow(c, line), lines, k, i) &&
      var e := c.readLine(lines[i]).entry;
      && row.index == e.index && row.timestamp == e.timestamp && row.prevHash == e.prevHash
      && row.payloadHash == e.payloadHash && row.entryHash == e.entryHash && c.marshal(e.record) == Some(row.payload)
  }

  /** These are the rows of the lines before `end`, one for each that is not blank. */
  ghost predicate RowsOfLines(c: Codec, lines: seq<string>, end: nat, rows: seq<Row>) {
    && end <= |lines| && (forall i :: 0 <= i < end ==> HoldsRow(c, lines[i]) || Skipped(c, lines[i]))
    && |rows| == |Hits(line => HoldsRow(c, line), lines, end)|
    && forall k {:trigger RowOfLine(c, lines, end, k, rows[k])} :: 0 <= k < |rows| ==> RowOfLine(c, lines, end, k, rows[k])
  }

  /** A file line by line: every line that is not blank gives its row, up to the first that is not JSON or
      whose record does not marshal, and the reading says which of the two it was. */
  lemma ReadRowsByLine(c: Codec, lines: seq<string>) returns (end: nat)
    ensures RowsOfLines(c, lines, end, ReadRows(c, lines).rows)
    ensures if end == |lines| then ReadRows(c, lines).stop.None? else
              ReadRows(c, lines).stop == Some(if c.readLine(lines[end]).Garbled? then "invalid JSON line" else "payload marshal failed")
              && !HoldsRow(c, lines[end]) && !Skipped(c, lines[end])
  {
    end := 0;
    assert RowsOfLines(c, lines, 0, ReadRows(c, lines[..0]).rows);
    while end < |lines| && (HoldsRow(c, lines[end]) || Skipped(c, lines[end]))
      invariant end <= |lines| && ReadRows(c, lines[..end]).stop.None?
      invariant RowsOfLines(c, lines, end, ReadRows(c, lines[..end]).rows)
    {
      RowRead(c, lines, end);
      end := end + 1;
    }
    if end < |lines| {
      assert lines[..end + 1][..end] == lines[..end];
      ReadRowsStops(c, lines, end + 1);
    } else {
      assert lines[..end] == lines;
    }
  }

  lemma RowRead(c: Codec, lines: seq<string>, end: nat)
    requires end < |lines| && (HoldsRow(c, lines[end]) || Skipped(c, lines[end])) && ReadRows(c, lines[..end]).stop.None?
    requires RowsOfLines(c, lines, end, ReadRows(c, lines[..end]).rows)
    ensures ReadRows(c, lines[..end + 1]).stop.None? && RowsOfLines(c, lines, end + 1, ReadRows(c, lines[..end + 1]).rows)
  {
    var before, after := ReadRows(c, lines[..end]).rows, ReadRows(c, lines[..end + 1]).rows;
    assert lines[..end + 1][..end] == lines[..end];
    HitsStep(line => HoldsRow(c, line), lines, end + 1);
    forall k | 0 <= k < |after| ensures RowOfLine(c, lines, end + 1, k, after[k]) {
      if k < |before| {
        assert RowOfLine(c, lines, end, k, before[k]);
      } else {
        assert Nth(line => HoldsRow(c, line), lines, k, end);
      }
    }
  }

  /** Once stopped, a reading stays where it is however the file goes on. */
  lemma {:induction false} ReadRowsStops(c: Codec, lines: seq<string>, n: nat)
    requires n <= |lines| && ReadRows(c, lines[..n]).stop.Some?
    ensures ReadRows(c, lines) == ReadRows(c, lines[..n])
  {
    if n == |lines| {
      assert lines[..n] == lines;
    } else {
      assert lines[..|lines| - 1][..n] == lines[..n];
      ReadRowsStops(c, lines[..|lines| - 1], n);
    }
  }

  lemma {:induction false} ReadRowsGrows(c: Codec, lines: seq<string>, n: nat)
    requires n <= |lines|
    ensures ReadRows(c, lines[..n]).rows <= ReadRows(c, lines).rows
  {
    if n == |lines| {
      assert lines[..n] == lines;
    } else {
      assert lines[..|lines| - 1][..n] == lines[..n];
      ReadRowsGrows(c, lines[..|lines| - 1], n);
    }
  }

  /** What line `i` adds, when the lines before it gave the first `n` rows of the file. */
  lemma NextRead(c: Codec, lines: seq<string>, i: nat, n: nat)
    requires i < |lines| && n <= |ReadRows(c, lines).rows|
    requires ReadRows(c, lines[..i]) == Reading(ReadRows(c, lines).rows[..n], None)
    ensures var all := ReadRows(c, lines);
            match c.readLine(lines[i])
            case Blank => ReadRows(c, lines[..i + 1]) == Reading(all.rows[..n], None)
            case Garbled => all == Reading(all.rows[..n], Some(BAD_JSON))
            case Parsed(e) =>
              match EntryRow(c, e)
              case None => all == Reading(all.rows[..n], Some(BAD_PAYLOAD))
              case Some(row) => n < |all.rows| && all.rows[n] == row && ReadRows(c, lines[..i + 1]) == Reading(all.rows[..n + 1], None)
  {
    assert lines[..i + 1][..i] == lines[..i] && lines[..i + 1][i] == lines[i];
    ReadRowsGrows(c, lines, i + 1);
    var all, more := ReadRows(c, lines), ReadRows(c, lines[..i + 1]);
    if more.stop.Some? {
      ReadRowsStops(c, lines, i + 1);
    } else if |more.rows| > n {
      assert more.rows[n] == all.rows[n] && all.rows[..n + 1] == more.rows;
    }
  }

  /** The first check that `row` fails as entry number `index` after `prevHash`. */
  function Fault(h: Hash, index: nat, prevHash: string, row: Row): Option<string> {
    if row.index != index then Some(BAD_INDEX)
    else if row.prevHash != prevHash then Some(BAD_PREV)
    else if row.payloadHash != h(row.payload) then Some(BAD_PAYLOAD_HASH)
    else if row.entryHash != h(Preimage(row.index, row.timestamp, h(row.payload), row.prevHash)) then Some(BAD_ENTRY_HASH)
    else None
  }

  /** The verdict on rows that end at `stop`: the longest valid prefix, its head, and what is wrong
      with whatever comes next. */
  predicate Verdict(h: Hash, input: Reading, r: VerifyResult) {
    var rows := input.rows;
    && r.total <= |rows|
    && ValidChain(h, rows[..r.total])
    && r.lastHash == Head(rows[..r.total])
    && r.valid == (r.total == |rows| && input.stop.None?)
    && r.invalidAt == (if r.valid then None else Some(r.total + 1))
    && r.reason == (if r.total < |rows| then Fault(h, r.total + 1, r.lastHash, rows[r.total]) else input.stop)
    && (r.total < |rows| ==> !ValidChain(h, rows[..r.total + 1]))
  }

  /** No longer prefix than the reported one is valid. */
  lemma VerdictLongest(h: Hash, input: Reading, r: VerifyResult, n: nat)
    requires Verdict(h, input, r)
    requires n <= |input.rows| && ValidChain(h, input.rows[..n])
    ensures n <= r.total
  {
    if r.total < n {
      assert input.rows[..n][..r.total + 1] == input.rows[..r.total + 1];
      ValidPrefix(h, input.rows[..n], r.total + 1);
    }
  }

  /** There is exactly one verdict. */
  lemma VerdictUnique(h: Hash, input: Reading, r: VerifyResult, r': VerifyResult)
    requires Verdict(h, input, r) && Verdict(h, input, r')
    ensures r == r'
  {
    VerdictLongest(h, input, r, r'.total);
    VerdictLongest(h, input, r', r.total);
  }

  /** The verdict is "valid" exactly for readable, valid chains, and then reports count and head. */
  lemma VerdictOnValid(h: Hash, input: Reading, r: VerifyResult)
    requires Verdict(h, input, r)
    ensures r.valid <==> input.stop.None? && ValidChain(h, input.rows)
    ensures r.valid ==> r == VerifyResult(true, |input.rows|, Head(input.rows), None, None)
    ensures !r.valid ==> r.reason.Some?
  {
    assert input.rows[..|input.rows|] == input.rows;
    if r.total < |input.rows| {
      if ValidChain(h, input.rows) {
        ValidPrefix(h, input.rows, r.total + 1);
      }
      assert input.rows[..r.total + 1] == input.rows[..r.total] + [input.rows[r.total]];
      ValidSnoc(h, input.rows[..r.total], input.rows[r.total]);
    }
  }

  /** Tamper evidence as an operator uses it: a log whose verdict repeats a recorded count and head
      is the recorded log, or contains a SHA-256 collision with it. */
  lemma VerdictPinsLog(h: Hash, recorded: Reading, now: Reading, r: VerifyResult, r': VerifyResult)
      returns (x: string, y: string)
    requires Verdict(h, recorded, r) && r.valid
    requires Verdict(h, now, r') && r'.valid && r'.lastHash == r.lastHash
    ensures now.rows == recorded.rows || (Collision(h, x, y) && Fed(recorded.rows, x) && Fed(now.rows, y))
  {
    VerdictOnValid(h, recorded, r);
    VerdictOnValid(h, now, r');
    x, y := HeadCommits(h, recorded.rows, now.rows);
  }

  /** The reason names the first field, in this order, that is not what the chain needs there. */
  lemma VerdictReason(h: Hash, input: Reading, r: VerifyResult)
    requires Verdict(h, input, r) && !r.valid
    ensures r.invalidAt == Some(r.total + 1)
    ensures r.total == |input.rows| ==> r.reason == input.stop
    ensures r.total < |input.rows| ==>
              var row := input.rows[r.total];
              var payloadHash := h(row.payload);
              r.reason == Some(
                if row.index != r.total + 1 then "index sequence broken"
                else if row.prevHash != Head(input.rows[..r.total]) then "previous hash mismatch"
                else if row.payloadHash != payloadHash then "payload hash mismatch"
                else "entry hash mismatch")
              && (r.reason == Some("entry hash mismatch") ==>
                    row.entryHash != h(Preimage(r.total + 1, row.timestamp, payloadHash, row.prevHash)))
  {
    if r.total < |input.rows| {
      VerdictStep(h, input.rows, r.total);
    }
  }

  /** One more row: the step of both verifier loops. */
  lemma VerdictStep(h: Hash, rows: seq<Row>, n: nat)
    requires n < |rows| && ValidChain(h, rows[..n])
    ensures ValidChain(h, rows[..n + 1]) <==> Fault(h, n + 1, Head(rows[..n]), rows[n]).None?
  {
    assert rows[..n + 1][..n] == rows[..n] && rows[..n + 1][n] == rows[n];
  }

  function Invalid(total: nat, lastHash: string, at: nat, reason: string): VerifyResult {
    VerifyResult(false, total, lastHash, Some(at), Some(reason))
  }

  /** The four checks that both loops make of an entry, in order. */
  method Check(h: Hash, expectedIndex: nat, previousHash: string, row: Row) returns (reason: Option<string>)
    requires row.index >= 0
    ensures reason == Fault(h, expectedIndex, previousHash, row)
  {
    var expectedPayloadHash := h(row.payload);
    var expectedEntryHash := h(Preimage(row.index, row.timestamp, expectedPayloadHash, row.prevHash));
    if row.index != expectedIndex {
      return Some(BAD_INDEX);
    }
    if row.prevHash != previousHash {
      return Some(BAD_PREV);
    }
    if row.payloadHash != expectedPayloadHash {
      return Some(BAD_PAYLOAD_HASH);
    }
    if row.entryHash != expectedEntryHash {
      return Some(BAD_ENTRY_HASH);
    }
    return None;
  }

  /** The first `i` lines gave `total` rows, a valid chain with this head. */
  predicate VerifiedSoFar(h: Hash, c: Codec, lines: seq<string>, i: nat, total: nat, previousHash: string)
    requires i <= |lines|
  {
    var all := ReadRows(c, lines);
    && total <= |all.rows| && ReadRows(c, lines[..i]) == Reading(all.rows[..total], None)
    && ValidChain(h, all.rows[..total]) && previousHash == Head(all.rows[..total])
  }

  /** What one more line comes to. */
  lemma VerifyLine(h: Hash, c: Codec, lines: seq<string>, i: nat, total: nat, previousHash: string)
    requires i < |lines| && VerifiedSoFar(h, c, lines, i, total, previousHash)
    ensures match c.readLine(lines[i])
            case Blank => VerifiedSoFar(h, c, lines, i + 1, total, previousHash)
            case Garbled => Verdict(h, ReadRows(c, lines), Invalid(total, previousHash, total + 1, BAD_JSON))
            case Parsed(e) =>
              match EntryRow(c, e)
              case None => Verdict(h, ReadRows(c, lines), Invalid(total, previousHash, total + 1, BAD_PAYLOAD))
              case Some(row) =>
                match Fault(h, total + 1, previousHash, row)
                case None => VerifiedSoFar(h, c, lines, i + 1, total + 1, row.entryHash)
                case Some(reason) => Verdict(h, ReadRows(c, lines), Invalid(total, previousHash, total + 1, reason))
  {
    NextRead(c, lines, i, total);
    match c.readLine(lines[i])
    case Blank =>
    case Garbled => ReadingStops(h, ReadRows(c, lines), total, previousHash, BAD_JSON);
    case Parsed(e) =>
      match EntryRow(c, e) {
        case None => ReadingStops(h, ReadRows(c, lines), total, previousHash, BAD_PAYLOAD);
        case Some(row) => RowVerified(h, ReadRows(c, lines), total, previousHash, row);
      }
  }

  lemma ReadingStops(h: Hash, all: Reading, total: nat, previousHash: string, reason: string)
    requires total <= |all.rows| && all == Reading(all.rows[..total], Some(reason))
    requires ValidChain(h, all.rows[..total]) && previousHash == Head(all.rows[..total])
    ensures Verdict(h, all, Invalid(total, previousHash, total + 1, reason))
  {
    assert |all.rows| == total;
  }

  lemma RowVerified(h: Hash, all: Reading, total: nat, previousHash: string, row: Row)
    requires total < |all.rows| && all.rows[total] == row
    requires ValidChain(h, all.rows[..total]) && previousHash == Head(all.rows[..total])
    ensures match Fault(h, total + 1, previousHash, row)
            case None => ValidChain(h, all.rows[..total + 1]) && row.entryHash == Head(all.rows[..total + 1])
            case Some(reason) => Verdict(h, all, Invalid(total, previousHash, total + 1, reason))
  {
    VerdictStep(h, all.rows, total);
  }

  lemma VerifiedAll(h: Hash, c: Codec, lines: seq<string>, total: nat, previousHash: string)
    requires VerifiedSoFar(h, c, lines, |lines|, total, previousHash)
    ensures Verdict(h, ReadRows(c, lines), VerifyResult(true, total, previousHash, None, None))
  {
    assert lines[..|lines|] == lines;
  }

  method VerifyFile(h: Hash, c: Codec, lines: seq<string>) returns (r: VerifyResult)
    ensures Verdict(h, ReadRows(c, lines), r)
  {
    var expectedIndex, previousHash, total := 1, GENESIS, 0;
    var i := 0;
    while i < |lines|
      invariant 0 <= i <= |lines| && expectedIndex == total + 1
      invariant VerifiedSoFar(h, c, lines, i, total, previousHash)
    {
      var line := c.readLine(lines[i]);
      VerifyLine(h, c, lines, i, total, previousHash);
      i := i + 1;
      if line.Blank? {
        continue;
      }
      if line.Garbled? {
        return Invalid(total, previousHash, expectedIndex, BAD_JSON);
      }
      var entry := line.entry;
      var payload := c.marshal(entry.record);
      if payload.None? {
        return Invalid(total, previousHash, expectedIndex, BAD_PAYLOAD);
      }
      var row := Row(entry.index, entry.timestamp, entry.prevHash, entry.payloadHash, entry.entryHash, payload.value);
      var reason := Check(h, expectedIndex, previousHash, row);
      if reason.Some? {
        return Invalid(total, previousHash, expectedIndex, reason.value);
      }
      total, expectedIndex, previousHash := total + 1, expectedIndex + 1, entry.entryHash;
    }
    VerifiedAll(h, c, lines, total, previousHash);
    return VerifyResult(true, total, previousHash, None, None);
  }

  /** PostgreSQL rows are text already, so nothing can stop the reading; an index may be zero or
      negative there, which is reported before it is converted. */
  method VerifyRows(h: Hash, rows: seq<Row>) returns (r: VerifyResult)
    ensures Verdict(h, Reading(rows, None), r)
  {
    var expectedIndex, previousHash, total := 1, GENESIS, 0;
    while total < |rows|
      invariant 0 <= total <= |rows| && expectedIndex == total + 1
      invariant ValidChain(h, rows[..total]) && previousHash == Head(rows[..total])
    {
      var row := rows[total];
      VerdictStep(h, rows, total);
      if row.index <= 0 {
        return Invalid(total, previousHash, expectedIndex, BAD_INDEX);
      }
      var reason := Check(h, expectedIndex, previousHash, row);
      if reason.Some? {
        return Invalid(total, previousHash, expectedIndex, reason.value);
      }
      total, expectedIndex, previousHash := total + 1, expectedIndex + 1, row.entryHash;
    }
    assert rows[..total] == rows;
    return VerifyResult(true, total, previousHash, None, None);
  }

  /** The two backends give one verdict, reason included, on a file whose lines all read back to
      the table's rows. */
  method VerifyBoth(h: Hash, c: Codec, lines: seq<string>, rows: seq<Row>) returns (file: VerifyResult, table: VerifyResult)
    requires ReadRows(c, lines) == Reading(rows, None)
    ensures file == table
  {
    file := VerifyFile(h, c, lines);
    table := VerifyRows(h, rows);
    VerdictUnique(h, Reading(rows, None), file, table);
  }
}
