/** The file backend's mutable store: its head in memory against the chain on disk, through appends,
    failed writes and restarts (FileStore in cmd/server/main.go). */
module FileStore {
  import opened Strings
  import opened Codecs
  import opened Chain
  import opened Verify
  import opened Paging

  /** The file, one string per line, and the head kept in memory. */
  datatype Store = Store(lines: seq<string>, lastIndex: nat, lastHash: string)

  /** The memory agrees with what verifying the file would report. */
  predicate Consistent(h: Hash, c: Codec, s: Store) {
    var file := ReadRows(c, s.lines);
    file.stop.None? && ValidChain(h, file.rows) && s.lastIndex == |file.rows| && s.lastHash == Head(file.rows)
  }

  /** encoding/json reads back what it wrote: the same header, and a record that marshals to the
      same text (decoding may change the record's representation, for instance of empty metadata). */
  predicate ReadsBack(c: Codec, e: Entry) {
    c.writeLine(e).Some? ==>
      var line := c.readLine(c.writeLine(e).value);
      line.Parsed? && EntryRow(c, line.entry) == EntryRow(c, e)
  }

  /** So it does for every entry with this record whose index is a uint64. */
  ghost predicate Stable(c: Codec, record: LogRecord) {
    forall e: Entry :: e.record == record && e.index <= MAX_UINT64 ==> ReadsBack(c, e)
  }

  /** The entry Append builds on the head (lastIndex, lastHash); None when the record does not marshal. */
  function NewEntry(h: Hash, c: Codec, lastIndex: nat, lastHash: string, record: LogRecord, timestamp: string): Option<Entry> {
    match c.marshal(record)
    case None => None
    case Some(payload) =>
      var payloadHash := h(payload);
      var entryHash := h(Preimage(lastIndex + 1, timestamp, payloadHash, lastHash));
      Some(Entry(lastIndex + 1, timestamp, lastHash, payloadHash, entryHash, record))
  }

  /** Append's whole effect; `written` says whether the operating system accepted the line. */
  function AfterAppend(h: Hash, c: Codec, s: Store, record: LogRecord, timestamp: string, written: bool): Store {
    var e := NewEntry(h, c, s.lastIndex, s.lastHash, record, timestamp);
    if e.None? || c.writeLine(e.value).None? || !written then s
    else Store(s.lines + [c.writeLine(e.value).value], e.value.index, e.value.entryHash)
  }

  /** `e` is an entry on top of this head: numbered one higher and linked to it, with this record, this
      time, and the hashes of both. */
  predicate BuiltOn(h: Hash, c: Codec, lastIndex: nat, lastHash: string, record: LogRecord, timestamp: string, e: Entry) {
    && e.index == lastIndex + 1 && e.prevHash == lastHash && e.record == record && e.timestamp == timestamp
    && c.marshal(record).Some? && e.payloadHash == h(c.marshal(record).value)
    && e.entryHash == h(Preimage(lastIndex + 1, timestamp, h(c.marshal(record).value), lastHash))
  }

  /** An append is accepted if the record and its entry marshal and the line is written. */
  predicate Accepted(h: Hash, c: Codec, s: Store, record: LogRecord, timestamp: string, written: bool) {
    && written && c.marshal(record).Some?
    && var payloadHash := h(c.marshal(record).value);
    c.writeLine(Entry(s.lastIndex + 1, timestamp, s.lastHash, payloadHash,
                      h(Preimage(s.lastIndex + 1, timestamp, payloadHash, s.lastHash)), record)).Some?
  }

  /** An accepted append adds the line of the entry on top of the head, which becomes the head; a refused
      one changes nothing. */
  lemma AppendsOneLine(h: Hash, c: Codec, s: Store, record: LogRecord, timestamp: string, written: bool) returns (e: Entry)
    ensures var s' := AfterAppend(h, c, s, record, timestamp, written);
            if Accepted(h, c, s, record, timestamp, written) then
              && BuiltOn(h, c, s.lastIndex, s.lastHash, record, timestamp, e) && c.writeLine(e).Some?
              && s' == Store(s.lines + [c.writeLine(e).value], s.lastIndex + 1, e.entryHash) != s
            else s' == s
  {
    if c.marshal(record).Some? {
      e := NewEntry(h, c, s.lastIndex, s.lastHash, record, timestamp).value;
    } else {
      e := Entry(0, "", "", "", "", record);
    }
  }

  lemma LineGivesRow(c: Codec, lines: seq<string>, e: Entry)
    requires Stable(c, e.record) && e.index <= MAX_UINT64 && c.writeLine(e).Some? && EntryRow(c, e).Some? && ReadRows(c, lines).stop.None?
    ensures ReadRows(c, lines + [c.writeLine(e).value]) == Reading(ReadRows(c, lines).rows + [EntryRow(c, e).value], None)
  {
    assert ReadsBack(c, e);
    assert (lines + [c.writeLine(e).value])[..|lines|] == lines;
  }

  /** The appended line adds exactly the next row of the chain. */
  lemma AppendExtends(h: Hash, c: Codec, s: Store, record: LogRecord, timestamp: string, written: bool)
    requires Consistent(h, c, s) && Stable(c, record) && s.lastIndex < MAX_UINT64
    ensures var s' := AfterAppend(h, c, s, record, timestamp, written);
            && Consistent(h, c, s') && s'.lastIndex <= s.lastIndex + 1
            && (s' == s <==> !Accepted(h, c, s, record, timestamp, written))
            && (s' == s || (c.marshal(record).Some? &&
                            var rows := ReadRows(c, s.lines).rows;
                            ReadRows(c, s'.lines).rows == rows + [NextRow(h, rows, timestamp, c.marshal(record).value)]))
  {
    var s' := AfterAppend(h, c, s, record, timestamp, written);
    var _ := AppendsOneLine(h, c, s, record, timestamp, written);
    if s' != s {
      var e := NewEntry(h, c, s.lastIndex, s.lastHash, record, timestamp).value;
      LineGivesRow(c, s.lines, e);
      var rows := ReadRows(c, s.lines).rows;
      ValidSnoc(h, rows, NextRow(h, rows, timestamp, c.marshal(record).value));
    }
  }

  // ----- Runs of appends and restarts -----

  datatype Op = Append(record: LogRecord, timestamp: string, written: bool) | Reopen

  /** Reopening verifies the file and adopts the reported count and head; an invalid file is refused
      and the store stays down. */
  function Reopened(h: Hash, c: Codec, lines: seq<string>): Option<Store> {
    var file := ReadRows(c, lines);
    if file.stop.None? && ValidChain(h, file.rows) then Some(Store(lines, |file.rows|, Head(file.rows))) else None
  }

  function Run(h: Hash, c: Codec, s: Store, ops: seq<Op>): Option<Store> {
    if ops == [] then Some(s) else
    match Run(h, c, s, ops[..|ops| - 1])
    case None => None
    case Some(s') =>
      match ops[|ops| - 1]
      case Append(record, timestamp, written) => Some(AfterAppend(h, c, s', record, timestamp, written))
      case Reopen => Reopened(h, c, s'.lines)
  }

  function WithoutReopens(ops: seq<Op>): seq<Op> {
    if ops == [] then [] else
    var init := WithoutReopens(ops[..|ops| - 1]);
    if ops[|ops| - 1].Reopen? then init else init + [ops[|ops| - 1]]
  }

  /** In any run of appends and restarts, the memory equals the verifier's report on the file, no
      restart is refused, and the restarts leave no trace: the same appends without them end in the
      same file and the same head, so the chain continues across them. */
  lemma {:induction false} RestartsAreInvisible(h: Hash, c: Codec, s: Store, ops: seq<Op>)
    requires Consistent(h, c, s) && s.lastIndex + |ops| <= MAX_UINT64
    requires forall i :: 0 <= i < |ops| && ops[i].Append? ==> Stable(c, ops[i].record)
    ensures var s' := Run(h, c, s, ops);
            && s'.Some? && Consistent(h, c, s'.value) && s' == Run(h, c, s, WithoutReopens(ops))
            && s'.value.lastIndex <= s.lastIndex + |ops|
  {
    if ops != [] {
      var init, op := ops[..|ops| - 1], ops[|ops| - 1];
      RestartsAreInvisible(h, c, s, init);
      var mid := Run(h, c, s, init).value;
      if op.Append? {
        AppendExtends(h, c, mid, op.record, op.timestamp, op.written);
        var kept := WithoutReopens(init);
        assert (kept + [op])[..|kept|] == kept;
      }
    }
  }

  /** Consistency, said with the verifier: it reports valid with the in-memory count and head. */
  lemma VerifierSeesTheHead(h: Hash, c: Codec, s: Store, r: VerifyResult)
    requires Verdict(h, ReadRows(c, s.lines), r)
    ensures Consistent(h, c, s) <==> r == VerifyResult(true, s.lastIndex, s.lastHash, None, None)
  {
    VerdictOnValid(h, ReadRows(c, s.lines), r);
  }

  // ----- The object -----

  class FileLog {
    const h: Hash
    const c: Codec
    var lines: seq<string>
    var lastIndex: nat
    var lastHash: string

    function State(): Store
      reads this
    {
      Store(lines, lastIndex, lastHash)
    }

    predicate Valid()
      reads this
    {
      Consistent(h, c, State())
    }

    constructor (h: Hash, c: Codec, lines: seq<string>)
      ensures this.h == h && this.c == c && State() == Store(lines, 0, GENESIS)
    {
      this.h, this.c, this.lines := h, c, lines;
      lastIndex, lastHash := 0, GENESIS;
    }

    /** NewFileStore on an existing file; null is the refusal to start. */
    static method Open(h: Hash, c: Codec, lines: seq<string>) returns (store: FileLog?)
      ensures store == null <==> Reopened(h, c, lines).None?
      ensures store != null ==> fresh(store) && store.h == h && store.c == c && store.Valid()
      ensures store != null ==> Some(store.State()) == Reopened(h, c, lines)
    {
      var s := new FileLog(h, c, lines);
      var verify := VerifyFile(h, c, lines);
      VerdictOnValid(h, ReadRows(c, lines), verify);
      if !verify.valid {
        return null;
      }
      s.lastHash := verify.lastHash;
      s.lastIndex := verify.total;
      return s;
    }

    method Append(record: LogRecord, timestamp: string, written: bool) returns (r: Result<Entry>)
      modifies this
      ensures State() == AfterAppend(h, c, old(State()), record, timestamp, written)
      ensures old(Valid()) && Stable(c, record) && old(lastIndex) < MAX_UINT64 ==> Valid()
      ensures r.Err? ==> State() == old(State())
      ensures r.Ok? <==> Accepted(h, c, old(State()), record, timestamp, written)
      ensures r.Ok? ==> BuiltOn(h, c, old(lastIndex), old(lastHash), record, timestamp, r.value)
                        && c.writeLine(r.value).Some? && lines == old(lines) + [c.writeLine(r.value).value]
                        && lastIndex == r.value.index && lastHash == r.value.entryHash
    {
      r := AppendLine(record, timestamp, written);
      if old(Valid()) && Stable(c, record) && old(lastIndex) < MAX_UINT64 {
        AppendExtends(h, c, old(State()), record, timestamp, written);
      }
    }

    method AppendLine(record: LogRecord, timestamp: string, written: bool) returns (r: Result<Entry>)
      modifies this
      ensures State() == AfterAppend(h, c, old(State()), record, timestamp, written)
      ensures r.Err? ==> State() == old(State())
      ensures r.Ok? <==> Accepted(h, c, old(State()), record, timestamp, written)
      ensures r.Ok? ==> BuiltOn(h, c, old(lastIndex), old(lastHash), record, timestamp, r.value)
                        && c.writeLine(r.value).Some? && lines == old(lines) + [c.writeLine(r.value).value]
                        && lastIndex == r.value.index && lastHash == r.value.entryHash
    {
      ghost var _ := AppendsOneLine(h, c, State(), record, timestamp, written);
      var index := lastIndex + 1;
      var payload := c.marshal(record);
      if payload.None? {
        return Err("marshal record");
      }
      var payloadHash := h(payload.value);
      var prevHash := lastHash;
      var entryHash := h(Preimage(index, timestamp, payloadHash, prevHash));
      var entry := Entry(index, timestamp, prevHash, payloadHash, entryHash, record);
      var line := c.writeLine(entry);
      if line.None? {
        return Err("marshal entry");
      }
      if !written {
        return Err("write");
      }
      lines := lines + [line.value];
      lastIndex := index;
      lastHash := entryHash;
      return Ok(entry);
    }

    method Verify() returns (r: VerifyResult)
      ensures Verdict(h, ReadRows(c, lines), r)
      ensures Valid() ==> r == VerifyResult(true, lastIndex, lastHash, None, None)
    {
      r := VerifyFile(h, c, lines);
      VerifierSeesTheHead(h, c, State(), r);
    }

    method QueryLogs(p: Entry -> bool, q: LogQuery) returns (r: Result<Page>)
      requires Bounded(q)
      ensures r == ScanAnswer(p, ReadEntries(c, lines), q)
      ensures r.Ok? ==> IsPageOf(r.value, p, ReadEntries(c, lines).entries, q)
    {
      r := ScanFile(c, p, lines, q);
    }
  }
}
