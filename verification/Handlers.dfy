/** The request handlers (cmd/server/router.go) with query parsing (cmd/server/query.go) and scoping
    (cmd/server/auth.go): who can write what, and who gets to read it. */
module Handlers {
  import opened Strings
  import opened Codecs
  import opened Chain
  import opened Verify
  import opened Paging
  import opened CursorWalk
  import opened FileStore
  import opened Registry

  // ----- Reading: parsing and scoping a query -----

  datatype QueryLimits = QueryLimits(defaultLimit: int, maxLimit: int, maxOffset: int)

  /** loadConfig replaces non-positive settings by positive defaults. */
  predicate Configured(l: QueryLimits) { l.defaultLimit > 0 && l.maxLimit > 0 && l.maxOffset > 0 }

  type Params = map<string, string>

  function Get(params: Params, key: string): string { if key in params then params[key] else "" }

  /** strconv.Atoi: an optional sign and decimal digits within the range of int. */
  function Atoi(s: string): Option<int> {
    var signed := s != "" && (s[0] == '+' || s[0] == '-');
    var digits := if signed then s[1..] else s;
    if digits == "" || !AllDigits(digits) then None else
    var n := if signed && s[0] == '-' then 0 - Value(digits) else Value(digits);
    if 0 - MAX_INT64 - 1 <= n <= MAX_INT64 then Some(n) else None
  }

  function Lower(c: char): char {
    if 'A' <= c <= 'Z' then (c as int + 32) as char else c
  }

  predicate IsTrue(s: string) { |s| == 4 && [Lower(s[0]), Lower(s[1]), Lower(s[2]), Lower(s[3])] == "true" }

  function Normalize(q: LogQuery, l: QueryLimits): LogQuery {
    var limit := if q.limit <= 0 then l.defaultLimit else q.limit;
    q.(app := TrimSpace(q.app), level := TrimSpace(q.level), text := TrimSpace(q.text),
       limit := if limit > l.maxLimit then l.maxLimit else limit,
       offset := if q.offset < 0 then 0 else q.offset)
  }

  /** An absent integer parameter counts as zero; None is a parse error. */
  function IntParam(params: Params, key: string): Option<int> {
    var raw := TrimSpace(Get(params, key));
    if raw == "" then Some(0) else Atoi(raw)
  }

  function CursorParam(params: Params): Option<nat> {
    var raw := TrimSpace(Get(params, "cursor"));
    if raw == "" then Some(0) else DecodeCursor(raw)
  }

  /** Every accepted query is bounded: the store's preconditions hold, the configured limits are
      respected, cursor and offset are never combined, and no client id comes from the caller. */
  function ParseLogQuery(params: Params, l: QueryLimits): (r: Result<LogQuery>)
    ensures r.Ok? && Configured(l) ==>
              && Bounded(r.value) && r.value.limit <= l.maxLimit && r.value.offset <= l.maxOffset
              && (r.value.after == 0 || r.value.offset == 0)
              && r.value.clientId == ""
    ensures r.Ok? ==> r.value.app == TrimSpace(Get(params, "app")) && r.value.level == TrimSpace(Get(params, "level"))
  {
    var cursor, limit, offset := CursorParam(params), IntParam(params, "limit"), IntParam(params, "offset");
    if TrimSpace(Get(params, "cursor")) != "" && TrimSpace(Get(params, "offset")) != "" then
      Err("cursor and offset cannot be combined")
    else if cursor.None? then Err("invalid cursor")
    else if limit.None? then Err("invalid limit")
    else if offset.None? then Err("invalid offset")
    else if TrimSpace(Get(params, "offset")) != "" && offset.value > l.maxOffset then Err("offset exceeds maximum")
    else
      var q := TrimSpace(Get(params, "q"));
      var text := if q == "" then TrimSpace(Get(params, "text")) else q;
      Ok(Normalize(LogQuery("", Get(params, "app"), Get(params, "level"), text, limit.value, offset.value,
                            cursor.value, IsTrue(TrimSpace(Get(params, "count")))), l))
  }

  /** What strconv.Atoi accepts: decimal digits after at most one sign, in the range of int64. */
  lemma AtoiExactly(s: string, n: int)
    ensures Atoi(s) == Some(n) <==>
              -0x8000_0000_0000_0000 <= n <= 0x7fff_ffff_ffff_ffff &&
              exists digits: string :: digits != "" && AllDigits(digits) &&
                                       (((s == digits || s == "+" + digits) && n == Value(digits)) || (s == "-" + digits && n == 0 - Value(digits)))
  {
    if Atoi(s) == Some(n) {
      var digits := if s[0] == '+' || s[0] == '-' then s[1..] else s;
      assert s == digits || s == [s[0]] + digits;
    }
    forall digits: string | digits != "" && AllDigits(digits) && (s == digits || s == "+" + digits || s == "-" + digits)
      ensures Atoi(s) == if s[0] == '-' then (if 0 - Value(digits) >= -0x8000_0000_0000_0000 then Some(0 - Value(digits)) else None)
                         else if Value(digits) <= 0x7fff_ffff_ffff_ffff then Some(Value(digits)) else None
    {
      SignedDigits(s, digits);
    }
  }

  lemma SignedDigits(s: string, digits: string)
    requires digits != "" && AllDigits(digits) && (s == digits || s == "+" + digits || s == "-" + digits)
    ensures s[0] == '+' || s[0] == '-' <==> s != digits
    ensures s != digits ==> s[1..] == digits
  {
    assert IsDigit(digits[0]);
  }

  /** When a read request is understood, by its raw parameters. */
  predicate Understood(params: Params, l: QueryLimits) {
    var cursor, limit, offset := TrimSpace(Get(params, "cursor")), TrimSpace(Get(params, "limit")), TrimSpace(Get(params, "offset"));
    && (cursor == "" || offset == "")
    && (cursor != "" ==> DecodeCursor(cursor).Some?)
    && (limit != "" ==> Atoi(limit).Some?)
    && (offset != "" ==> Atoi(offset).Some? && Atoi(offset).value <= l.maxOffset)
  }

  /** The text searched for: the parameter q, else text. */
  function SearchText(params: Params): string {
    if TrimSpace(Get(params, "q")) != "" then TrimSpace(Get(params, "q")) else TrimSpace(Get(params, "text"))
  }

  /** What is read from the raw parameters: a request is refused exactly if it combines cursor and offset
      or one of its numbers is bad, and otherwise every field of the query is this one. */
  lemma ParsedExactly(params: Params, l: QueryLimits)
    ensures ParseLogQuery(params, l).Ok? <==> Understood(params, l)
    ensures Understood(params, l) ==>
              var q := ParseLogQuery(params, l).value;
              var cursor, limit, offset := TrimSpace(Get(params, "cursor")), TrimSpace(Get(params, "limit")), TrimSpace(Get(params, "offset"));
              var count := TrimSpace(Get(params, "count"));
              var wanted := if limit == "" || Atoi(limit).value <= 0 then l.defaultLimit else Atoi(limit).value;
              && q.app == TrimSpace(Get(params, "app")) && q.level == TrimSpace(Get(params, "level"))
              && q.text == SearchText(params) && q.clientId == ""
              && q.limit == (if wanted < l.maxLimit then wanted else l.maxLimit)
              && q.offset == (if offset == "" || Atoi(offset).value < 0 then 0 else Atoi(offset).value)
              && q.after == (if cursor == "" then 0 else DecodeCursor(cursor).value)
              && (q.wantTotal <==> |count| == 4 && count[0] in "tT" && count[1] in "rR" && count[2] in "uU" && count[3] in "eE")
  {
    TrimmedTwice(Get(params, "q"));
    TrimmedTwice(Get(params, "text"));
    IsTrueExactly(TrimSpace(Get(params, "count")));
  }

  lemma TrimmedTwice(s: string)
    ensures TrimSpace(TrimSpace(s)) == TrimSpace(s)
  {
    var left, right := TrimSpaceTrims(s);
    TightIsTrimmed(TrimSpace(s));
  }

  lemma IsTrueExactly(s: string)
    ensures IsTrue(s) <==> |s| == 4 && s[0] in "tT" && s[1] in "rR" && s[2] in "uU" && s[3] in "eE"
  {
    if |s| == 4 {
      assert [Lower(s[0]), Lower(s[1]), Lower(s[2]), Lower(s[3])] == "true"
             <==> Lower(s[0]) == 't' && Lower(s[1]) == 'r' && Lower(s[2]) == 'u' && Lower(s[3]) == 'e';
    }
  }

  lemma CursorTextIsTrimmed(index: nat)
    ensures TrimSpace(EncodeCursor(index)) == EncodeCursor(index) != ""
  {
    EncodedIsTight(CursorPayload(index));
  }

  lemma CursorParamReads(params: Params, index: nat)
    requires index <= MAX_INT64
    ensures CursorParam(params["cursor" := EncodeCursor(index)]) == Some(index)
  {
    CursorTextIsTrimmed(index);
    CursorRoundTrip(index);
  }

  /** The cursor parameter alone decides where a query starts. */
  lemma CursorOnlyMoves(params: Params, l: QueryLimits, cursor: string, index: nat)
    requires TrimSpace(Get(params, "cursor")) == "" && TrimSpace(Get(params, "offset")) == ""
    requires CursorParam(params["cursor" := cursor]) == Some(index) && ParseLogQuery(params, l).Ok?
    ensures ParseLogQuery(params["cursor" := cursor], l) == Ok(ParseLogQuery(params, l).value.(after := index))
  {
    var next := params["cursor" := cursor];
    assert forall key | key != "cursor" :: Get(next, key) == Get(params, key);
    assert IntParam(next, "limit") == IntParam(params, "limit") && IntParam(next, "offset") == IntParam(params, "offset");
  }

  /** The limit parameter alone decides the page size. */
  lemma LimitOnlySizes(params: Params, l: QueryLimits, limit: string)
    requires ParseLogQuery(params, l).Ok? && ParseLogQuery(params["limit" := limit], l).Ok?
    ensures var r := ParseLogQuery(params["limit" := limit], l).value;
            r == ParseLogQuery(params, l).value.(limit := r.limit)
  {
    var sized := params["limit" := limit];
    assert forall key | key != "limit" :: Get(sized, key) == Get(params, key);
    assert CursorParam(sized) == CursorParam(params) && IntParam(sized, "offset") == IntParam(params, "offset");
  }

  /** Following a page: the request that adds the page's cursor to the first request's parameters is
      read as the same query, positioned after that page. */
  lemma NextRequestResumes(params: Params, l: QueryLimits, index: nat)
    requires TrimSpace(Get(params, "cursor")) == "" && TrimSpace(Get(params, "offset")) == ""
    requires index <= MAX_INT64 && ParseLogQuery(params, l).Ok?
    ensures ParseLogQuery(params["cursor" := EncodeCursor(index)], l) == Ok(ParseLogQuery(params, l).value.(after := index))
  {
    CursorParamReads(params, index);
    CursorOnlyMoves(params, l, EncodeCursor(index), index);
  }

  function ScopeQuery(q: LogQuery, who: Principal, params: Params): LogQuery {
    q.(clientId := if who.role == ROLE_ADMIN then TrimSpace(Get(params, "clientId")) else who.clientId)
  }

  /** Unicode case folding, lower-casing and metadata rendering, as arbitrary functions. */
  datatype Matcher = Matcher(equalFold: (string, string) -> bool, lower: string -> string, render: Metadata -> string)

  predicate Matches(m: Matcher, q: LogQuery, e: Entry) {
    && (q.clientId != "" ==> e.record.clientId == q.clientId)
    && (q.app != "" ==> m.equalFold(e.record.app, q.app))
    && (q.level != "" ==> m.equalFold(e.record.level, q.level))
    && (q.text != "" ==>
          Contains(m.lower(e.record.app + " " + e.record.level + " " + e.record.message + " "
                           + m.render(e.record.metadata) + " " + e.entryHash), m.lower(q.text)))
  }

  function Matching(m: Matcher, q: LogQuery): Entry -> bool { (e: Entry) => Matches(m, q, e) }

  /** What the parameters of a read ask for: app and level up to case folding, and the text, lower-cased,
      within app, level, message, metadata and entry hash, joined by blanks. */
  ghost predicate Asks(m: Matcher, params: Params, e: Entry) {
    var app, level, text := TrimSpace(Get(params, "app")), TrimSpace(Get(params, "level")), SearchText(params);
    && (app != "" ==> m.equalFold(e.record.app, app))
    && (level != "" ==> m.equalFold(e.record.level, level))
    && (text != "" ==>
          Contains(m.lower(e.record.app + " " + e.record.level + " " + e.record.message + " "
                           + m.render(e.record.metadata) + " " + e.entryHash), m.lower(text)))
  }

  /** What the caller may see and asks to see: a client its own entries, an admin those of the client it
      names, or all if it names none. */
  ghost predicate InScope(who: Principal, params: Params, e: Entry) {
    var named := TrimSpace(Get(params, "clientId"));
    if who.role == "admin" then named == "" || e.record.clientId == named else e.record.clientId == who.clientId
  }

  /** The filter of the handler is what the parameters ask for, within the caller's scope. */
  lemma MatchesExactly(m: Matcher, params: Params, l: QueryLimits, who: Principal, e: Entry)
    requires ParseLogQuery(params, l).Ok? && who.clientId != ""
    ensures Matches(m, ParseLogQuery(params, l).value, e) <==> Asks(m, params, e)
    ensures Matches(m, ScopeQuery(ParseLogQuery(params, l).value, who, params), e) <==> InScope(who, params, e) && Asks(m, params, e)
  {
    ParsedExactly(params, l);
    var q := ParseLogQuery(params, l).value;
    ScopeAdds(m, q, who, params, e);
  }

  lemma ScopeAdds(m: Matcher, q: LogQuery, who: Principal, params: Params, e: Entry)
    requires q.clientId == "" && who.clientId != ""
    ensures Matches(m, ScopeQuery(q, who, params), e) <==> InScope(who, params, e) && Matches(m, q, e)
  {
  }

  function WrittenAs(id: string): Entry -> bool { (e: Entry) => e.record.clientId == id }

  // ----- Writing: stamping a record -----

  /** What handleWriteLog passes to Append: the body with the caller's id forced in and its texts
      trimmed, or the refusal.  None as a body is a body that is not JSON. */
  function Stamp(who: Principal, body: Option<LogRecord>): Result<LogRecord> {
    if body.None? then Err("invalid JSON body")
    else if who.clientId == "" then Err("principal missing client id")
    else
      var r := body.value;
      var app, level, message := TrimSpace(r.app), TrimSpace(r.level), TrimSpace(r.message);
      if app == "" || level == "" || message == "" then Err("app, level, and message are required")
      else Ok(LogRecord(who.clientId, app, level, message,
                        if r.metadata.NoMetadata? then Metadata.Metadata(map[]) else r.metadata))
  }

  /** A body that may be stored for this caller: JSON with app, level and message. */
  predicate Complete(who: Principal, body: Option<LogRecord>) {
    && body.Some? && who.clientId != ""
    && TrimSpace(body.value.app) != "" && TrimSpace(body.value.level) != "" && TrimSpace(body.value.message) != ""
  }

  /** What is stored of a body: the caller's id, whatever id the body claims, its texts trimmed, and its
      metadata, an empty object if it has none. */
  predicate StoredOf(who: Principal, body: LogRecord, record: LogRecord) {
    && record.clientId == who.clientId && record.app == TrimSpace(body.app)
    && record.level == TrimSpace(body.level) && record.message == TrimSpace(body.message)
    && record.metadata == (if body.metadata.NoMetadata? then Metadata.Metadata(map[]) else body.metadata)
  }

  lemma StampExactly(who: Principal, body: Option<LogRecord>)
    ensures Stamp(who, body).Ok? <==> Complete(who, body)
    ensures Complete(who, body) ==> StoredOf(who, body.value, Stamp(who, body).value)
  {
  }

  /** One write request, with the clock and the file system's answer. */
  datatype Write = Write(who: Principal, body: Option<LogRecord>, timestamp: string, written: bool)

  function Served(h: Hash, c: Codec, s: Store, w: Write): Store {
    match Stamp(w.who, w.body)
    case Err(_) => s
    case Ok(record) => AfterAppend(h, c, s, record, w.timestamp, w.written)
  }

  function Serve(h: Hash, c: Codec, writes: seq<Write>): Store {
    if writes == [] then Store([], 0, GENESIS)
    else Served(h, c, Serve(h, c, writes[..|writes| - 1]), writes[|writes| - 1])
  }

  function LogOf(c: Codec, s: Store): seq<Entry> { ReadEntries(c, s.lines).entries }

  /** The entries that requests of `id` added, judged by who made the request and not by anything in
      the entry. */
  function AddedBy(h: Hash, c: Codec, writes: seq<Write>, id: string): seq<Entry> {
    if writes == [] then [] else
    var init, w := writes[..|writes| - 1], writes[|writes| - 1];
    var s, s' := Serve(h, c, init), Serve(h, c, writes);
    var before := AddedBy(h, c, init, id);
    if w.who.clientId == id && |LogOf(c, s')| > |LogOf(c, s)| then before + LogOf(c, s')[|LogOf(c, s)|..] else before
  }

  /** encoding/json keeps an entry's header and its client id. */
  ghost predicate Keeps(c: Codec, record: LogRecord) {
    && Stable(c, record)
    && forall e: Entry :: e.record == record && e.index <= MAX_UINT64
                          && c.writeLine(e).Some? && c.readLine(c.writeLine(e).value).Parsed?
         ==> c.readLine(c.writeLine(e).value).entry.record.clientId == record.clientId
  }

  ghost predicate KeepsWrite(c: Codec, w: Write) { Stamp(w.who, w.body).Ok? ==> Keeps(c, Stamp(w.who, w.body).value) }

  /** Runs that do not wrap the uint64 index. */
  ghost predicate KeepsAll(c: Codec, writes: seq<Write>) {
    |writes| <= MAX_UINT64 && forall i :: 0 <= i < |writes| ==> KeepsWrite(c, writes[i])
  }

  predicate NumberedFromOne(log: seq<Entry>) { forall i :: 0 <= i < |log| ==> log[i].index == i + 1 }

  /** The invariant of every run: a consistent store whose readable entries are numbered from one. */
  predicate Sound(h: Hash, c: Codec, s: Store) {
    && Consistent(h, c, s)
    && ReadEntries(c, s.lines).clean
    && NumberedFromOne(LogOf(c, s))
    && |LogOf(c, s)| == s.lastIndex
  }

  /** A served write appends nothing, or one entry attributed to the caller. */
  lemma ServedAppends(h: Hash, c: Codec, s: Store, w: Write)
    requires KeepsWrite(c, w) && Sound(h, c, s) && s.lastIndex < MAX_UINT64
    ensures var s' := Served(h, c, s, w);
            && Sound(h, c, s')
            && (s' == s || (|LogOf(c, s')| == |LogOf(c, s)| + 1 && LogOf(c, s) <= LogOf(c, s')
                            && LogOf(c, s')[|LogOf(c, s)|].record.clientId == w.who.clientId))
  {
    var s' := Served(h, c, s, w);
    if s' != s {
      var record := Stamp(w.who, w.body).value;
      AppendExtends(h, c, s, record, w.timestamp, w.written);
      var e := NewEntry(h, c, s.lastIndex, s.lastHash, record, w.timestamp).value;
      assert ReadsBack(c, e);
      assert s'.lines[..|s.lines|] == s.lines;
    }
  }

  lemma {:induction false} ServeSound(h: Hash, c: Codec, writes: seq<Write>)
    requires KeepsAll(c, writes)
    ensures Sound(h, c, Serve(h, c, writes))
    ensures |LogOf(c, Serve(h, c, writes))| <= |writes|
  {
    if writes != [] {
      ServeSound(h, c, writes[..|writes| - 1]);
      ServedAppends(h, c, Serve(h, c, writes[..|writes| - 1]), writes[|writes| - 1]);
    }
  }

  lemma {:induction false} LogGrows(h: Hash, c: Codec, writes: seq<Write>, n: nat)
    requires KeepsAll(c, writes) && n <= |writes|
    ensures LogOf(c, Serve(h, c, writes[..n])) <= LogOf(c, Serve(h, c, writes))
  {
    if n == |writes| {
      assert writes[..n] == writes;
    } else {
      var init := writes[..|writes| - 1];
      assert init[..n] == writes[..n];
      LogGrows(h, c, init, n);
      ServeSound(h, c, init);
      ServedAppends(h, c, Serve(h, c, init), writes[|writes| - 1]);
    }
  }

  /** Attribution cannot be forged: the entries stored under an id are exactly those that requests
      authenticated as that id added, in the order they were made. */
  lemma {:induction false} AttributionIsExact(h: Hash, c: Codec, writes: seq<Write>, id: string)
    requires KeepsAll(c, writes)
    ensures Filter(WrittenAs(id), LogOf(c, Serve(h, c, writes))) == AddedBy(h, c, writes, id)
  {
    if writes != [] {
      var init, w := writes[..|writes| - 1], writes[|writes| - 1];
      var s, s' := Serve(h, c, init), Serve(h, c, writes);
      AttributionIsExact(h, c, init, id);
      ServeSound(h, c, init);
      ServedAppends(h, c, s, w);
      if s' != s {
        var log := LogOf(c, s');
        var e := log[|log| - 1];
        assert log[..|log| - 1] == LogOf(c, s);
        assert log[|log| - 1..] == [e];
      }
    }
  }

  /** encoding/json keeps an entry's texts, too. */
  ghost predicate KeepsTexts(c: Codec, record: LogRecord) {
    forall e: Entry :: e.record == record && e.index <= MAX_UINT64
                       && c.writeLine(e).Some? && c.readLine(c.writeLine(e).value).Parsed?
      ==> SameTexts(c.readLine(c.writeLine(e).value).entry.record, record)
  }

  predicate SameTexts(r: LogRecord, r': LogRecord) {
    r.clientId == r'.clientId && r.app == r'.app && r.level == r'.level && r.message == r'.message
  }

  /** What one write does to the store: a body that is not complete or not accepted leaves it alone, any
      other adds the line of the entry with its stored record. */
  lemma ServedExactly(h: Hash, c: Codec, s: Store, w: Write, record: LogRecord) returns (e: Entry)
    requires Complete(w.who, w.body) ==> StoredOf(w.who, w.body.value, record)
    ensures var s' := Served(h, c, s, w);
            if Complete(w.who, w.body) && Accepted(h, c, s, record, w.timestamp, w.written) then
              && BuiltOn(h, c, s.lastIndex, s.lastHash, record, w.timestamp, e) && c.writeLine(e).Some?
              && s' == Store(s.lines + [c.writeLine(e).value], s.lastIndex + 1, e.entryHash)
            else s' == s
  {
    StampExactly(w.who, w.body);
    e := AppendsOneLine(h, c, s, record, w.timestamp, w.written);
  }

  lemma ServeStep(h: Hash, c: Codec, writes: seq<Write>, n: nat)
    requires n < |writes|
    ensures Serve(h, c, writes[..n + 1]) == Served(h, c, Serve(h, c, writes[..n]), writes[n])
  {
    assert writes[..n + 1][..n] == writes[..n];
  }

  /** Where a write is stored for good: in every run, the entry of each accepted write is found, at every
      later time, right after the entries there were when it was made, with the caller's id and with app,
      level and message of its body, trimmed; any other write adds nothing. */
  lemma WriteIsStored(h: Hash, c: Codec, writes: seq<Write>, n: nat, record: LogRecord)
    requires KeepsAll(c, writes) && n < |writes| && KeepsTexts(c, record)
    requires Complete(writes[n].who, writes[n].body) ==> StoredOf(writes[n].who, writes[n].body.value, record)
    ensures var w, s := writes[n], Serve(h, c, writes[..n]);
            var log, at := LogOf(c, Serve(h, c, writes)), |LogOf(c, s)|;
            if Complete(w.who, w.body) && Accepted(h, c, s, record, w.timestamp, w.written) then
              && at < |log| && log[at].index == at + 1 && log[at].timestamp == w.timestamp
              && log[at].record.clientId == w.who.clientId
              && log[at].record.app == TrimSpace(w.body.value.app) && log[at].record.level == TrimSpace(w.body.value.level)
              && log[at].record.message == TrimSpace(w.body.value.message)
            else Serve(h, c, writes[..n + 1]) == s
  {
    var w, s := writes[n], Serve(h, c, writes[..n]);
    ServeStep(h, c, writes, n);
    ServeSound(h, c, writes[..n]);
    LogGrows(h, c, writes, n + 1);
    var e := ServedExactly(h, c, s, w, record);
    if Complete(w.who, w.body) && Accepted(h, c, s, record, w.timestamp, w.written) {
      LineIsRead(h, c, s, w, record, e);
    }
  }

  lemma LineIsRead(h: Hash, c: Codec, s: Store, w: Write, record: LogRecord, e: Entry)
    requires Sound(h, c, s) && s.lastIndex < MAX_UINT64 && Complete(w.who, w.body) && StoredOf(w.who, w.body.value, record)
    requires KeepsWrite(c, w) && KeepsTexts(c, record)
    requires BuiltOn(h, c, s.lastIndex, s.lastHash, record, w.timestamp, e) && c.writeLine(e).Some?
    requires Served(h, c, s, w).lines == s.lines + [c.writeLine(e).value]
    ensures var log := LogOf(c, Served(h, c, s, w));
            && |log| == |LogOf(c, s)| + 1
            && log[|LogOf(c, s)|].index == e.index && log[|LogOf(c, s)|].timestamp == w.timestamp
            && SameTexts(log[|LogOf(c, s)|].record, record)
  {
    StampExactly(w.who, w.body);
    assert Stamp(w.who, w.body).value == record;
    assert ReadsBack(c, e);
    var line := c.writeLine(e).value;
    assert (s.lines + [line])[..|s.lines|] == s.lines;
  }

  // ----- Reading it back -----

  /** A page request of a walk: it arrives after `time` of the writes, with this limit parameter. */
  datatype Request = Request(time: nat, limit: string)

  function SizedParams(params: Params, r: Request): Params { params["limit" := r.limit] }

  /** Its parameters: those of the walk, its own limit, and the cursor of the page before. */
  function RequestParams(params: Params, r: Request, cursor: Option<nat>): Params {
    if cursor.None? then SizedParams(params, r) else SizedParams(params, r)["cursor" := EncodeCursor(cursor.value)]
  }

  predicate InTime(requests: seq<Request>, end: nat) {
    && (forall i :: 0 <= i < |requests| ==> requests[i].time <= end)
    && (forall i, j :: 0 <= i <= j < |requests| ==> requests[i].time <= requests[j].time)
  }

  /** The walk's parameters start from the first page, and every request's limit can be read. */
  predicate Starts(params: Params, l: QueryLimits) {
    && Configured(l) && TrimSpace(Get(params, "cursor")) == "" && TrimSpace(Get(params, "offset")) == ""
    && ParseLogQuery(params, l).Ok?
  }

  predicate Sized(params: Params, l: QueryLimits, r: Request) { ParseLogQuery(SizedParams(params, r), l).Ok? }

  predicate Walkable(params: Params, l: QueryLimits, requests: seq<Request>) {
    Starts(params, l) && forall i :: 0 <= i < |requests| ==> Sized(params, l, requests[i])
  }

  /** The page size a request asks for. */
  function LimitOf(params: Params, l: QueryLimits, r: Request): (n: int)
    requires Configured(l) && Sized(params, l, r)
    ensures n > 0
  {
    ParseLogQuery(SizedParams(params, r), l).value.limit
  }

  function LogAt(h: Hash, c: Codec, writes: seq<Write>, time: nat): seq<Entry>
    requires time <= |writes|
  {
    LogOf(c, Serve(h, c, writes[..time]))
  }

  function VisitsAt(h: Hash, c: Codec, writes: seq<Write>, params: Params, l: QueryLimits, requests: seq<Request>): seq<Visit>
    requires InTime(requests, |writes|) && Walkable(params, l, requests)
  {
    seq(|requests|, i requires 0 <= i < |requests| =>
          Visit(LogAt(h, c, writes, requests[i].time), LimitOf(params, l, requests[i])))
  }

  lemma {:induction false} NumberedAscends(log: seq<Entry>)
    requires NumberedFromOne(log)
    ensures Ascending(log)
  {
    if log != [] {
      NumberedAscends(log[..|log| - 1]);
    }
  }

  lemma LogAtSound(h: Hash, c: Codec, writes: seq<Write>, time: nat)
    requires KeepsAll(c, writes) && time <= |writes|
    ensures NumberedFromOne(LogAt(h, c, writes, time)) && |LogAt(h, c, writes, time)| <= |writes|
  {
    ServeSound(h, c, writes[..time]);
  }

  lemma LogAtGrows(h: Hash, c: Codec, writes: seq<Write>, m: nat, n: nat)
    requires KeepsAll(c, writes) && m <= n <= |writes|
    ensures LogAt(h, c, writes, m) <= LogAt(h, c, writes, n)
  {
    assert writes[..n][..m] == writes[..m];
    LogGrows(h, c, writes[..n], m);
  }

  lemma VisitsGrow(h: Hash, c: Codec, writes: seq<Write>, params: Params, l: QueryLimits, requests: seq<Request>)
    requires KeepsAll(c, writes) && InTime(requests, |writes|) && Walkable(params, l, requests) && |writes| <= MAX_INT64
    ensures Growing(VisitsAt(h, c, writes, params, l, requests))
    ensures forall i :: 0 <= i < |requests| ==> forall e :: e in VisitsAt(h, c, writes, params, l, requests)[i].log ==> e.index > 0
  {
    var visits := VisitsAt(h, c, writes, params, l, requests);
    forall i | 0 <= i < |visits| ensures Fit(visits, i) && forall e :: e in visits[i].log ==> e.index > 0 {
      LogAtSound(h, c, writes, requests[i].time);
      NumberedAscends(visits[i].log);
    }
    forall i, j | 0 <= i <= j < |visits| ensures Before(visits, i, j) {
      LogAtGrows(h, c, writes, requests[i].time, requests[j].time);
    }
  }

  /** What handleReadLogs answers; None for an error status. */
  function Answer(c: Codec, m: Matcher, lines: seq<string>, who: Principal, params: Params, l: QueryLimits): Option<Page>
    requires Configured(l)
  {
    var parsed := ParseLogQuery(params, l);
    if parsed.Err? || who.clientId == "" then None else
    var q := ScopeQuery(parsed.value, who, params);
    var r := ScanAnswer(Matching(m, q), ReadEntries(c, lines), q);
    if r.Ok? then Some(r.value) else None
  }

  /** How the requests of a walk by `who` are answered, each by the store at its time. */
  function AnswersTo(h: Hash, c: Codec, m: Matcher, writes: seq<Write>, who: Principal, params: Params, l: QueryLimits,
                     requests: seq<Request>): Answers
    requires InTime(requests, |writes|) && Configured(l)
  {
    (i: nat, cursor: Option<nat>) =>
      if i < |requests| then
        Answer(c, m, Serve(h, c, writes[..requests[i].time]).lines, who, RequestParams(params, requests[i], cursor), l)
      else None
  }

  /** The cursor goes back as it came: RequestParams puts its text into the next request. */
  function AsIs(): Relay { (index: nat) => Some(index) }

  /** The walk as `who` makes it, request by request: each carries the cursor of the page before. */
  function WalkOf(h: Hash, c: Codec, m: Matcher, writes: seq<Write>, who: Principal, params: Params, l: QueryLimits,
                  requests: seq<Request>): Walked
    requires InTime(requests, |writes|) && Configured(l)
  {
    Walk(AnswersTo(h, c, m, writes, who, params, l, requests), AsIs(), 0, |requests|, None)
  }

  lemma RequestAsks(params: Params, l: QueryLimits, r: Request, cursor: Option<nat>)
    requires Starts(params, l) && Sized(params, l, r) && After(cursor) <= MAX_INT64
    ensures ParseLogQuery(RequestParams(params, r, cursor), l)
            == Ok(At(ParseLogQuery(params, l).value, LimitOf(params, l, r), After(cursor)))
  {
    LimitOnlySizes(params, l, r.limit);
    FirstPage(params, l);
    if cursor.Some? {
      NextRequestResumes(SizedParams(params, r), l, cursor.value);
    }
  }

  lemma FirstPage(params: Params, l: QueryLimits)
    requires ParseLogQuery(params, l).Ok? && TrimSpace(Get(params, "cursor")) == "" && TrimSpace(Get(params, "offset")) == ""
    ensures ParseLogQuery(params, l).value.after == 0 && ParseLogQuery(params, l).value.offset == 0
  {
  }

  lemma PageAgrees(p: Entry -> bool, p': Entry -> bool, log: seq<Entry>, q: LogQuery)
    requires Bounded(q) && forall e :: p(e) == p'(e)
    ensures PageOf(p, log, q) == PageOf(p', log, q)
  {
    FilterAgrees(p, p', log);
    FilterAgrees(MatchPast(p, q.after), MatchPast(p', q.after), log);
  }

  /** One request of the walk is answered with the page that the visit specifies. */
  lemma RequestAnswered(h: Hash, c: Codec, m: Matcher, writes: seq<Write>, who: Principal, params: Params, l: QueryLimits,
                        r: Request, cursor: Option<nat>)
    requires KeepsAll(c, writes) && r.time <= |writes| && Starts(params, l) && Sized(params, l, r)
    requires After(cursor) <= MAX_INT64 && who.clientId != ""
    ensures var q := ScopeQuery(ParseLogQuery(params, l).value, who, params);
            var asked := At(q, LimitOf(params, l, r), After(cursor));
            && Bounded(asked)
            && Answer(c, m, Serve(h, c, writes[..r.time]).lines, who, RequestParams(params, r, cursor), l)
               == Some(PageOf(Matching(m, q), LogAt(h, c, writes, r.time), asked))
  {
    var q := ScopeQuery(ParseLogQuery(params, l).value, who, params);
    RequestScoped(params, l, r, cursor, who);
    ServeSound(h, c, writes[..r.time]);
    var asked := At(q, LimitOf(params, l, r), After(cursor));
    PageAgrees(Matching(m, asked), Matching(m, q), LogAt(h, c, writes, r.time), asked);
  }

  /** Every request of the walk has the same scope. */
  lemma RequestScoped(params: Params, l: QueryLimits, r: Request, cursor: Option<nat>, who: Principal)
    requires Starts(params, l) && Sized(params, l, r) && After(cursor) <= MAX_INT64
    ensures ParseLogQuery(RequestParams(params, r, cursor), l).Ok?
    ensures ScopeQuery(ParseLogQuery(RequestParams(params, r, cursor), l).value, who, RequestParams(params, r, cursor))
            == At(ScopeQuery(ParseLogQuery(params, l).value, who, params), LimitOf(params, l, r), After(cursor))
  {
    RequestAsks(params, l, r, cursor);
    assert Get(RequestParams(params, r, cursor), "clientId") == Get(params, "clientId");
  }

  lemma AllAnswered(h: Hash, c: Codec, m: Matcher, writes: seq<Write>, who: Principal, params: Params, l: QueryLimits, requests: seq<Request>)
    requires KeepsAll(c, writes) && |writes| <= MAX_INT64 && InTime(requests, |writes|) && Walkable(params, l, requests) && who.clientId != ""
    ensures var visits := VisitsAt(h, c, writes, params, l, requests);
            var q := ScopeQuery(ParseLogQuery(params, l).value, who, params);
            Growing(visits) && AnswersAll(AnswersTo(h, c, m, writes, who, params, l, requests), Matching(m, q), q, visits)
  {
    var visits := VisitsAt(h, c, writes, params, l, requests);
    var q := ScopeQuery(ParseLogQuery(params, l).value, who, params);
    var answers := AnswersTo(h, c, m, writes, who, params, l, requests);
    VisitsGrow(h, c, writes, params, l, requests);
    forall i | 0 <= i < |visits| ensures AnswersVisit(answers, Matching(m, q), q, visits, i) {
      forall cursor: Option<nat> | After(cursor) <= MAX_INT64
        ensures answers(i, cursor) == Some(PageOf(Matching(m, q), visits[i].log, At(q, visits[i].limit, After(cursor))))
      {
        RequestAnswered(h, c, m, writes, who, params, l, requests[i], cursor);
      }
    }
  }

  lemma WalkOfMatches(h: Hash, c: Codec, m: Matcher, writes: seq<Write>, who: Principal, params: Params, l: QueryLimits, requests: seq<Request>)
    requires KeepsAll(c, writes) && |writes| <= MAX_INT64 && InTime(requests, |writes|) && Walkable(params, l, requests) && who.clientId != ""
    ensures var w := WalkOf(h, c, m, writes, who, params, l, requests);
            var q := ScopeQuery(ParseLogQuery(params, l).value, who, params);
            && w.outcome != Rejected
            && (w.outcome == Finished ==>
                  0 < w.pages <= |requests| && w.items == Filter(Matching(m, q), LogAt(h, c, writes, requests[w.pages - 1].time)))
  {
    var q := ScopeQuery(ParseLogQuery(params, l).value, who, params);
    VisitsGrow(h, c, writes, params, l, requests);
    AllAnswered(h, c, m, writes, who, params, l, requests);
    WalkFromStart(AnswersTo(h, c, m, writes, who, params, l, requests), AsIs(), Matching(m, q), q, VisitsAt(h, c, writes, params, l, requests));
  }

  /** What a finished walk by `who` returns, request by request through the handler, over any
      interleaving of everybody's writes with the walk's own requests and with changing page sizes: its
      filters applied to exactly the entries that the requests of one client added up to the last page.
      For a client that is itself, whatever clientId it put into bodies or parameters; an admin may
      name any client, and without a name gets the whole log. */
  lemma ScopedWalk(h: Hash, c: Codec, m: Matcher, writes: seq<Write>, requests: seq<Request>,
                   who: Principal, params: Params, l: QueryLimits)
    requires KeepsAll(c, writes) && |writes| <= MAX_INT64 && InTime(requests, |writes|) && Walkable(params, l, requests)
    requires who.clientId != ""
    ensures var w := WalkOf(h, c, m, writes, who, params, l, requests);
            var of := if who.role == ROLE_ADMIN then TrimSpace(Get(params, "clientId")) else who.clientId;
            && w.outcome != Rejected
            && (w.outcome == Finished ==>
                  && 0 < w.pages <= |requests|
                  && var seen := writes[..requests[w.pages - 1].time];
                  w.items == Filter((e: Entry) => Asks(m, params, e),
                                    if of == "" then LogOf(c, Serve(h, c, seen)) else AddedBy(h, c, seen, of)))
  {
    var asked := ParseLogQuery(params, l).value;
    var q := ScopeQuery(asked, who, params);
    WalkOfMatches(h, c, m, writes, who, params, l, requests);
    var w := WalkOf(h, c, m, writes, who, params, l, requests);
    if w.outcome == Finished {
      var seen := writes[..requests[w.pages - 1].time];
      ScopedFilter(h, c, m, seen, asked, q.clientId);
      FilterAsks(m, params, l, who, if q.clientId == "" then LogOf(c, Serve(h, c, seen)) else AddedBy(h, c, seen, q.clientId));
    }
  }

  lemma FilterAsks(m: Matcher, params: Params, l: QueryLimits, who: Principal, log: seq<Entry>)
    requires ParseLogQuery(params, l).Ok? && who.clientId != ""
    ensures Filter(Matching(m, ParseLogQuery(params, l).value), log) == Filter((e: Entry) => Asks(m, params, e), log)
  {
    forall i | 0 <= i < |log| ensures Matching(m, ParseLogQuery(params, l).value)(log[i]) == Asks(m, params, log[i]) {
      MatchesExactly(m, params, l, who, log[i]);
    }
    FilterAgrees(Matching(m, ParseLogQuery(params, l).value), (e: Entry) => Asks(m, params, e), log);
  }

  /** Scoping to a client is the same as searching only what that client's requests added. */
  lemma ScopedFilter(h: Hash, c: Codec, m: Matcher, writes: seq<Write>, asked: LogQuery, id: string)
    requires KeepsAll(c, writes) && asked.clientId == ""
    ensures Filter(Matching(m, asked.(clientId := id)), LogOf(c, Serve(h, c, writes)))
            == Filter(Matching(m, asked), if id == "" then LogOf(c, Serve(h, c, writes)) else AddedBy(h, c, writes, id))
  {
    var q := asked.(clientId := id);
    var log := LogOf(c, Serve(h, c, writes));
    if id == "" {
      assert q == asked;
    } else {
      FilterTwice(WrittenAs(id), Matching(m, asked), Matching(m, q), log);
      AttributionIsExact(h, c, writes, id);
    }
  }

  // ----- The handlers on the store object -----

  method HandleWriteLog(store: FileLog, w: Write) returns (status: nat)
    modifies store
    ensures store.State() == Served(store.h, store.c, old(store.State()), w)
    ensures status == 201 ==> store.lastIndex == old(store.lastIndex) + 1
    ensures status != 201 ==> store.State() == old(store.State())
    ensures Stamp(w.who, w.body).Err? <==> status == 400 || (status == 500 && w.body.Some? && w.who.clientId == "")
    ensures status in {201, 400, 500}
    ensures status == 400 <==> w.body.None? || (w.who.clientId != "" && !Complete(w.who, w.body))
    ensures status == 201 <==>
              Complete(w.who, w.body) && exists record :: StoredOf(w.who, w.body.value, record)
                                                          && Accepted(store.h, store.c, old(store.State()), record, w.timestamp, w.written)
    ensures status == 201 ==>
              exists e: Entry :: StoredOf(w.who, w.body.value, e.record)
                                 && BuiltOn(store.h, store.c, old(store.lastIndex), old(store.lastHash), e.record, w.timestamp, e)
                                 && store.c.writeLine(e).Some? && store.lines == old(store.lines) + [store.c.writeLine(e).value]
  {
    if w.body.None? {
      return 400;
    }
    if w.who.clientId == "" {
      return 500;
    }
    var input := w.body.value;
    input := input.(clientId := w.who.clientId);
    input := input.(app := TrimSpace(input.app), level := TrimSpace(input.level), message := TrimSpace(input.message));
    if input.app == "" || input.level == "" || input.message == "" {
      return 400;
    }
    if input.metadata.NoMetadata? {
      input := input.(metadata := Metadata.Metadata(map[]));
    }
    var entry := store.Append(input, w.timestamp, w.written);
    return if entry.Ok? then 201 else 500;
  }

  method HandleReadLogs(store: FileLog, m: Matcher, who: Principal, params: Params, l: QueryLimits)
      returns (status: nat, page: Option<Page>)
    requires Configured(l)
    ensures status == 200 <==> page.Some?
    ensures status in {200, 400, 500}
    ensures page.Some? ==> ParseLogQuery(params, l).Ok?
    ensures page.Some? ==> IsPageOf(page.value, (e: Entry) => InScope(who, params, e) && Asks(m, params, e),
                                    ReadEntries(store.c, store.lines).entries, ParseLogQuery(params, l).value)
    ensures ParseLogQuery(params, l).Err? <==> status == 400
    ensures page.Some? ==> who.clientId != ""
    ensures page.Some? ==> forall i :: 0 <= i < |page.value.items| ==>
              who.role == ROLE_ADMIN || page.value.items[i].record.clientId == who.clientId
    ensures page == Answer(store.c, m, store.lines, who, params, l)
  {
    var parsed := ParseLogQuery(params, l);
    if parsed.Err? {
      return 400, None;
    }
    if who.clientId == "" {
      return 500, None;
    }
    var q := ScopeQuery(parsed.value, who, params);
    var r := store.QueryLogs(Matching(m, q), q);
    if r.Err? {
      return 500, None;
    }
    PageMatches(Matching(m, q), ReadEntries(store.c, store.lines).entries, q);
    PageAsks(m, params, l, who, ReadEntries(store.c, store.lines).entries, r.value);
    return 200, Some(r.value);
  }

  lemma PageAsks(m: Matcher, params: Params, l: QueryLimits, who: Principal, log: seq<Entry>, page: Page)
    requires ParseLogQuery(params, l).Ok? && who.clientId != ""
    requires var q := ScopeQuery(ParseLogQuery(params, l).value, who, params); IsPageOf(page, Matching(m, q), log, q)
    ensures IsPageOf(page, (e: Entry) => InScope(who, params, e) && Asks(m, params, e), log, ParseLogQuery(params, l).value)
  {
    var q := ScopeQuery(ParseLogQuery(params, l).value, who, params);
    forall i | 0 <= i < |log| ensures Matching(m, q)(log[i]) == (InScope(who, params, log[i]) && Asks(m, params, log[i])) {
      MatchesExactly(m, params, l, who, log[i]);
    }
    PageOfAgrees(page, Matching(m, q), (e: Entry) => InScope(who, params, e) && Asks(m, params, e), log, q);
  }

  lemma {:induction false} FilterKeeps(p: Entry -> bool, s: seq<Entry>)
    ensures forall i :: 0 <= i < |Filter(p, s)| ==> p(Filter(p, s)[i])
  {
    if s != [] {
      FilterKeeps(p, s[..|s| - 1]);
    }
  }

  lemma PageMatches(p: Entry -> bool, log: seq<Entry>, q: LogQuery)
    requires Bounded(q)
    ensures forall i :: 0 <= i < |PageOf(p, log, q).items| ==> p(PageOf(p, log, q).items[i])
  {
    FilterKeeps(MatchPast(p, q.after), log);
  }
}
