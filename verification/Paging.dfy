/** Paged reads: one specification of a page, and the file scan that implements it
    (FileStore.QueryLogs, cmd/server/main.go). */
module Paging {
  import opened Strings
  import opened Codecs
  import opened Verify
  import opened Positions

  datatype LogQuery = LogQuery(clientId: string, app: string, level: string, text: string,
                               limit: int, offset: int, after: nat, wantTotal: bool)

  /** One page.  The next cursor is kept as the index it encodes; CursorWalk renders and parses its text. */
  datatype Page = Page(items: seq<Entry>, limit: int, nextCursor: Option<nat>,
                       total: Option<nat>, offset: Option<int>)

  /** parseLogQuery hands the stores nothing else. */
  predicate Bounded(q: LogQuery) { q.limit > 0 && q.offset >= 0 && q.after <= MAX_INT64 }

  // ----- Sequences -----

  function Filter<T>(p: T -> bool, s: seq<T>): (r: seq<T>)
    ensures |r| <= |s|
  {
    if s == [] then [] else
    var last := s[|s| - 1];
    var r := Filter(p, s[..|s| - 1]);
    if p(last) then r + [last] else r
  }

  function Take<T>(s: seq<T>, n: nat): seq<T> { if n <= |s| then s[..n] else s }

  function Drop<T>(s: seq<T>, n: nat): seq<T> { if n <= |s| then s[n..] else [] }

  lemma {:induction false} FilterConcat<T>(p: T -> bool, a: seq<T>, b: seq<T>)
    ensures Filter(p, a + b) == Filter(p, a) + Filter(p, b)
  {
    if b == [] {
      assert a + b == a;
    } else {
      assert (a + b)[..|a + b| - 1] == a + b[..|b| - 1];
      FilterConcat(p, a, b[..|b| - 1]);
    }
  }

  /** Two predicates that agree on a sequence filter it alike. */
  lemma {:induction false} FilterAgrees<T>(p: T -> bool, p': T -> bool, s: seq<T>)
    requires forall i :: 0 <= i < |s| ==> p(s[i]) == p'(s[i])
    ensures Filter(p, s) == Filter(p', s)
  {
    if s != [] {
      FilterAgrees(p, p', s[..|s| - 1]);
    }
  }

  lemma {:induction false} FilterTwice<T>(p: T -> bool, p': T -> bool, both: T -> bool, s: seq<T>)
    requires forall i :: 0 <= i < |s| ==> both(s[i]) == (p(s[i]) && p'(s[i]))
    ensures Filter(both, s) == Filter(p', Filter(p, s))
  {
    if s != [] {
      var init, x := s[..|s| - 1], s[|s| - 1];
      FilterTwice(p, p', both, init);
      if p(x) {
        assert (Filter(p, init) + [x])[..|Filter(p, init)|] == Filter(p, init);
      }
    }
  }

  // ----- The specification -----

  function Past(after: nat): Entry -> bool { (e: Entry) => e.index > after }

  /** The matching entries beyond the cursor. */
  function Remaining(p: Entry -> bool, log: seq<Entry>, after: nat): seq<Entry> {
    Filter(MatchPast(p, after), log)
  }

  function MatchPast(p: Entry -> bool, after: nat): Entry -> bool { (e: Entry) => p(e) && e.index > after }

  lemma RemainingIsFiltered(p: Entry -> bool, log: seq<Entry>, after: nat)
    ensures Remaining(p, log, after) == Filter(Past(after), Filter(p, log))
  {
    FilterTwice(p, Past(after), MatchPast(p, after), log);
  }

  /** One page cut from the front of `rest`.  A next cursor is given exactly when something is left
      over, and names the last entry on the page. */
  function Cut(rest: seq<Entry>, matches: nat, q: LogQuery): Page
    requires Bounded(q)
  {
    Page(Take(rest, q.limit), q.limit,
         if |rest| > q.limit then Some(rest[q.limit - 1].index) else None,
         if q.wantTotal then Some(matches) else None,
         if q.offset > 0 then Some(q.offset) else None)
  }

  /** Filter by predicate, keep what lies past the cursor, drop offset, take limit; the total counts
      every match, whatever the cursor and offset. */
  function PageOf(p: Entry -> bool, log: seq<Entry>, q: LogQuery): Page
    requires Bounded(q)
  {
    Cut(Drop(Remaining(p, log, q.after), q.offset), |Filter(p, log)|, q)
  }

  /** Anything beyond one entry more than the page is irrelevant. */
  lemma CutNeedsOneMore(rest: seq<Entry>, rest': seq<Entry>, matches: nat, matches': nat, q: LogQuery)
    requires Bounded(q) && (q.wantTotal ==> matches == matches')
    requires Take(rest, q.limit + 1) == Take(rest', q.limit + 1)
    ensures Cut(rest, matches, q) == Cut(rest', matches', q)
  {
    var t := Take(rest, q.limit + 1);
    assert Take(rest, q.limit) == Take(t, q.limit) && Take(rest', q.limit) == Take(t, q.limit);
    assert |rest| > q.limit ==> t[q.limit - 1] == rest[q.limit - 1];
    assert |rest'| > q.limit ==> t[q.limit - 1] == rest'[q.limit - 1];
  }

  lemma RemainingConcat(p: Entry -> bool, a: seq<Entry>, b: seq<Entry>, after: nat)
    ensures Remaining(p, a + b, after) == Remaining(p, a, after) + Remaining(p, b, after)
  {
    FilterConcat(MatchPast(p, after), a, b);
  }

  /** Nothing after a full page and one more match can change an uncounted page. */
  lemma FullPageIsFinal(p: Entry -> bool, a: seq<Entry>, b: seq<Entry>, q: LogQuery)
    requires Bounded(q) && !q.wantTotal
    requires |Remaining(p, a, q.after)| > q.offset + q.limit
    ensures PageOf(p, a + b, q) == PageOf(p, a, q)
  {
    RemainingConcat(p, a, b, q.after);
    var r, r' := Remaining(p, a, q.after), Remaining(p, b, q.after);
    assert Take(Drop(r + r', q.offset), q.limit + 1) == Take(Drop(r, q.offset), q.limit + 1);
    CutNeedsOneMore(Drop(r + r', q.offset), Drop(r, q.offset), |Filter(p, a + b)|, |Filter(p, a)|, q);
  }

  // ----- What a page holds, by position -----

  lemma {:induction false} FilterCounts<T>(p: T -> bool, s: seq<T>, n: nat)
    requires n <= |s|
    ensures |Filter(p, s[..n])| == |Hits(p, s, n)|
    decreases n
  {
    if n > 0 {
      FilterCounts(p, s, n - 1);
      assert s[..n] == s[..n - 1] + [s[n - 1]];
      FilterSnoc(p, s[..n - 1], s[n - 1]);
      HitsStep(p, s, n);
    }
  }

  /** What is kept as number `k` is the element at the position with `k` hits before it. */
  lemma {:induction false} KeptAt<T>(p: T -> bool, s: seq<T>, n: nat, k: nat) returns (i: nat)
    requires n <= |s| && k < |Filter(p, s[..n])|
    ensures i < n && Nth(p, s, k, i) && s[i] == Filter(p, s[..n])[k]
    decreases n
  {
    if n > 0 {
      assert s[..n] == s[..n - 1] + [s[n - 1]];
      FilterSnoc(p, s[..n - 1], s[n - 1]);
      if k < |Filter(p, s[..n - 1])| {
        i := KeptAt(p, s, n - 1, k);
      } else {
        FilterCounts(p, s, n - 1);
        i := n - 1;
      }
    }
  }

  lemma WholeIsPrefix<T>(s: seq<T>)
    ensures s[..|s|] == s
  {
  }

  ghost predicate ItemIs<T>(p: T -> bool, s: seq<T>, offset: int, items: seq<T>, k: nat)
    requires k < |items|
  {
    HitIs(p, s, offset + k, items[k])
  }

  /** These are the hits from number `offset` on, as many as `limit` allows. */
  ghost predicate HitsFrom<T>(p: T -> bool, s: seq<T>, offset: int, limit: int, items: seq<T>) {
    var left := |Hits(p, s, |s|)| - offset;
    && |items| == (if left < 0 then 0 else if left < limit then left else limit)
    && forall k {:trigger ItemIs(p, s, offset, items, k)} :: 0 <= k < |items| ==> ItemIs(p, s, offset, items, k)
  }

  lemma HitsTaken<T>(p: T -> bool, s: seq<T>, offset: nat, limit: nat)
    ensures HitsFrom(p, s, offset, limit, Take(Drop(Filter(p, s), offset), limit))
    ensures |Filter(p, s)| == |Hits(p, s, |s|)|
  {
    WholeIsPrefix(s);
    FilterCounts(p, s, |s|);
    var items := Take(Drop(Filter(p, s), offset), limit);
    forall k | 0 <= k < |items| ensures ItemIs(p, s, offset, items, k) {
      var i := KeptAt(p, s, |s|, offset + k);
    }
  }

  ghost function Beyond(p: Entry -> bool, after: nat): Entry -> bool { (e: Entry) => p(e) && e.index > after }

  /** A page by position, and nothing else of the specification: its items are the matches past the
      cursor from number `offset` on, as many as the limit allows; a next cursor is given exactly when one
      more is left, and is the index of the last item; the total counts the matching positions, whatever
      cursor and offset. */
  ghost predicate IsPageOf(page: Page, p: Entry -> bool, log: seq<Entry>, q: LogQuery) {
    var past := Beyond(p, q.after);
    && HitsFrom(past, log, q.offset, q.limit, page.items)
    && page.limit == q.limit
    && page.nextCursor == (if |page.items| > 0 && |Hits(past, log, |log|)| > q.offset + q.limit
                           then Some(page.items[|page.items| - 1].index) else None)
    && page.total == (if q.wantTotal then Some(|Hits(p, log, |log|)|) else None)
    && page.offset == (if q.offset > 0 then Some(q.offset) else None)
  }

  /** Predicates that agree on the log have the same pages. */
  lemma PageOfAgrees(page: Page, p: Entry -> bool, p': Entry -> bool, log: seq<Entry>, q: LogQuery)
    requires IsPageOf(page, p, log, q) && forall i :: 0 <= i < |log| ==> p(log[i]) == p'(log[i])
    ensures IsPageOf(page, p', log, q)
  {
    var past, past' := Beyond(p, q.after), Beyond(p', q.after);
    forall n: nat | n <= |log| ensures Hits(past, log, n) == Hits(past', log, n) && Hits(p, log, n) == Hits(p', log, n) {
    }
    forall k | 0 <= k < |page.items| ensures ItemIs(past', log, q.offset, page.items, k) {
      assert ItemIs(past, log, q.offset, page.items, k);
      var i: nat :| Nth(past, log, q.offset + k, i) && log[i] == page.items[k];
      assert Nth(past', log, q.offset + k, i);
    }
  }

  /** The specified page is the page by position. */
  lemma PageByPosition(p: Entry -> bool, log: seq<Entry>, q: LogQuery)
    requires Bounded(q)
    ensures IsPageOf(PageOf(p, log, q), p, log, q)
  {
    var past := Beyond(p, q.after);
    FilterAgrees(MatchPast(p, q.after), past, log);
    HitsTaken(past, log, q.offset, q.limit);
    WholeIsPrefix(log);
    FilterCounts(p, log, |log|);
  }

  // ----- Reading the file -----

  /** The entries up to the first line that is not JSON, and whether the whole file was read. */
  datatype Contents = Contents(entries: seq<Entry>, clean: bool)

  function ReadEntries(c: Codec, lines: seq<string>): Contents {
    if lines == [] then Contents([], true) else
    var sofar := ReadEntries(c, lines[..|lines| - 1]);
    if !sofar.clean then sofar else
    match c.readLine(lines[|lines| - 1])
    case Blank => sofar
    case Garbled => Contents(sofar.entries, false)
    case Parsed(e) => Contents(sofar.entries + [e], true)
  }

  predicate HoldsEntry(c: Codec, line: string) { c.readLine(line).Parsed? }

  /** `e` is what line hit number `k` decodes to. */
  ghost predicate EntryOfLine(c: Codec, lines: seq<string>, end: nat, k: int, e: Entry)
    requires end <= |lines|
  {
    exists i: nat :: i < end && Nth(line => HoldsEntry(c, line), lines, k, i) && c.readLine(lines[i]) == Parsed(e)
  }

  /** These are the entries of the lines before `end`, one for each that is not blank. */
  ghost predicate EntriesOfLines(c: Codec, lines: seq<string>, end: nat, entries: seq<Entry>) {
    && end <= |lines| && (forall i :: 0 <= i < end ==> !c.readLine(lines[i]).Garbled?)
    && |entries| == |Hits(line => HoldsEntry(c, line), lines, end)|
    && forall k {:trigger EntryOfLine(c, lines, end, k, entries[k])} :: 0 <= k < |entries| ==> EntryOfLine(c, lines, end, k, entries[k])
  }

  /** Reading line by line: every line that is not blank gives its entry, up to the first that is not
      JSON, which is what makes the contents unclean. */
  lemma ReadByLine(c: Codec, lines: seq<string>) returns (end: nat)
    ensures EntriesOfLines(c, lines, end, ReadEntries(c, lines).entries)
    ensures if ReadEntries(c, lines).clean then end == |lines| else end < |lines| && c.readLine(lines[end]).Garbled?
  {
    end := 0;
    FirstLines(c, lines, 0);
    while end < |lines| && !c.readLine(lines[end]).Garbled?
      invariant end <= |lines| && ReadEntries(c, lines[..end]).clean
      invariant EntriesOfLines(c, lines, end, ReadEntries(c, lines[..end]).entries)
    {
      LineRead(c, lines, end);
      end := end + 1;
    }
    WholeIsPrefix(lines);
    if end < |lines| {
      assert lines[..end + 1][..end] == lines[..end];
      ReadEntriesGrows(c, lines, end + 1);
    }
  }

  lemma FirstLines(c: Codec, lines: seq<string>, end: nat)
    requires end == 0
    ensures ReadEntries(c, lines[..end]).clean && EntriesOfLines(c, lines, end, ReadEntries(c, lines[..end]).entries)
  {
  }

  lemma LineRead(c: Codec, lines: seq<string>, end: nat)
    requires end < |lines| && !c.readLine(lines[end]).Garbled? && ReadEntries(c, lines[..end]).clean
    requires EntriesOfLines(c, lines, end, ReadEntries(c, lines[..end]).entries)
    ensures ReadEntries(c, lines[..end + 1]).clean && EntriesOfLines(c, lines, end + 1, ReadEntries(c, lines[..end + 1]).entries)
  {
    var before, after := ReadEntries(c, lines[..end]).entries, ReadEntries(c, lines[..end + 1]).entries;
    assert lines[..end + 1][..end] == lines[..end];
    HitsStep(line => HoldsEntry(c, line), lines, end + 1);
    assert after == if c.readLine(lines[end]).Parsed? then before + [c.readLine(lines[end]).entry] else before;
    forall k | 0 <= k < |after| ensures EntryOfLine(c, lines, end + 1, k, after[k]) {
      if k < |before| {
        assert EntryOfLine(c, lines, end, k, before[k]);
      } else {
        assert Nth(line => HoldsEntry(c, line), lines, k, end);
      }
    }
  }

  lemma {:induction false} ReadEntriesGrows(c: Codec, lines: seq<string>, n: nat)
    requires n <= |lines|
    ensures ReadEntries(c, lines[..n]).entries <= ReadEntries(c, lines).entries
    ensures !ReadEntries(c, lines[..n]).clean ==> ReadEntries(c, lines) == ReadEntries(c, lines[..n])
  {
    if n == |lines| {
      assert lines[..n] == lines;
    } else {
      assert lines[..|lines| - 1][..n] == lines[..n];
      ReadEntriesGrows(c, lines[..|lines| - 1], n);
    }
  }

  /** The scan's answer: the specified page, or an error when a garbled line is reached, which the
      early exit avoids exactly when the page and one more match come first and no total is wanted. */
  function ScanAnswer(p: Entry -> bool, file: Contents, q: LogQuery): Result<Page>
    requires Bounded(q)
  {
    if !file.clean && (q.wantTotal || |Remaining(p, file.entries, q.after)| <= q.offset + q.limit) then Err(BAD_JSON)
    else Ok(PageOf(p, file.entries, q))
  }

  /** How many positions meet `p` past the cursor. */
  ghost function MatchesPast(p: Entry -> bool, log: seq<Entry>, after: nat): nat {
    |Hits(Beyond(p, after), log, |log|)|
  }

  /** The answer by position: the page, or an error exactly when a line that is not JSON is reached, which
      needs a total to be wanted or no match to be left after the page. */
  lemma ScanByPosition(p: Entry -> bool, file: Contents, q: LogQuery)
    requires Bounded(q)
    ensures var r := ScanAnswer(p, file, q);
            && (r.Ok? ==> IsPageOf(r.value, p, file.entries, q))
            && (r.Err? <==> !file.clean && (q.wantTotal || MatchesPast(p, file.entries, q.after) <= q.offset + q.limit))
  {
    var past := Beyond(p, q.after);
    FilterAgrees(MatchPast(p, q.after), past, file.entries);
    WholeIsPrefix(file.entries);
    FilterCounts(past, file.entries, |file.entries|);
    PageByPosition(p, file.entries, q);
  }

  /** The loop's variables, and what they hold after each entry read so far. */
  datatype Tally = Tally(items: seq<Entry>, total: nat, skipped: nat, hasMore: bool)

  function Absorb(p: Entry -> bool, q: LogQuery, t: Tally, e: Entry): Tally {
    if !p(e) then t else
    var t := t.(total := t.total + 1);
    if e.index <= q.after then t
    else if t.skipped < q.offset then t.(skipped := t.skipped + 1)
    else if |t.items| < q.limit then t.(items := t.items + [e])
    else t.(hasMore := true)
  }

  function Gather(p: Entry -> bool, q: LogQuery, entries: seq<Entry>, n: nat): Tally
    requires n <= |entries|
  {
    if n == 0 then Tally([], 0, 0, false) else Absorb(p, q, Gather(p, q, entries, n - 1), entries[n - 1])
  }

  /** The four variables in terms of the specification: `rem` remain past the cursor out of
      `matches` in all. */
  function TallyOf(q: LogQuery, rem: seq<Entry>, matches: nat): Tally
    requires Bounded(q)
  {
    Tally(Take(Drop(rem, q.offset), q.limit), matches,
          if |rem| <= q.offset then |rem| else q.offset, |rem| > q.offset + q.limit)
  }

  lemma TallyStep(p: Entry -> bool, q: LogQuery, rem: seq<Entry>, matches: nat, e: Entry)
    requires Bounded(q) && p(e)
    ensures Absorb(p, q, TallyOf(q, rem, matches), e)
            == TallyOf(q, if e.index > q.after then rem + [e] else rem, matches + 1)
  {
    if q.offset <= |rem| {
      assert Drop(rem + [e], q.offset) == Drop(rem, q.offset) + [e];
    }
  }

  lemma FilterSnoc<T>(p: T -> bool, s: seq<T>, x: T)
    ensures Filter(p, s + [x]) == if p(x) then Filter(p, s) + [x] else Filter(p, s)
  {
    assert (s + [x])[..|s|] == s;
  }

  lemma RemainingSnoc(p: Entry -> bool, log: seq<Entry>, e: Entry, after: nat)
    ensures Remaining(p, log + [e], after) == if p(e) && e.index > after then Remaining(p, log, after) + [e] else Remaining(p, log, after)
  {
    FilterSnoc(MatchPast(p, after), log, e);
  }

  lemma {:induction false} Gathered(p: Entry -> bool, q: LogQuery, entries: seq<Entry>, n: nat)
    requires Bounded(q) && n <= |entries|
    ensures Gather(p, q, entries, n) == TallyOf(q, Remaining(p, entries[..n], q.after), |Filter(p, entries[..n])|)
  {
    if n > 0 {
      var init, e := entries[..n - 1], entries[n - 1];
      assert entries[..n] == init + [e];
      Gathered(p, q, entries, n - 1);
      FilterSnoc(p, init, e);
      RemainingSnoc(p, init, e, q.after);
      if p(e) {
        TallyStep(p, q, Remaining(p, init, q.after), |Filter(p, init)|, e);
      }
    }
  }

  /** The result assembled from the loop's variables. */
  function Assemble(q: LogQuery, t: Tally): Page {
    Page(t.items, q.limit,
         if t.hasMore && |t.items| > 0 then Some(t.items[|t.items| - 1].index) else None,
         if q.wantTotal then Some(t.total) else None, if q.offset > 0 then Some(q.offset) else None)
  }

  lemma AssembledPage(p: Entry -> bool, q: LogQuery, entries: seq<Entry>, n: nat)
    requires Bounded(q) && n <= |entries|
    ensures Assemble(q, Gather(p, q, entries, n)) == PageOf(p, entries[..n], q)
  {
    Gathered(p, q, entries, n);
  }

  /** The loop may stop after `n` entries at the end of the file, and also as soon as there is more and
      no total is wanted. */
  lemma ScanEnds(p: Entry -> bool, q: LogQuery, file: Contents, n: nat)
    requires Bounded(q) && n <= |file.entries|
    requires (Gather(p, q, file.entries, n).hasMore && !q.wantTotal) || (n == |file.entries| && file.clean)
    ensures ScanAnswer(p, file, q) == Ok(Assemble(q, Gather(p, q, file.entries, n)))
  {
    AssembledPage(p, q, file.entries, n);
    var seen, more := file.entries[..n], file.entries[n..];
    assert file.entries == seen + more;
    if n == |file.entries| && file.clean {
      assert seen == file.entries;
    } else {
      Gathered(p, q, file.entries, n);
      FullPageIsFinal(p, seen, more, q);
      RemainingConcat(p, seen, more, q.after);
    }
  }

  lemma GarbledLineIsFatal(p: Entry -> bool, q: LogQuery, entries: seq<Entry>)
    requires Bounded(q) && (Gather(p, q, entries, |entries|).hasMore ==> q.wantTotal)
    ensures ScanAnswer(p, Contents(entries, false), q) == Err(BAD_JSON)
  {
    Gathered(p, q, entries, |entries|);
    assert entries[..|entries|] == entries;
  }

  /** What line `i` adds, when the lines before it gave the first `n` entries of the file. */
  lemma NextEntry(c: Codec, lines: seq<string>, i: nat, n: nat)
    requires i < |lines| && n <= |ReadEntries(c, lines).entries|
    requires ReadEntries(c, lines[..i]) == Contents(ReadEntries(c, lines).entries[..n], true)
    ensures var entries := ReadEntries(c, lines).entries;
            match c.readLine(lines[i])
            case Blank => ReadEntries(c, lines[..i + 1]) == Contents(entries[..n], true)
            case Garbled => n == |entries| && !ReadEntries(c, lines).clean
            case Parsed(e) => n < |entries| && entries[n] == e && ReadEntries(c, lines[..i + 1]) == Contents(entries[..n + 1], true)
  {
    assert lines[..i + 1][..i] == lines[..i] && lines[..i + 1][i] == lines[i];
    ReadEntriesGrows(c, lines, i + 1);
    var entries := ReadEntries(c, lines).entries;
    var line := c.readLine(lines[i]);
    if line.Parsed? {
      var more := entries[..n] + [line.entry];
      assert more <= entries && more[n] == line.entry && |more| == n + 1;
      assert entries[..n + 1] == more;
    }
  }

  lemma AllRead(c: Codec, lines: seq<string>, n: nat)
    requires n <= |ReadEntries(c, lines).entries|
    requires ReadEntries(c, lines[..|lines|]) == Contents(ReadEntries(c, lines).entries[..n], true)
    ensures n == |ReadEntries(c, lines).entries| && ReadEntries(c, lines).clean
  {
    assert lines[..|lines|] == lines;
    assert |ReadEntries(c, lines).entries[..n]| == n;
  }

  /** The entries read so far and what the loop's variables hold of them. */
  ghost predicate Scanned(c: Codec, p: Entry -> bool, q: LogQuery, lines: seq<string>, i: nat, n: nat, t: Tally)
    requires i <= |lines|
  {
    var entries := ReadEntries(c, lines).entries;
    n <= |entries| && ReadEntries(c, lines[..i]) == Contents(entries[..n], true) && t == Gather(p, q, entries, n)
  }

  lemma ScanStep(c: Codec, p: Entry -> bool, q: LogQuery, lines: seq<string>, i: nat, n: nat, t: Tally)
    requires i < |lines| && Scanned(c, p, q, lines, i, n, t)
    ensures match c.readLine(lines[i])
            case Blank => Scanned(c, p, q, lines, i + 1, n, t)
            case Garbled => n == |ReadEntries(c, lines).entries| && !ReadEntries(c, lines).clean
            case Parsed(e) => Scanned(c, p, q, lines, i + 1, n + 1, Absorb(p, q, t, e))
  {
    NextEntry(c, lines, i, n);
  }

  /** What the loop's body does with one decoded entry. */
  method Consider(p: Entry -> bool, q: LogQuery, t: Tally, entry: Entry) returns (t': Tally)
    requires Bounded(q)
    ensures t' == Absorb(p, q, t, entry)
  {
    var items, total, skipped, hasMore := t.items, t.total, t.skipped, t.hasMore;
    if !p(entry) {
      return t;
    }
    total := total + 1;
    if entry.index <= q.after {
      return Tally(items, total, skipped, hasMore);
    }
    if skipped < q.offset {
      skipped := skipped + 1;
      return Tally(items, total, skipped, hasMore);
    }
    if |items| < q.limit {
      items := items + [entry];
      return Tally(items, total, skipped, hasMore);
    }
    hasMore := true;
    return Tally(items, total, skipped, hasMore);
  }

  method Scan(c: Codec, p: Entry -> bool, lines: seq<string>, q: LogQuery) returns (r: Result<Page>)
    requires Bounded(q)
    ensures r == ScanAnswer(p, ReadEntries(c, lines), q)
  {
    var t := Tally([], 0, 0, false);
    ghost var file, n := ReadEntries(c, lines), 0;
    var i := 0;
    while i < |lines|
      invariant 0 <= i <= |lines| && 0 <= n && Scanned(c, p, q, lines, i, n, t)
      invariant t.hasMore ==> q.wantTotal
    {
      var line := c.readLine(lines[i]);
      ScanStep(c, p, q, lines, i, n, t);
      i := i + 1;
      if line.Blank? {
        continue;
      }
      if line.Garbled? {
        GarbledLineIsFatal(p, q, file.entries);
        return Err(BAD_JSON);
      }
      t := Consider(p, q, t, line.entry);
      n := n + 1;
      if t.hasMore && !q.wantTotal {
        ScanEnds(p, q, file, n);
        return Ok(Assemble(q, t));
      }
    }
    AllRead(c, lines, n);
    ScanEnds(p, q, file, n);
    return Ok(Assemble(q, t));
  }
  /** The scan, with what its answer holds by position. */
  method ScanFile(c: Codec, p: Entry -> bool, lines: seq<string>, q: LogQuery) returns (r: Result<Page>)
    requires Bounded(q)
    ensures r == ScanAnswer(p, ReadEntries(c, lines), q)
    ensures r.Ok? ==> IsPageOf(r.value, p, ReadEntries(c, lines).entries, q)
    ensures r.Err? <==> !ReadEntries(c, lines).clean && (q.wantTotal || MatchesPast(p, ReadEntries(c, lines).entries, q.after) <= q.offset + q.limit)
  {
    r := Scan(c, p, lines, q);
    ScanByPosition(p, ReadEntries(c, lines), q);
  }
}
