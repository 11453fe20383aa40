/** A client following nextCursor from page to page while others keep appending. */
module CursorWalk {
  import opened Strings
  import opened Codecs
  import opened Verify
  import opened Paging

  /** One page request: the log it happens to see and the page size it asks for. */
  datatype Visit = Visit(log: seq<Entry>, limit: int)

  datatype Outcome = Finished | Unfinished | Rejected

  datatype Walked = Walked(items: seq<Entry>, pages: nat, outcome: Outcome)

  predicate Below(s: seq<Entry>, bound: nat) { forall i :: 0 <= i < |s| ==> s[i].index < bound }

  /** Strictly ascending indexes. */
  predicate Ascending(s: seq<Entry>) {
    s == [] || (Ascending(s[..|s| - 1]) && Below(s[..|s| - 1], s[|s| - 1].index))
  }

  predicate Fit(visits: seq<Visit>, i: nat)
    requires i < |visits|
  {
    Ascending(visits[i].log) && Below(visits[i].log, MAX_INT64 + 1)
  }

  predicate Before(visits: seq<Visit>, i: nat, j: nat)
    requires i < |visits| && j < |visits|
  {
    visits[i].log <= visits[j].log
  }

  /** What append-only storage lets successive requests see. */
  predicate Growing(visits: seq<Visit>) {
    && (forall i :: 0 <= i < |visits| ==> visits[i].limit > 0)
    && (forall i {:trigger Fit(visits, i)} :: 0 <= i < |visits| ==> Fit(visits, i))
    && (forall i, j {:trigger Before(visits, i, j)} :: 0 <= i <= j < |visits| ==> Before(visits, i, j))
  }

  function At(q: LogQuery, limit: int, after: nat): LogQuery { q.(limit := limit, offset := 0, after := after) }

  /** What becomes of a cursor that is sent to the client as text and comes back: None if refused. */
  type Relay = nat -> Option<nat>

  function CursorText(): Relay { (index: nat) => DecodeCursor(EncodeCursor(index)) }

  ghost predicate Faithful(relay: Relay) { forall i: nat :: i <= MAX_INT64 ==> relay(i) == Some(i) }

  lemma CursorTextFaithful()
    ensures Faithful(CursorText())
  {
    forall i: nat | i <= MAX_INT64 ensures CursorText()(i) == Some(i) {
      CursorRoundTrip(i);
    }
  }

  /** What request `i` with this cursor is answered: a page, or None for an error. */
  type Answers = (nat, Option<nat>) -> Option<Page>

  function After(cursor: Option<nat>): nat { if cursor.None? then 0 else cursor.value }

  /** The walk from request `i` to `n`: each carries the cursor of the page before; an error or a refused
      cursor ends it. */
  function Walk(answers: Answers, relay: Relay, i: nat, n: nat, cursor: Option<nat>): Walked
    requires i <= n
    decreases n - i
  {
    if i == n then Walked([], 0, Unfinished) else
    var page := answers(i, cursor);
    if page.None? then Walked([], 1, Rejected)
    else if page.value.nextCursor.None? then Walked(page.value.items, 1, Finished) else
    var next := relay(page.value.nextCursor.value);
    if next.None? then Walked(page.value.items, 1, Rejected) else
    var rest := Walk(answers, relay, i + 1, n, next);
    Walked(page.value.items + rest.items, 1 + rest.pages, rest.outcome)
  }

  /** Request `i` is answered with the page that its visit specifies. */
  ghost predicate AnswersVisit(answers: Answers, p: Entry -> bool, q: LogQuery, visits: seq<Visit>, i: nat)
    requires i < |visits| && visits[i].limit > 0
  {
    forall cursor: Option<nat> {:trigger answers(i, cursor)} :: After(cursor) <= MAX_INT64 ==>
      answers(i, cursor) == Some(PageOf(p, visits[i].log, At(q, visits[i].limit, After(cursor))))
  }

  ghost predicate AnswersAll(answers: Answers, p: Entry -> bool, q: LogQuery, visits: seq<Visit>)
    requires Growing(visits)
  {
    forall i {:trigger AnswersVisit(answers, p, q, visits, i)} :: 0 <= i < |visits| ==> AnswersVisit(answers, p, q, visits, i)
  }

  // ----- Ascending sequences -----

  lemma {:induction false} FilterBelow(p: Entry -> bool, s: seq<Entry>, bound: nat)
    requires Below(s, bound)
    ensures Below(Filter(p, s), bound)
  {
    if s != [] {
      FilterBelow(p, s[..|s| - 1], bound);
    }
  }

  lemma {:induction false} FilterAscending(p: Entry -> bool, s: seq<Entry>)
    requires Ascending(s)
    ensures Ascending(Filter(p, s))
  {
    if s != [] {
      var n := |s| - 1;
      FilterAscending(p, s[..n]);
      FilterBelow(p, s[..n], s[n].index);
      if p(s[n]) {
        var kept := Filter(p, s[..n]);
        assert (kept + [s[n]])[..|kept|] == kept;
      }
    }
  }

  /** Past an entry of an ascending sequence lies exactly what follows it. */
  lemma {:induction false} FilterPast(s: seq<Entry>, k: nat)
    requires Ascending(s) && 1 <= k <= |s|
    ensures Filter(Past(s[k - 1].index), s) == s[k..]
  {
    var n := |s| - 1;
    if k < |s| {
      assert s[..n][k - 1] == s[k - 1];
      FilterPast(s[..n], k);
      assert s[..n][k..] + [s[n]] == s[k..];
    } else {
      NonePast(s[..n], s[n].index);
    }
  }

  lemma {:induction false} NonePast(s: seq<Entry>, bound: nat)
    requires Below(s, bound)
    ensures Filter(Past(bound), s) == []
  {
    if s != [] {
      NonePast(s[..|s| - 1], bound);
    }
  }

  lemma {:induction false} PastTwice(s: seq<Entry>, a: nat, b: nat)
    requires a <= b
    ensures Filter(Past(b), Filter(Past(a), s)) == Filter(Past(b), s)
  {
    if s != [] {
      var init, e := s[..|s| - 1], s[|s| - 1];
      PastTwice(init, a, b);
      if e.index > a {
        var kept := Filter(Past(a), init);
        assert (kept + [e])[..|kept|] == kept;
      }
    }
  }

  lemma {:induction false} FilteredPast(s: seq<Entry>, after: nat, i: nat)
    requires i < |Filter(Past(after), s)|
    ensures Filter(Past(after), s)[i].index > after
  {
    var n := |s| - 1;
    if i < |Filter(Past(after), s[..n])| {
      FilteredPast(s[..n], after, i);
    }
  }

  /** Moving the cursor to the k-th remaining match leaves the matches after it. */
  lemma RemainingAfter(p: Entry -> bool, log: seq<Entry>, after: nat, k: nat)
    requires Ascending(log) && 1 <= k <= |Remaining(p, log, after)|
    ensures var rem := Remaining(p, log, after);
            rem[k - 1].index > after && Remaining(p, log, rem[k - 1].index) == rem[k..]
  {
    var rem := Remaining(p, log, after);
    FilterAscending(p, log);
    RemainingIsFiltered(p, log, after);
    AfterKth(Filter(p, log), after, k);
    RemainingIsFiltered(p, log, rem[k - 1].index);
  }

  lemma AfterKth(s: seq<Entry>, after: nat, k: nat)
    requires Ascending(s) && 1 <= k <= |Filter(Past(after), s)|
    ensures var rem := Filter(Past(after), s);
            rem[k - 1].index > after && Filter(Past(rem[k - 1].index), s) == rem[k..]
  {
    var rem := Filter(Past(after), s);
    FilteredPast(s, after, k - 1);
    FilterAscending(Past(after), s);
    FilterPast(rem, k);
    PastTwice(s, after, rem[k - 1].index);
  }

  // ----- Pages -----

  lemma RemainingGrows(p: Entry -> bool, log: seq<Entry>, later: seq<Entry>, after: nat)
    requires log <= later
    ensures Remaining(p, log, after) <= Remaining(p, later, after)
  {
    assert later == log + later[|log|..];
    RemainingConcat(p, log, later[|log|..], after);
  }

  lemma RemainingFits(p: Entry -> bool, log: seq<Entry>, after: nat, i: nat)
    requires Below(log, MAX_INT64 + 1) && i < |Remaining(p, log, after)|
    ensures Remaining(p, log, after)[i].index <= MAX_INT64
  {
    FilterBelow(MatchPast(p, after), log, MAX_INT64 + 1);
  }

  /** In every later log the matches split into a full page and what lies past its last entry. */
  lemma RemainingSplits(p: Entry -> bool, visit: Visit, later: seq<Entry>, after: nat)
    requires visit.limit > 0 && visit.log <= later && Ascending(later)
    requires |Remaining(p, visit.log, after)| > visit.limit
    ensures var rem := Remaining(p, visit.log, after);
            Remaining(p, later, after) == rem[..visit.limit] + Remaining(p, later, rem[visit.limit - 1].index)
  {
    var rem, all := Remaining(p, visit.log, after), Remaining(p, later, after);
    RemainingGrows(p, visit.log, later, after);
    RemainingAfter(p, later, after, visit.limit);
    assert all == all[..visit.limit] + all[visit.limit..];
    assert all[..visit.limit] == rem[..visit.limit];
  }

  /** One page of a walk: the rest of the matches, or a full page that ends at its cursor. */
  predicate IsPage(page: Page, rem: seq<Entry>, limit: int)
    requires limit > 0
  {
    && (|rem| <= limit ==> page.nextCursor.None? && page.items == rem)
    && (|rem| > limit ==> page.nextCursor == Some(rem[limit - 1].index) && page.items == rem[..limit])
  }

  lemma PlainPage(p: Entry -> bool, log: seq<Entry>, q: LogQuery, limit: int, after: nat)
    requires limit > 0 && after <= MAX_INT64
    ensures IsPage(PageOf(p, log, At(q, limit, after)), Remaining(p, log, after), limit)
  {
    var rem := Remaining(p, log, after);
    assert Drop(rem, 0) == rem && (|rem| <= limit ==> Take(rem, limit) == rem);
  }

  lemma Answered(answers: Answers, p: Entry -> bool, q: LogQuery, visits: seq<Visit>, i: nat, cursor: Option<nat>)
    requires Growing(visits) && AnswersAll(answers, p, q, visits) && i < |visits| && After(cursor) <= MAX_INT64
    ensures answers(i, cursor).Some? && IsPage(answers(i, cursor).value, Remaining(p, visits[i].log, After(cursor)), visits[i].limit)
    ensures var next := answers(i, cursor).value.nextCursor; next.Some? ==> next.value <= MAX_INT64
  {
    assert AnswersVisit(answers, p, q, visits, i) && Fit(visits, i);
    PlainPage(p, visits[i].log, q, visits[i].limit, After(cursor));
    if |Remaining(p, visits[i].log, After(cursor))| > visits[i].limit {
      RemainingFits(p, visits[i].log, After(cursor), visits[i].limit - 1);
    }
  }

  /** A full page and the matches past its cursor, in a log seen later, are the matches in that log. */
  lemma PageThenRest(p: Entry -> bool, visits: seq<Visit>, i: nat, j: nat, after: nat, page: Page)
    requires Growing(visits) && i <= j < |visits| && page.nextCursor.Some?
    requires IsPage(page, Remaining(p, visits[i].log, after), visits[i].limit)
    ensures page.items + Remaining(p, visits[j].log, page.nextCursor.value) == Remaining(p, visits[j].log, after)
    ensures page.items != []
  {
    assert Before(visits, i, j) && Fit(visits, j);
    RemainingSplits(p, visits[i], visits[j].log, after);
  }

  // ----- Whole walks -----

  /** A walk that ends has returned exactly the matches, past its start, of the log that its last page
      saw: nothing twice, nothing skipped, in index order, whatever was appended in between and
      however the page size changed.  No cursor it was given is ever refused. */
  lemma {:induction false} WalkIsComplete(answers: Answers, relay: Relay, p: Entry -> bool, q: LogQuery, visits: seq<Visit>, i: nat, cursor: Option<nat>)
    requires Faithful(relay) && Growing(visits) && AnswersAll(answers, p, q, visits) && i <= |visits| && After(cursor) <= MAX_INT64
    ensures var w := Walk(answers, relay, i, |visits|, cursor);
            && w.outcome != Rejected && i + w.pages <= |visits|
            && (w.outcome == Finished ==>
                  w.pages > 0 && w.items == Remaining(p, visits[i + w.pages - 1].log, After(cursor)))
    decreases |visits| - i
  {
    if i < |visits| {
      Answered(answers, p, q, visits, i, cursor);
      var page := answers(i, cursor).value;
      if page.nextCursor.Some? {
        WalkIsComplete(answers, relay, p, q, visits, i + 1, page.nextCursor);
        var rest := Walk(answers, relay, i + 1, |visits|, page.nextCursor);
        if rest.outcome == Finished {
          PageThenRest(p, visits, i, i + rest.pages, After(cursor), page);
        }
      }
    }
  }

  /** A walk ends as soon as it has made as many requests as the newest log has matches, and at least
      one: every page but the last moves on by a full page and leaves something behind. */
  lemma {:induction false} WalkEnds(answers: Answers, relay: Relay, p: Entry -> bool, q: LogQuery, visits: seq<Visit>, i: nat, cursor: Option<nat>)
    requires Faithful(relay) && Growing(visits) && AnswersAll(answers, p, q, visits) && i < |visits| && After(cursor) <= MAX_INT64
    requires |visits| - i >= |Remaining(p, visits[|visits| - 1].log, After(cursor))|
    ensures Walk(answers, relay, i, |visits|, cursor).outcome == Finished
    decreases |visits| - i
  {
    Answered(answers, p, q, visits, i, cursor);
    var page := answers(i, cursor).value;
    if page.nextCursor.Some? {
      PageThenRest(p, visits, i, |visits| - 1, After(cursor), page);
      if i == |visits| - 1 {
        LastPageLeaves(p, visits, After(cursor), page);
      }
      WalkEnds(answers, relay, p, q, visits, i + 1, page.nextCursor);
    }
  }

  lemma LastPageLeaves(p: Entry -> bool, visits: seq<Visit>, after: nat, page: Page)
    requires Growing(visits) && visits != [] && page.nextCursor.Some?
    requires IsPage(page, Remaining(p, visits[|visits| - 1].log, after), visits[|visits| - 1].limit)
    ensures |Remaining(p, visits[|visits| - 1].log, after)| > 1
  {
  }

  /** From the start that is the whole set of matches. */
  lemma WalkFromStart(answers: Answers, relay: Relay, p: Entry -> bool, q: LogQuery, visits: seq<Visit>)
    requires Faithful(relay) && Growing(visits) && AnswersAll(answers, p, q, visits)
    requires forall i :: 0 <= i < |visits| ==> forall e :: e in visits[i].log ==> e.index > 0
    ensures var w := Walk(answers, relay, 0, |visits|, None);
            && w.outcome != Rejected
            && (w.outcome == Finished ==> 0 < w.pages <= |visits| && Ascending(w.items)
                                          && w.items == Filter(p, visits[w.pages - 1].log))
  {
    WalkIsComplete(answers, relay, p, q, visits, 0, None);
    var w := Walk(answers, relay, 0, |visits|, None);
    if w.outcome == Finished {
      assert Fit(visits, w.pages - 1);
      FilterAscending(p, visits[w.pages - 1].log);
      AllPastZero(p, visits[w.pages - 1].log);
    }
  }

  lemma {:induction false} AllPastZero(p: Entry -> bool, log: seq<Entry>)
    requires forall e :: e in log ==> e.index > 0
    ensures Remaining(p, log, 0) == Filter(p, log)
  {
    if log != [] {
      var init, e := log[..|log| - 1], log[|log| - 1];
      AllPastZero(p, init);
      assert e in log;
    }
  }

  /** No page handed out a cursor leads to an empty page. */
  lemma NoEmptyLastPage(answers: Answers, p: Entry -> bool, q: LogQuery, visits: seq<Visit>, i: nat, cursor: Option<nat>)
    requires Growing(visits) && AnswersAll(answers, p, q, visits) && i + 1 < |visits| && After(cursor) <= MAX_INT64
    requires answers(i, cursor).Some? && answers(i, cursor).value.nextCursor.Some?
    ensures var next := answers(i + 1, answers(i, cursor).value.nextCursor);
            next.Some? && next.value.items != []
  {
    Answered(answers, p, q, visits, i, cursor);
    var page := answers(i, cursor).value;
    Answered(answers, p, q, visits, i + 1, page.nextCursor);
    PageThenRest(p, visits, i, i + 1, After(cursor), page);
    assert Before(visits, i, i + 1);
    RemainingGrows(p, visits[i].log, visits[i + 1].log, After(cursor));
  }
}
