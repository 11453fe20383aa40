/** The two halves of the PostgreSQL backend together: paged reads of a table that any number of
    processes are appending to (cmd/server/main.go). */
module PgWalk {
  import opened Strings
  import opened Codecs
  import opened Chain
  import opened Verify
  import opened Paging
  import opened SqlQuery
  import opened CursorWalk
  import opened PgAppend

  /** A page request arrives after `time` of the steps. */
  datatype Moment = Moment(time: nat, limit: int)

  predicate InTime(moments: seq<Moment>, end: nat) {
    && (forall i :: 0 <= i < |moments| ==> moments[i].limit > 0 && moments[i].time <= end)
    && (forall i, j :: 0 <= i <= j < |moments| ==> moments[i].time <= moments[j].time)
  }

  function TableAt(h: Hash, s: State, actions: seq<Action>, time: nat): seq<Row>
    requires time <= |actions|
  {
    Run(h, s, actions[..time]).table
  }

  /** The entries a reader decodes from a table. */
  function Decoded(c: Codec, table: seq<Row>): seq<Entry> {
    if RowEntries(c, table).Some? then RowEntries(c, table).value else []
  }

  lemma {:induction false} DecodedNumbers(c: Codec, table: seq<Row>)
    requires RowEntries(c, table).Some?
    requires forall i :: 0 <= i < |table| ==> table[i].index == i + 1
    ensures |Decoded(c, table)| == |table|
    ensures forall i :: 0 <= i < |table| ==> Decoded(c, table)[i].index == i + 1
    ensures Ascending(Decoded(c, table))
  {
    if table != [] {
      DecodedNumbers(c, table[..|table| - 1]);
      var entries := Decoded(c, table);
      assert entries[..|table| - 1] == Decoded(c, table[..|table| - 1]);
    }
  }

  /** The table that some moment of the run shows: numbered from 1, decodable if the last one is. */
  lemma TableAtMoment(h: Hash, c: Codec, s: State, actions: seq<Action>, time: nat)
    requires Start(h, s) && time <= |actions| && RowEntries(c, Run(h, s, actions).table).Some?
    ensures var table := TableAt(h, s, actions, time);
            && RowEntries(c, table).Some? && |table| <= |Run(h, s, actions).table|
            && (forall i :: 0 <= i < |table| ==> table[i].index == i + 1)
  {
    RunKeeps(h, s, actions[..time]);
    var table, final := TableAt(h, s, actions, time), Run(h, s, actions).table;
    CommittedIsPermanent(h, s, actions, time);
    assert final[..|table|] == table;
    RowEntriesPrefix(c, final, |table|);
    forall i | 0 <= i < |table| ensures table[i].index == i + 1 {
      ValidAt(h, table, i);
    }
  }

  lemma DecodedGrows(h: Hash, c: Codec, s: State, actions: seq<Action>, m: nat, n: nat)
    requires Start(h, s) && m <= n <= |actions| && RowEntries(c, Run(h, s, actions).table).Some?
    ensures Decoded(c, TableAt(h, s, actions, m)) <= Decoded(c, TableAt(h, s, actions, n))
  {
    TableAtMoment(h, c, s, actions, n);
    var a, b := TableAt(h, s, actions, m), TableAt(h, s, actions, n);
    assert actions[..n][..m] == actions[..m];
    CommittedIsPermanent(h, s, actions[..n], m);
    assert b[..|a|] == a;
    RowEntriesPrefix(c, b, |a|);
  }

  function VisitsAt(h: Hash, c: Codec, s: State, actions: seq<Action>, moments: seq<Moment>): seq<Visit>
    requires InTime(moments, |actions|)
  {
    seq(|moments|, i requires 0 <= i < |moments| =>
          Visit(Decoded(c, TableAt(h, s, actions, moments[i].time)), moments[i].limit))
  }

  lemma VisitSound(h: Hash, c: Codec, s: State, actions: seq<Action>, time: nat)
    requires Start(h, s) && time <= |actions|
    requires RowEntries(c, Run(h, s, actions).table).Some? && |Run(h, s, actions).table| <= MAX_INT64
    ensures var log := Decoded(c, TableAt(h, s, actions, time));
            Ascending(log) && Below(log, MAX_INT64 + 1) && forall e :: e in log ==> e.index > 0
  {
    TableAtMoment(h, c, s, actions, time);
    DecodedNumbers(c, TableAt(h, s, actions, time));
  }

  lemma VisitsGrow(h: Hash, c: Codec, s: State, actions: seq<Action>, moments: seq<Moment>)
    requires Start(h, s) && InTime(moments, |actions|)
    requires RowEntries(c, Run(h, s, actions).table).Some? && |Run(h, s, actions).table| <= MAX_INT64
    ensures var visits := VisitsAt(h, c, s, actions, moments);
            && Growing(visits)
            && forall i :: 0 <= i < |visits| ==> forall e :: e in visits[i].log ==> e.index > 0
  {
    var visits := VisitsAt(h, c, s, actions, moments);
    forall i | 0 <= i < |visits| ensures Fit(visits, i) && forall e :: e in visits[i].log ==> e.index > 0 {
      VisitSound(h, c, s, actions, moments[i].time);
    }
    forall i, j | 0 <= i <= j < |visits| ensures Before(visits, i, j) {
      DecodedGrows(h, c, s, actions, moments[i].time, moments[j].time);
    }
  }

  /** The SQL read of the table at any moment of a run answers with the specified page. */
  lemma EachPageIsTheSqlRead(h: Hash, c: Codec, d: Dialect, p: Entry -> bool, q: LogQuery, s: State, actions: seq<Action>, time: nat)
    requires Start(h, s) && time <= |actions| && Bounded(q)
    requires RowEntries(c, Run(h, s, actions).table).Some?
    requires var table := TableAt(h, s, actions, time);
             forall i :: 0 <= i < |table| ==> RowEntry(c, table[i]).Some? ==> p(RowEntry(c, table[i]).value) == RowMatches(d, q, table[i])
    ensures var table := TableAt(h, s, actions, time);
            TableAnswer(c, d, table, table, q) == Ok(PageOf(p, Decoded(c, table), q))
  {
    TableAtMoment(h, c, s, actions, time);
    var table := TableAt(h, s, actions, time);
    forall i | 0 <= i < |table| ensures p(Decoded(c, table)[i]) == RowMatches(d, q, table[i]) {
      RowEntryAt(c, table, i);
    }
    TableRefines(c, d, p, table, Decoded(c, table), q);
  }

  /** How the list query answers the requests of a walk, each on the table at its moment. */
  function SqlAnswers(h: Hash, c: Codec, d: Dialect, q: LogQuery, s: State, actions: seq<Action>, moments: seq<Moment>): Answers
    requires InTime(moments, |actions|)
  {
    (i: nat, cursor: Option<nat>) =>
      if i < |moments| && After(cursor) <= MAX_INT64 then
        var table := TableAt(h, s, actions, moments[i].time);
        var r := TableAnswer(c, d, table, table, At(q, moments[i].limit, After(cursor)));
        if r.Ok? then Some(r.value) else None
      else None
  }

  ghost predicate SameFilter(c: Codec, d: Dialect, p: Entry -> bool, q: LogQuery, table: seq<Row>) {
    forall i :: 0 <= i < |table| ==> RowEntry(c, table[i]).Some? ==> p(RowEntry(c, table[i]).value) == RowMatches(d, q, table[i])
  }

  lemma SqlAnswersAsSeen(h: Hash, c: Codec, d: Dialect, p: Entry -> bool, q: LogQuery, s: State, actions: seq<Action>, moments: seq<Moment>, i: nat, cursor: Option<nat>)
    requires Start(h, s) && InTime(moments, |actions|) && i < |moments| && After(cursor) <= MAX_INT64
    requires RowEntries(c, Run(h, s, actions).table).Some? && SameFilter(c, d, p, q, Run(h, s, actions).table)
    ensures SqlAnswers(h, c, d, q, s, actions, moments)(i, cursor)
            == Some(PageOf(p, Decoded(c, TableAt(h, s, actions, moments[i].time)), At(q, moments[i].limit, After(cursor))))
  {
    var table, final := TableAt(h, s, actions, moments[i].time), Run(h, s, actions).table;
    CommittedIsPermanent(h, s, actions, moments[i].time);
    forall j | 0 <= j < |table| && RowEntry(c, table[j]).Some?
      ensures p(RowEntry(c, table[j]).value) == RowMatches(d, At(q, moments[i].limit, After(cursor)), table[j])
    {
      assert final[j] == table[j];
    }
    EachPageIsTheSqlRead(h, c, d, p, At(q, moments[i].limit, After(cursor)), s, actions, moments[i].time);
  }

  /** A cursor walk through the list query, client scope and other filters included, with cursors in the
      server's text form, its pages interleaved with the statements of any number of appending
      processes: no cursor is refused, and once it ends it returned, in ascending index order, exactly
      the matches among the rows committed when its last page was read. */
  lemma WalkDuringAppends(h: Hash, c: Codec, d: Dialect, p: Entry -> bool, q: LogQuery, s: State, actions: seq<Action>, moments: seq<Moment>)
    requires Start(h, s) && InTime(moments, |actions|)
    requires RowEntries(c, Run(h, s, actions).table).Some? && |Run(h, s, actions).table| <= MAX_INT64
    requires SameFilter(c, d, p, q, Run(h, s, actions).table)
    ensures var w := Walk(SqlAnswers(h, c, d, q, s, actions, moments), CursorText(), 0, |moments|, None);
            && w.outcome != Rejected
            && (w.outcome == Finished ==>
                  && 0 < w.pages <= |moments| && Ascending(w.items)
                  && w.items == Filter(p, Decoded(c, TableAt(h, s, actions, moments[w.pages - 1].time))))
  {
    var visits := VisitsAt(h, c, s, actions, moments);
    var answers := SqlAnswers(h, c, d, q, s, actions, moments);
    VisitsGrow(h, c, s, actions, moments);
    forall i | 0 <= i < |visits| ensures AnswersVisit(answers, p, q, visits, i) {
      forall cursor: Option<nat> | After(cursor) <= MAX_INT64
        ensures answers(i, cursor) == Some(PageOf(p, visits[i].log, At(q, visits[i].limit, After(cursor))))
      {
        SqlAnswersAsSeen(h, c, d, p, q, s, actions, moments, i, cursor);
      }
    }
    CursorTextFaithful();
    WalkFromStart(answers, CursorText(), p, q, visits);
  }
}
