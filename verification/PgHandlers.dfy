/** The handlers over the PostgreSQL store: a client's walk during concurrent appends, and under whose id
    the rows stand (cmd/server/router.go, cmd/server/main.go). */
module PgHandlers {
  import opened Strings
  import opened Codecs
  import opened Chain
  import opened Verify
  import opened Paging
  import opened SqlQuery
  import opened CursorWalk
  import opened PgAppend
  import opened PgWalk
  import Registry
  import H = Handlers

  /** What handleReadLogs answers from a table; None for an error status. */
  function PgAnswer(c: Codec, d: Dialect, table: seq<Row>, who: Registry.Principal, params: H.Params, l: H.QueryLimits): Option<Page>
    requires H.Configured(l)
  {
    var parsed := H.ParseLogQuery(params, l);
    if parsed.Err? || who.clientId == "" then None else
    var r := TableAnswer(c, d, table, table, H.ScopeQuery(parsed.value, who, params));
    if r.Ok? then Some(r.value) else None
  }

  /** The requests of a walk, each answered from the table as it is after `time` of the steps. */
  function PgAnswersTo(h: Hash, c: Codec, d: Dialect, s: State, actions: seq<Action>, who: Registry.Principal, params: H.Params,
                       l: H.QueryLimits, requests: seq<H.Request>): Answers
    requires H.InTime(requests, |actions|) && H.Configured(l)
  {
    (i: nat, cursor: Option<nat>) =>
      if i < |requests| then
        PgAnswer(c, d, TableAt(h, s, actions, requests[i].time), who, H.RequestParams(params, requests[i], cursor), l)
      else None
  }

  function MomentsOf(params: H.Params, l: H.QueryLimits, requests: seq<H.Request>): seq<Moment>
    requires H.Walkable(params, l, requests)
  {
    seq(|requests|, i requires 0 <= i < |requests| => Moment(requests[i].time, H.LimitOf(params, l, requests[i])))
  }

  lemma SameFilterAt(h: Hash, c: Codec, d: Dialect, p: Entry -> bool, q: LogQuery, s: State, actions: seq<Action>, time: nat, limit: int, after: nat)
    requires Start(h, s) && time <= |actions| && SameFilter(c, d, p, q, Run(h, s, actions).table)
    ensures var table := TableAt(h, s, actions, time);
            forall i :: 0 <= i < |table| ==> RowEntry(c, table[i]).Some? ==>
              p(RowEntry(c, table[i]).value) == RowMatches(d, At(q, limit, after), table[i])
  {
    CommittedIsPermanent(h, s, actions, time);
    var table, final := TableAt(h, s, actions, time), Run(h, s, actions).table;
    forall i | 0 <= i < |table| && RowEntry(c, table[i]).Some?
      ensures p(RowEntry(c, table[i]).value) == RowMatches(d, At(q, limit, after), table[i])
    {
      assert final[i] == table[i];
    }
  }

  lemma PgRequestAnswered(h: Hash, c: Codec, d: Dialect, p: Entry -> bool, s: State, actions: seq<Action>,
                          who: Registry.Principal, params: H.Params, l: H.QueryLimits, r: H.Request, cursor: Option<nat>)
    requires Start(h, s) && r.time <= |actions| && H.Starts(params, l) && H.Sized(params, l, r) && After(cursor) <= MAX_INT64
    requires who.clientId != "" && RowEntries(c, Run(h, s, actions).table).Some?
    requires SameFilter(c, d, p, H.ScopeQuery(H.ParseLogQuery(params, l).value, who, params), Run(h, s, actions).table)
    ensures var q := H.ScopeQuery(H.ParseLogQuery(params, l).value, who, params);
            var asked := At(q, H.LimitOf(params, l, r), After(cursor));
            && Bounded(asked)
            && PgAnswer(c, d, TableAt(h, s, actions, r.time), who, H.RequestParams(params, r, cursor), l)
               == Some(PageOf(p, Decoded(c, TableAt(h, s, actions, r.time)), asked))
  {
    var q := H.ScopeQuery(H.ParseLogQuery(params, l).value, who, params);
    H.RequestScoped(params, l, r, cursor, who);
    SameFilterAt(h, c, d, p, q, s, actions, r.time, H.LimitOf(params, l, r), After(cursor));
    EachPageIsTheSqlRead(h, c, d, p, At(q, H.LimitOf(params, l, r), After(cursor)), s, actions, r.time);
  }

  lemma PgAllAnswered(h: Hash, c: Codec, d: Dialect, p: Entry -> bool, s: State, actions: seq<Action>,
                      who: Registry.Principal, params: H.Params, l: H.QueryLimits, requests: seq<H.Request>)
    requires Start(h, s) && H.InTime(requests, |actions|) && H.Walkable(params, l, requests) && who.clientId != ""
    requires RowEntries(c, Run(h, s, actions).table).Some? && |Run(h, s, actions).table| <= MAX_INT64
    requires SameFilter(c, d, p, H.ScopeQuery(H.ParseLogQuery(params, l).value, who, params), Run(h, s, actions).table)
    ensures var moments := MomentsOf(params, l, requests);
            && InTime(moments, |actions|)
            && var visits := VisitsAt(h, c, s, actions, moments);
            && Growing(visits) && (forall i :: 0 <= i < |visits| ==> forall e :: e in visits[i].log ==> e.index > 0)
            && AnswersAll(PgAnswersTo(h, c, d, s, actions, who, params, l, requests), p,
                          H.ScopeQuery(H.ParseLogQuery(params, l).value, who, params), visits)
  {
    var moments := MomentsOf(params, l, requests);
    var visits := VisitsAt(h, c, s, actions, moments);
    var q := H.ScopeQuery(H.ParseLogQuery(params, l).value, who, params);
    var answers := PgAnswersTo(h, c, d, s, actions, who, params, l, requests);
    VisitsGrow(h, c, s, actions, moments);
    forall i | 0 <= i < |visits| ensures AnswersVisit(answers, p, q, visits, i) {
      forall cursor: Option<nat> | After(cursor) <= MAX_INT64
        ensures answers(i, cursor) == Some(PageOf(p, visits[i].log, At(q, visits[i].limit, After(cursor))))
      {
        PgRequestAnswered(h, c, d, p, s, actions, who, params, l, requests[i], cursor);
      }
    }
  }

  lemma PgWalkMatches(h: Hash, c: Codec, d: Dialect, p: Entry -> bool, q: LogQuery, s: State, actions: seq<Action>,
                      who: Registry.Principal, params: H.Params, l: H.QueryLimits, requests: seq<H.Request>)
    requires Start(h, s) && H.InTime(requests, |actions|) && H.Walkable(params, l, requests) && who.clientId != ""
    requires RowEntries(c, Run(h, s, actions).table).Some? && |Run(h, s, actions).table| <= MAX_INT64
    requires q == H.ScopeQuery(H.ParseLogQuery(params, l).value, who, params) && SameFilter(c, d, p, q, Run(h, s, actions).table)
    ensures var w := Walk(PgAnswersTo(h, c, d, s, actions, who, params, l, requests), H.AsIs(), 0, |requests|, None);
            && w.outcome != Rejected
            && (w.outcome == Finished ==>
                  && 0 < w.pages <= |requests| && Ascending(w.items)
                  && w.items == Filter(p, Decoded(c, TableAt(h, s, actions, requests[w.pages - 1].time))))
  {
    PgAllAnswered(h, c, d, p, s, actions, who, params, l, requests);
    WalkFromStart(PgAnswersTo(h, c, d, s, actions, who, params, l, requests), H.AsIs(), p, q,
                  VisitsAt(h, c, s, actions, MomentsOf(params, l, requests)));
  }

  /** What the parameters of a read ask of a row, within the caller's scope: its client id, app and level
      exactly, and the text as a pattern in its message or anywhere in its record. */
  ghost predicate RowAsked(d: Dialect, who: Registry.Principal, params: H.Params, row: Row) {
    var named := TrimSpace(H.Get(params, "clientId"));
    var app, level, text := TrimSpace(H.Get(params, "app")), TrimSpace(H.Get(params, "level")), H.SearchText(params);
    && (if who.role == "admin" then named != "" ==> d.field(ClientIdField, row.payload) == Some(named)
        else d.field(ClientIdField, row.payload) == Some(who.clientId))
    && (app != "" ==> d.field(AppField, row.payload) == Some(app))
    && (level != "" ==> d.field(LevelField, row.payload) == Some(level))
    && (text != "" ==> d.ilike(row.payload, "%" + text + "%")
                       || (d.message(row.payload).Some? && d.ilike(d.message(row.payload).value, "%" + text + "%")))
  }

  /** The handler's query selects the rows that the parameters ask for. */
  lemma RowMatchesExactly(d: Dialect, who: Registry.Principal, params: H.Params, l: H.QueryLimits, row: Row)
    requires H.ParseLogQuery(params, l).Ok? && who.clientId != ""
    ensures RowMatches(d, H.ScopeQuery(H.ParseLogQuery(params, l).value, who, params), row) <==> RowAsked(d, who, params, row)
  {
    H.ParsedExactly(params, l);
    FiltersMean(d, H.ScopeQuery(H.ParseLogQuery(params, l).value, who, params), row);
  }

  /** When a read of the table is answered, and with which page. */
  lemma PgAnswerExactly(c: Codec, d: Dialect, table: seq<Row>, who: Registry.Principal, params: H.Params, l: H.QueryLimits)
    requires H.Configured(l)
    ensures var r := PgAnswer(c, d, table, who, params, l);
            if !H.Understood(params, l) || who.clientId == "" then r.None? else
            var q := H.ScopeQuery(H.ParseLogQuery(params, l).value, who, params);
            (r.None? <==> Undecodable(c, d, table, q)) && (r.Some? ==> IsTablePage(c, d, r.value, table, table, q))
  {
    H.ParsedExactly(params, l);
    if H.Understood(params, l) {
      TablePageByPosition(c, d, table, table, H.ScopeQuery(H.ParseLogQuery(params, l).value, who, params));
    }
  }

  lemma RowsAsked(h: Hash, c: Codec, d: Dialect, p: Entry -> bool, q: LogQuery, s: State, actions: seq<Action>, time: nat,
                  who: Registry.Principal, params: H.Params, l: H.QueryLimits)
    requires Start(h, s) && time <= |actions| && SameFilter(c, d, p, q, Run(h, s, actions).table)
    requires H.ParseLogQuery(params, l).Ok? && who.clientId != "" && q == H.ScopeQuery(H.ParseLogQuery(params, l).value, who, params)
    ensures var table := TableAt(h, s, actions, time);
            forall i :: 0 <= i < |table| && RowEntry(c, table[i]).Some? ==>
              (p(RowEntry(c, table[i]).value) <==> RowAsked(d, who, params, table[i]))
  {
    SameFilterAt(h, c, d, p, q, s, actions, time, 1, 0);
    var table := TableAt(h, s, actions, time);
    forall i | 0 <= i < |table| && RowEntry(c, table[i]).Some?
      ensures p(RowEntry(c, table[i]).value) <==> RowAsked(d, who, params, table[i])
    {
      RowMatchesExactly(d, who, params, l, table[i]);
      assert RowMatches(d, At(q, 1, 0), table[i]) == RowMatches(d, q, table[i]);
    }
  }

  /** What a finished walk by `who` returns through the handler over the table, its requests anywhere
      between the statements of any number of appending processes: exactly the rows, decoded, that its
      parameters ask for among those committed at its last page; for a client all of them carry its id. */
  lemma PgScopedWalk(h: Hash, c: Codec, d: Dialect, p: Entry -> bool, s: State, actions: seq<Action>,
                     who: Registry.Principal, params: H.Params, l: H.QueryLimits, requests: seq<H.Request>)
    requires Start(h, s) && H.InTime(requests, |actions|) && H.Walkable(params, l, requests) && who.clientId != ""
    requires RowEntries(c, Run(h, s, actions).table).Some? && |Run(h, s, actions).table| <= MAX_INT64
    requires SameFilter(c, d, p, H.ScopeQuery(H.ParseLogQuery(params, l).value, who, params), Run(h, s, actions).table)
    ensures var w := Walk(PgAnswersTo(h, c, d, s, actions, who, params, l, requests), H.AsIs(), 0, |requests|, None);
            && w.outcome != Rejected
            && (w.outcome == Finished ==>
                  && 0 < w.pages <= |requests| && Ascending(w.items)
                  && var table := TableAt(h, s, actions, requests[w.pages - 1].time);
                  && w.items == Filter(p, Decoded(c, table))
                  && (forall i :: 0 <= i < |table| && RowEntry(c, table[i]).Some? ==>
                        (p(RowEntry(c, table[i]).value) <==> RowAsked(d, who, params, table[i])))
                  && (who.role != Registry.ROLE_ADMIN ==>
                        forall i :: 0 <= i < |table| && RowEntry(c, table[i]).Some? && p(RowEntry(c, table[i]).value) ==>
                          d.field(ClientIdField, table[i].payload) == Some(who.clientId)))
  {
    var q := H.ScopeQuery(H.ParseLogQuery(params, l).value, who, params);
    PgWalkMatches(h, c, d, p, q, s, actions, who, params, l, requests);
    var w := Walk(PgAnswersTo(h, c, d, s, actions, who, params, l, requests), H.AsIs(), 0, |requests|, None);
    if w.outcome == Finished {
      RowsAsked(h, c, d, p, q, s, actions, requests[w.pages - 1].time, who, params, l);
    }
  }

  // ----- Under whose id the rows stand -----

  /** One of these steps inserts a row with this payload. */
  predicate HasOrigin(actions: seq<Action>, row: Row) {
    exists n :: 0 <= n < |actions| && actions[n].Insert? && actions[n].payload == Some(row.payload)
  }

  ghost predicate Origins(s: State, actions: seq<Action>, now: State) {
    && s.table <= now.table
    && (forall k :: |s.table| <= k < |now.table| ==> HasOrigin(actions, now.table[k]))
    && (forall p {:trigger PhaseOf(now, p)} :: PhaseOf(now, p).Inserted? ==> HasOrigin(actions, PhaseOf(now, p).row))
  }

  lemma OriginGrows(actions: seq<Action>, a: Action, row: Row)
    requires HasOrigin(actions, row) || (a.Insert? && a.payload == Some(row.payload))
    ensures HasOrigin(actions + [a], row)
  {
    var all := actions + [a];
    assert all[|actions|] == a;
    if HasOrigin(actions, row) {
      var n :| 0 <= n < |actions| && actions[n].Insert? && actions[n].payload == Some(row.payload);
      assert all[n] == actions[n];
    }
  }

  /** A process holds the row it held, or the one it just built. */
  lemma InsertedFrom(h: Hash, now: State, a: Action, p: nat)
    requires PhaseOf(Step(h, now, a), p).Inserted?
    ensures PhaseOf(now, p) == PhaseOf(Step(h, now, a), p)
            || (a.Insert? && a.payload == Some(PhaseOf(Step(h, now, a), p).row.payload))
  {
  }

  /** The table is as it was, or one process has committed the row it held. */
  lemma TableFrom(h: Hash, now: State, a: Action)
    requires Inv(h, now)
    ensures Step(h, now, a).table == now.table
            || (PhaseOf(now, a.p).Inserted? && Step(h, now, a).table == now.table + [PhaseOf(now, a.p).row])
  {
    if a.Commit? && PhaseOf(now, a.p).Inserted? {
      CommitKeeps(h, now, a.p);
    }
  }

  lemma OriginsStep(h: Hash, s: State, actions: seq<Action>, now: State, a: Action)
    requires Inv(h, now) && Origins(s, actions, now)
    ensures Origins(s, actions + [a], Step(h, now, a))
  {
    var next, all := Step(h, now, a), actions + [a];
    TableFrom(h, now, a);
    forall k | |s.table| <= k < |next.table| ensures HasOrigin(all, next.table[k]) {
      OriginGrows(actions, a, next.table[k]);
    }
    forall p | PhaseOf(next, p).Inserted? ensures HasOrigin(all, PhaseOf(next, p).row) {
      InsertedFrom(h, now, a, p);
      OriginGrows(actions, a, PhaseOf(next, p).row);
    }
  }

  lemma {:induction false} RunOrigins(h: Hash, s: State, actions: seq<Action>)
    requires Start(h, s)
    ensures Origins(s, actions, Run(h, s, actions))
    decreases |actions|
  {
    if actions != [] {
      var init, a := actions[..|actions| - 1], actions[|actions| - 1];
      RunOrigins(h, s, init);
      RunKeeps(h, s, init);
      OriginsStep(h, s, init, Run(h, s, init), a);
      assert init + [a] == actions;
    }
  }

  /** Every insert is the write of a request: `who(n)` made it, and handleWriteLog stamped its record. */
  ghost predicate Stamped(c: Codec, actions: seq<Action>, who: nat -> Registry.Principal, body: nat -> Option<LogRecord>) {
    forall n :: 0 <= n < |actions| && actions[n].Insert? && actions[n].payload.Some? ==>
      && H.Stamp(who(n), body(n)).Ok?
      && actions[n].payload == c.marshal(H.Stamp(who(n), body(n)).value)
  }

  /** record_json ->> 'clientId' of a marshalled record is its client id; an empty one is left out. */
  ghost predicate MarshalsId(c: Codec, d: Dialect) {
    forall record: LogRecord :: record.clientId != "" && c.marshal(record).Some? ==> d.field(ClientIdField, c.marshal(record).value) == Some(record.clientId)
  }

  /** Attribution in the table cannot be forged either: every row appended in a run carries the id of the
      caller whose request inserted it, whatever the bodies claim, and is the text of the record stored of
      that request's body. */
  lemma RowsCarryTheirWriter(h: Hash, c: Codec, d: Dialect, s: State, actions: seq<Action>, who: nat -> Registry.Principal,
                             body: nat -> Option<LogRecord>, k: nat) returns (n: nat, record: LogRecord)
    requires Start(h, s) && Stamped(c, actions, who, body) && MarshalsId(c, d)
    requires |s.table| <= k < |Run(h, s, actions).table|
    ensures n < |actions| && actions[n].Insert? && actions[n].payload == Some(Run(h, s, actions).table[k].payload)
    ensures d.field(ClientIdField, Run(h, s, actions).table[k].payload) == Some(who(n).clientId)
    ensures H.Complete(who(n), body(n)) && H.StoredOf(who(n), body(n).value, record)
    ensures c.marshal(record) == Some(Run(h, s, actions).table[k].payload)
  {
    RunOrigins(h, s, actions);
    var row := Run(h, s, actions).table[k];
    assert HasOrigin(actions, row);
    n :| 0 <= n < |actions| && actions[n].Insert? && actions[n].payload == Some(row.payload);
    H.StampExactly(who(n), body(n));
    record := H.Stamp(who(n), body(n)).value;
  }
}
