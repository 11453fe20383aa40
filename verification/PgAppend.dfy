/** PostgresStore.Append as a step system: any number of server processes share one table, and
    every statement of every transaction may interleave with every other (cmd/server/main.go). */
module PgAppend {
  import opened Strings
  import opened Chain
  import opened Verify

  /** Where one process stands inside Append. */
  datatype Phase =
    | Idle
    | Begun                                       // transaction open
    | Locked                                      // holds pg_advisory_xact_lock
    | HeadRead(lastIndex: int, prevHash: string)  // has selected last_index and last_hash
    | Inserted(row: Row)                          // row written, not yet visible to others
    | Committed(row: Row)                         // row visible, lock not yet released

  /** The committed table in primary-key order, the advisory lock, and the processes. */
  datatype State = State(table: seq<Row>, holder: Option<nat>, procs: map<nat, Phase>)

  datatype Action =
    | Begin(p: nat)
    | Lock(p: nat)
    | ReadHead(p: nat)
    | Insert(p: nat, timestamp: string, payload: Option<string>)  // None: json.Marshal failed
    | Commit(p: nat)
    | Release(p: nat)
    | Abort(p: nat)                               // any error return, crash or lost connection

  function PhaseOf(s: State, p: nat): Phase { if p in s.procs then s.procs[p] else Idle }

  function Move(s: State, p: nat, phase: Phase): State { s.(procs := s.procs[p := phase]) }

  /** Ends the transaction: the lock goes with it. */
  function End(s: State, p: nat): State {
    Move(s, p, Idle).(holder := if s.holder == Some(p) then None else s.holder)
  }

  /** COALESCE(MAX(entry_index), 0) and the entry_hash of that row, over key-ordered rows. */
  function HeadQuery(table: seq<Row>): (int, string) {
    if table == [] then (0, GENESIS) else (table[|table| - 1].index, table[|table| - 1].entryHash)
  }

  /** entry_index is the primary key and entry_hash is UNIQUE. */
  predicate Conflicts(table: seq<Row>, row: Row) {
    exists i :: 0 <= i < |table| && (table[i].index == row.index || table[i].entryHash == row.entryHash)
  }

  /** Inserts in key order. */
  function InsertByKey(table: seq<Row>, row: Row): seq<Row> {
    if table == [] || table[|table| - 1].index <= row.index then table + [row]
    else InsertByKey(table[..|table| - 1], row) + [table[|table| - 1]]
  }

  function BuildRow(h: Hash, lastIndex: int, prevHash: string, timestamp: string, payload: string): Row
    requires lastIndex >= -1
  {
    var payloadHash := h(payload);
    Row(lastIndex + 1, timestamp, prevHash, payloadHash,
        h(Preimage(lastIndex + 1, timestamp, payloadHash, prevHash)), payload)
  }

  /** One step; an action that is not enabled changes nothing. */
  function Step(h: Hash, s: State, a: Action): State {
    var phase := PhaseOf(s, a.p);
    match a
    case Begin(p) => if phase.Idle? then Move(s, p, Begun) else s
    case Lock(p) => if phase.Begun? && s.holder.None? then Move(s, p, Locked).(holder := Some(p)) else s
    case ReadHead(p) =>
      if phase.Locked? then var (lastIndex, prevHash) := HeadQuery(s.table); Move(s, p, HeadRead(lastIndex, prevHash)) else s
    case Insert(p, timestamp, payload) =>
      if phase.HeadRead? && phase.lastIndex >= 0 then
        if payload.None? then End(s, p) else
        var row := BuildRow(h, phase.lastIndex, phase.prevHash, timestamp, payload.value);
        if Conflicts(s.table, row) then End(s, p) else Move(s, p, Inserted(row))
      else s
    case Commit(p) =>
      if phase.Inserted? then Move(s, p, Committed(phase.row)).(table := InsertByKey(s.table, phase.row)) else s
    case Release(p) => if phase.Committed? then End(s, p) else s
    case Abort(p) => if phase.Committed? then s else End(s, p)
  }

  function Run(h: Hash, s: State, actions: seq<Action>): State {
    if actions == [] then s else Step(h, Run(h, s, actions[..|actions| - 1]), actions[|actions| - 1])
  }

  /** What a server finds at start-up: a chain that verified, and nobody inside Append. */
  ghost predicate Start(h: Hash, s: State) {
    ValidChain(h, s.table) && s.holder.None? && forall p :: PhaseOf(s, p).Idle?
  }

  // ----- The invariant -----

  predicate PhaseOk(h: Hash, table: seq<Row>, holder: Option<nat>, p: nat, phase: Phase) {
    && (phase.Idle? || phase.Begun? || holder == Some(p))
    && (phase.HeadRead? ==> phase.lastIndex == |table| && phase.prevHash == Head(table))
    && (phase.Inserted? ==> phase.row.index == |table| + 1 && ValidChain(h, table + [phase.row]))
    && (phase.Committed? ==> 1 <= phase.row.index <= |table| && table[phase.row.index - 1] == phase.row)
  }

  ghost predicate Inv(h: Hash, s: State) {
    ValidChain(h, s.table) && forall p :: PhaseOk(h, s.table, s.holder, p, PhaseOf(s, p))
  }

  lemma HeadQueryOnChain(h: Hash, table: seq<Row>)
    requires ValidChain(h, table)
    ensures HeadQuery(table) == (|table|, Head(table))
  {
  }

  lemma BuildRowLinks(h: Hash, table: seq<Row>, timestamp: string, payload: string)
    requires ValidChain(h, table)
    ensures BuildRow(h, |table|, Head(table), timestamp, payload) == NextRow(h, table, timestamp, payload)
    ensures ValidChain(h, table + [NextRow(h, table, timestamp, payload)])
  {
    ValidSnoc(h, table, NextRow(h, table, timestamp, payload));
  }

  lemma InsertAppends(h: Hash, table: seq<Row>, row: Row)
    requires ValidChain(h, table) && row.index == |table| + 1
    ensures InsertByKey(table, row) == table + [row]
  {
  }

  /** Only the lock holder can be past the lock, so its own moves break nobody else's claim. */
  lemma MoveKeeps(h: Hash, s: State, p: nat, phase: Phase, holder: Option<nat>)
    requires Inv(h, s)
    requires PhaseOk(h, s.table, holder, p, phase)
    requires holder == s.holder || s.holder.None? || s.holder == Some(p)
    ensures Inv(h, Move(s, p, phase).(holder := holder))
  {
    var s' := Move(s, p, phase).(holder := holder);
    forall q ensures PhaseOk(h, s'.table, s'.holder, q, PhaseOf(s', q)) {
      assert PhaseOk(h, s.table, s.holder, q, PhaseOf(s, q));
    }
  }

  lemma CommitKeeps(h: Hash, s: State, p: nat)
    requires Inv(h, s) && PhaseOf(s, p).Inserted?
    ensures Step(h, s, Commit(p)).table == s.table + [PhaseOf(s, p).row]
    ensures Inv(h, Step(h, s, Commit(p)))
  {
    var row := PhaseOf(s, p).row;
    assert PhaseOk(h, s.table, s.holder, p, PhaseOf(s, p));
    InsertAppends(h, s.table, row);
    var s' := Step(h, s, Commit(p));
    forall q ensures PhaseOk(h, s'.table, s'.holder, q, PhaseOf(s', q)) {
      assert PhaseOk(h, s.table, s.holder, q, PhaseOf(s, q));
    }
  }

  lemma StepKeeps(h: Hash, s: State, a: Action)
    requires Inv(h, s)
    ensures Inv(h, Step(h, s, a))
    ensures s.table <= Step(h, s, a).table
  {
    var phase := PhaseOf(s, a.p);
    assert PhaseOk(h, s.table, s.holder, a.p, phase);
    match a
    case Commit(p) => if phase.Inserted? { CommitKeeps(h, s, p); }
    case Lock(p) => if phase.Begun? && s.holder.None? { MoveKeeps(h, s, p, Locked, Some(p)); }
    case ReadHead(p) =>
      if phase.Locked? {
        HeadQueryOnChain(h, s.table);
        MoveKeeps(h, s, p, HeadRead(|s.table|, Head(s.table)), s.holder);
      }
    case Insert(p, timestamp, payload) =>
      if phase.HeadRead? {
        MoveKeeps(h, s, p, Idle, if s.holder == Some(p) then None else s.holder);
        if payload.Some? {
          BuildRowLinks(h, s.table, timestamp, payload.value);
          MoveKeeps(h, s, p, Inserted(NextRow(h, s.table, timestamp, payload.value)), s.holder);
        }
      }
    case Begin(p) => MoveKeeps(h, s, p, Begun, s.holder);
    case _ => MoveKeeps(h, s, a.p, Idle, if s.holder == Some(a.p) then None else s.holder);
  }

  lemma {:induction false} RunKeeps(h: Hash, s: State, actions: seq<Action>)
    requires Start(h, s)
    ensures Inv(h, Run(h, s, actions))
  {
    if actions != [] {
      RunKeeps(h, s, actions[..|actions| - 1]);
      StepKeeps(h, Run(h, s, actions[..|actions| - 1]), actions[|actions| - 1]);
    }
  }

  // ----- What holds of every run -----

  /** After every interleaving the committed table is a valid chain with indexes 1..n, and a Verify
      that reads it reports valid with that count and head. */
  lemma {:induction false} EveryRunIsAChain(h: Hash, s: State, actions: seq<Action>, r: VerifyResult)
    requires Start(h, s)
    requires Verdict(h, Reading(Run(h, s, actions).table, None), r)
    ensures var table := Run(h, s, actions).table;
            && r == VerifyResult(true, |table|, Head(table), None, None)
            && (forall i :: 0 <= i < |table| ==> table[i].index == i + 1)
  {
    RunKeeps(h, s, actions);
    var table := Run(h, s, actions).table;
    VerdictOnValid(h, Reading(table, None), r);
    forall i | 0 <= i < |table| ensures table[i].index == i + 1 {
      ValidAt(h, table, i);
    }
  }

  /** The log only grows: what was committed at any moment is a prefix of what is committed later. */
  lemma {:induction false} CommittedIsPermanent(h: Hash, s: State, actions: seq<Action>, n: nat)
    requires Start(h, s) && n <= |actions|
    ensures Run(h, s, actions[..n]).table <= Run(h, s, actions).table
  {
    if n == |actions| {
      assert actions[..n] == actions;
    } else {
      var init := actions[..|actions| - 1];
      assert init[..n] == actions[..n];
      CommittedIsPermanent(h, s, init, n);
      RunKeeps(h, s, init);
      StepKeeps(h, Run(h, s, init), actions[|actions| - 1]);
    }
  }

  /** An Append that reaches its commit owns its index for good: its row sits at that index in every
      later state, so two successful Appends never share or overwrite an entry. */
  lemma {:induction false} AckedRowStays(h: Hash, s: State, actions: seq<Action>, n: nat, p: nat)
    requires Start(h, s) && n <= |actions|
    requires PhaseOf(Run(h, s, actions[..n]), p).Committed?
    ensures var row := PhaseOf(Run(h, s, actions[..n]), p).row;
            var table := Run(h, s, actions).table;
            1 <= row.index <= |table| && table[row.index - 1] == row
  {
    RunKeeps(h, s, actions[..n]);
    RowIsThere(h, Run(h, s, actions[..n]), p);
    CommittedIsPermanent(h, s, actions, n);
  }

  lemma RowIsThere(h: Hash, s: State, p: nat)
    requires Inv(h, s) && PhaseOf(s, p).Committed?
    ensures var row := PhaseOf(s, p).row; 1 <= row.index <= |s.table| && s.table[row.index - 1] == row
  {
    assert PhaseOk(h, s.table, s.holder, p, PhaseOf(s, p));
  }

  /** Mutual exclusion: at most one process is between its lock and its release. */
  lemma {:induction false} LockExcludes(h: Hash, s: State, actions: seq<Action>, p: nat, q: nat)
    requires Start(h, s)
    requires var t := Run(h, s, actions); !PhaseOf(t, p).Idle? && !PhaseOf(t, p).Begun? && !PhaseOf(t, q).Idle? && !PhaseOf(t, q).Begun?
    ensures p == q
  {
    RunKeeps(h, s, actions);
    var t := Run(h, s, actions);
    assert PhaseOk(h, t.table, t.holder, p, PhaseOf(t, p));
    assert PhaseOk(h, t.table, t.holder, q, PhaseOf(t, q));
  }

  /** A row that conflicts with a chain it continues exhibits a collision: never on the primary key, and
      on the UNIQUE entry_hash only when two of the hashed strings collide. */
  lemma ConflictCollides(h: Hash, table: seq<Row>, timestamp: string, payload: string) returns (x: string, y: string)
    requires ValidChain(h, table) && Conflicts(table, NextRow(h, table, timestamp, payload))
    ensures Collision(h, x, y) && Fed(table, x) && FedBy(NextRow(h, table, timestamp, payload), y)
  {
    var row := NextRow(h, table, timestamp, payload);
    var i :| 0 <= i < |table| && (table[i].index == row.index || table[i].entryHash == row.entryHash);
    ValidAt(h, table, i);
    ValidPrefix(h, table, i);
    HeadIsGenesisOrDigest(h, table[..i]);
    HeadIsGenesisOrDigest(h, table);
    x, y := EntryHashCommits(h, i + 1, Head(table[..i]), table[i], |table| + 1, Head(table), row);
    assert FedBy(table[i], x);
  }

  /** The INSERT of a record that marshals goes through, with the row that continues the committed chain,
      unless two of the hashed strings collide. */
  lemma {:induction false} InsertNeedsCollisionToFail(h: Hash, s: State, actions: seq<Action>, p: nat, timestamp: string, payload: string)
      returns (x: string, y: string)
    requires Start(h, s) && PhaseOf(Run(h, s, actions), p).HeadRead?
    ensures var t := Run(h, s, actions);
            var row := NextRow(h, t.table, timestamp, payload);
            || PhaseOf(Step(h, t, Insert(p, timestamp, Some(payload))), p) == Inserted(row)
            || (Collision(h, x, y) && Fed(t.table, x) && FedBy(row, y))
  {
    RunKeeps(h, s, actions);
    x, y := InsertsOrCollides(h, Run(h, s, actions), p, timestamp, payload);
  }

  lemma InsertsOrCollides(h: Hash, s: State, p: nat, timestamp: string, payload: string) returns (x: string, y: string)
    requires Inv(h, s) && PhaseOf(s, p).HeadRead?
    ensures var row := NextRow(h, s.table, timestamp, payload);
            var s' := Step(h, s, Insert(p, timestamp, Some(payload)));
            || s' == Move(s, p, Inserted(row))
            || (Collision(h, x, y) && Fed(s.table, x) && FedBy(row, y))
  {
    x, y := "", "";
    assert PhaseOk(h, s.table, s.holder, p, PhaseOf(s, p));
    BuildRowLinks(h, s.table, timestamp, payload);
    if Conflicts(s.table, NextRow(h, s.table, timestamp, payload)) {
      x, y := ConflictCollides(h, s.table, timestamp, payload);
    }
  }

  // ----- An append goes through -----

  predicate Others(actions: seq<Action>, p: nat) { forall i :: 0 <= i < |actions| ==> actions[i].p != p }

  /** While `p` holds the lock the others change neither the table nor what `p` has done. */
  lemma OtherWaits(h: Hash, s: State, a: Action, p: nat)
    requires Inv(h, s) && s.holder == Some(p) && a.p != p
    ensures var s' := Step(h, s, a); s'.table == s.table && s'.holder == Some(p) && PhaseOf(s', p) == PhaseOf(s, p)
  {
    assert PhaseOk(h, s.table, s.holder, a.p, PhaseOf(s, a.p));
  }

  lemma {:induction false} OthersWait(h: Hash, s: State, others: seq<Action>, p: nat)
    requires Inv(h, s) && s.holder == Some(p) && Others(others, p)
    ensures var s' := Run(h, s, others);
            Inv(h, s') && s'.table == s.table && s'.holder == Some(p) && PhaseOf(s', p) == PhaseOf(s, p)
    decreases |others|
  {
    if others != [] {
      var init := others[..|others| - 1];
      OthersWait(h, s, init, p);
      OtherWaits(h, Run(h, s, init), others[|others| - 1], p);
      StepKeeps(h, Run(h, s, init), others[|others| - 1]);
    }
  }

  lemma OtherLeavesPhase(h: Hash, s: State, a: Action, p: nat)
    requires a.p != p
    ensures PhaseOf(Step(h, s, a), p) == PhaseOf(s, p)
  {
  }

  lemma {:induction false} OthersLeaveBegun(h: Hash, s: State, others: seq<Action>, p: nat)
    requires Inv(h, s) && PhaseOf(s, p).Begun? && Others(others, p)
    ensures Inv(h, Run(h, s, others)) && PhaseOf(Run(h, s, others), p).Begun?
    decreases |others|
  {
    if others != [] {
      OthersLeaveBegun(h, s, others[..|others| - 1], p);
      StepKeeps(h, Run(h, s, others[..|others| - 1]), others[|others| - 1]);
      OtherLeavesPhase(h, Run(h, s, others[..|others| - 1]), others[|others| - 1], p);
    }
  }

  /** From the lock on: the statements of `p`, with those of others in between. */
  lemma LockedToCommit(h: Hash, s: State, p: nat, timestamp: string, payload: string, o1: seq<Action>, o2: seq<Action>, o3: seq<Action>)
      returns (x: string, y: string)
    requires Inv(h, s) && PhaseOf(s, p).Begun? && s.holder.None? && Others(o1, p) && Others(o2, p) && Others(o3, p)
    ensures var locked := Run(h, Step(h, s, Lock(p)), o1);
            var read := Run(h, Step(h, locked, ReadHead(p)), o2);
            var inserted := Run(h, Step(h, read, Insert(p, timestamp, Some(payload))), o3);
            var committed := Step(h, inserted, Commit(p));
            var row := NextRow(h, s.table, timestamp, payload);
            || (Collision(h, x, y) && Fed(s.table, x) && FedBy(row, y))
            || (committed.table == s.table + [row] && PhaseOf(committed, p) == Committed(row) && Inv(h, committed)
                && committed.holder == Some(p))
  {
    var s1 := Step(h, s, Lock(p));
    StepKeeps(h, s, Lock(p));
    OthersWait(h, s1, o1, p);
    var locked := Run(h, s1, o1);
    StepKeeps(h, locked, ReadHead(p));
    OthersWait(h, Step(h, locked, ReadHead(p)), o2, p);
    var read := Run(h, Step(h, locked, ReadHead(p)), o2);
    x, y := InsertsOrCollides(h, read, p, timestamp, payload);
    var s4 := Step(h, read, Insert(p, timestamp, Some(payload)));
    if PhaseOf(s4, p).Inserted? {
      StepKeeps(h, read, Insert(p, timestamp, Some(payload)));
      OthersWait(h, s4, o3, p);
      CommitKeeps(h, Run(h, s4, o3), p);
    }
  }

  /** An Append that finds the lock free goes through, whatever the statements of other processes between
      its own: at its commit the table is one row longer than when it took the lock, the row has its
      timestamp and payload, is numbered next and linked to the head, and after the release the lock is
      free again; unless two of the hashed strings collide. */
  lemma AppendGoesThrough(h: Hash, start: State, before: seq<Action>, p: nat, timestamp: string, payload: string,
                          o0: seq<Action>, o1: seq<Action>, o2: seq<Action>, o3: seq<Action>) returns (x: string, y: string)
    requires Start(h, start) && PhaseOf(Run(h, start, before), p).Idle?
    requires Others(o0, p) && Others(o1, p) && Others(o2, p) && Others(o3, p)
    requires Run(h, Step(h, Run(h, start, before), Begin(p)), o0).holder.None?
    ensures var begun := Run(h, Step(h, Run(h, start, before), Begin(p)), o0);
            var locked := Run(h, Step(h, begun, Lock(p)), o1);
            var read := Run(h, Step(h, locked, ReadHead(p)), o2);
            var inserted := Run(h, Step(h, read, Insert(p, timestamp, Some(payload))), o3);
            var committed := Step(h, inserted, Commit(p));
            var n := |begun.table|;
            || (Collision(h, x, y) && Fed(begun.table, x))
            || (&& |committed.table| == n + 1 && committed.table[..n] == begun.table
                && var row := committed.table[n];
                && row.index == n + 1 && row.timestamp == timestamp && row.payload == payload
                && row.prevHash == (if n == 0 then "GENESIS" else begun.table[n - 1].entryHash)
                && row.payloadHash == h(payload)
                && row.entryHash == h(Preimage(n + 1, timestamp, h(payload), row.prevHash))
                && PhaseOf(committed, p) == Committed(row)
                && var released := Step(h, committed, Release(p));
                released.table == committed.table && released.holder.None? && PhaseOf(released, p).Idle?)
  {
    RunKeeps(h, start, before);
    var s0 := Run(h, start, before);
    StepKeeps(h, s0, Begin(p));
    OthersLeaveBegun(h, Step(h, s0, Begin(p)), o0, p);
    x, y := LockedToCommit(h, Run(h, Step(h, s0, Begin(p)), o0), p, timestamp, payload, o1, o2, o3);
  }

  /** One that fails leaves no trace: an error, a crash, a record that does not marshal or a conflict ends
      its transaction, frees the lock if it held it, and changes no row. */
  lemma FailureLeavesNoTrace(h: Hash, start: State, before: seq<Action>, p: nat, a: Action)
    requires Start(h, start) && !PhaseOf(Run(h, start, before), p).Committed?
    requires a == Abort(p) || (a.Insert? && a.p == p && PhaseOf(Run(h, start, before), p).HeadRead?
                               && !PhaseOf(Step(h, Run(h, start, before), a), p).Inserted?)
    ensures var s, s' := Run(h, start, before), Step(h, Run(h, start, before), a);
            && s'.table == s.table && PhaseOf(s', p).Idle?
            && s'.holder == (if s.holder == Some(p) then None else s.holder)
            && forall q :: q != p ==> PhaseOf(s', q) == PhaseOf(s, q)
  {
    RunKeeps(h, start, before);
    var s := Run(h, start, before);
    assert PhaseOk(h, s.table, s.holder, p, PhaseOf(s, p));
  }
}
