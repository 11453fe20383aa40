/** How often the forwarder hands a line over again after a restart (cmd/log-forwarder/follower.go and
    checkpoint.go). */
module Repeats {
  import opened Lines
  import opened Follower
  import opened Delivery
  import opened Loss

  /** No other life, earlier or later, has the identity of life `k`. */
  predicate Own(lives: seq<Life>, k: nat)
    requires k < |lives|
  {
    forall j :: 0 <= j < |lives| && j != k ==> lives[j].identity != lives[k].identity
  }

  /** The life that is being worked on, or will be after a restart. */
  function Work(s: State): nat
    requires s.Formed()
  {
    if s.proc.Up? then s.proc.life else s.Last()
  }

  /** Where a checkpoint stands in life `k`; one of another file does not keep a start from offset 0. */
  function Off(s: State, k: nat, cp: Checkpoint): int
    requires k < |s.lives|
  {
    if cp.identity == s.lives[k].identity then cp.offset else 0
  }

  /** Where the last call started and ended, if it was about life `k`. */
  function StartIn(s: State, k: nat): nat {
    if s.log != [] && s.log[|s.log| - 1].life == k then s.log[|s.log| - 1].start else 0
  }

  function EndIn(s: State, k: nat): nat {
    if s.log != [] && s.log[|s.log| - 1].life == k then s.log[|s.log| - 1].event.committed else 0
  }

  // ----- A life nothing was emitted of -----

  lemma {:induction false} NoMark(lives: seq<Life>, log: seq<Emission>, k: nat, n: nat)
    requires InOrder(lives, log) && n <= |log| && (n > 0 ==> log[n - 1].life < k)
    ensures Mark(log, k, n) == 0
  {
    if n > 0 {
      assert Follows(lives, log, n - 1);
      NoMark(lives, log, k, n - 1);
    }
  }

  lemma Unopened(path: string, s: State, k: nat, cp: Checkpoint)
    requires Inv(path, s) && k < |s.lives| && Own(s.lives, k) && cp in s.disk.fallback
    requires s.log != [] ==> s.log[|s.log| - 1].life < k
    ensures Off(s, k, cp) == 0
  {
    NoMark(s.lives, s.log, k, |s.log|);
    assert CheckpointOk(path, s, cp);
    if cp != NO_CHECKPOINT {
      var j :| CheckpointIn(s, cp, j);
    }
  }

  /** A restart in a file with an identity of its own resumes exactly where its checkpoint stands. */
  lemma ResumesThere(path: string, s: State, cp: Checkpoint)
    requires Inv(path, s) && Own(s.lives, s.Last()) && cp in s.disk.fallback
    ensures Resume(path, s, cp) == Off(s, s.Last(), cp) <= High(s, s.Last())
  {
    assert CheckpointOk(path, s, cp);
    if cp != NO_CHECKPOINT {
      var j :| CheckpointIn(s, cp, j);
    }
  }

  // ----- Only backwards -----

  /** Every checkpoint of the life being worked on stands at the current one or before it, and that one
      not past the process, which is not past the last call. */
  ghost predicate Behind(s: State)
    requires s.Formed()
  {
    var k := Work(s);
    Own(s.lives, k) ==>
      && (forall cp :: cp in s.disk.fallback ==> Off(s, k, cp) <= Off(s, k, s.disk.view))
      && Off(s, k, s.disk.view) <= EndIn(s, k)
      && (s.proc.Up? ==> Off(s, k, s.disk.view) <= s.proc.committed <= EndIn(s, k))
  }

  /** Call `i` starts at the end of the call before it or earlier in that file. */
  predicate GoesBack(lives: seq<Life>, log: seq<Emission>, i: nat)
    requires i < |log|
  {
    i > 0 && log[i].life < |lives| && Own(lives, log[i].life) && log[i - 1].life == log[i].life
    ==> log[i].start <= log[i - 1].event.committed
  }

  predicate OnlyBack(lives: seq<Life>, log: seq<Emission>) {
    forall i {:trigger GoesBack(lives, log, i)} :: 0 <= i < |log| ==> GoesBack(lives, log, i)
  }

  lemma OwnBefore(lives: seq<Life>, later: seq<Life>, k: nat)
    requires k < |lives| <= |later| && (forall i :: 0 <= i < |lives| ==> later[i].identity == lives[i].identity)
    ensures Own(later, k) ==> Own(lives, k)
  {
    if Own(later, k) {
      forall j | 0 <= j < |lives| && j != k ensures lives[j].identity != lives[k].identity {
        assert later[j].identity != later[k].identity;
      }
    }
  }

  /** Work moves on to a life nothing was emitted of. */
  lemma BehindAnew(path: string, s: State)
    requires Inv(path, s) && (s.log != [] ==> s.log[|s.log| - 1].life < Work(s)) && (s.proc.Up? ==> s.proc.committed == 0)
    ensures Behind(s)
  {
    if Own(s.lives, Work(s)) {
      forall cp | cp in s.disk.fallback ensures Off(s, Work(s), cp) == 0 {
        Unopened(path, s, Work(s), cp);
      }
    }
  }

  lemma WorkAhead(path: string, s: State)
    requires Inv(path, s) && s.log != []
    ensures s.log[|s.log| - 1].life <= Work(s) <= s.Last()
  {
    LastLife(s);
  }

  /** Nothing that matters here changed. */
  lemma BehindSame(s: State, s': State)
    requires s.Formed() && s'.Formed() && Behind(s) && s'.log == s.log && s'.disk == s.disk
    requires s.proc.Up? && s'.proc.Up? && s'.proc.life == s.proc.life && s'.proc.committed == s.proc.committed
    requires |s.lives| <= |s'.lives| && (forall i :: 0 <= i < |s.lives| ==> s'.lives[i].identity == s.lives[i].identity)
    ensures Behind(s')
  {
    OwnBefore(s.lives, s'.lives, Work(s));
  }

  lemma BehindStops(path: string, s: State, s': State)
    requires Inv(path, s) && Behind(s) && Inv(path, s') && s'.proc.Down? && s'.lives == s.lives
    requires s'.disk == s.disk || (s'.disk.view in s.disk.fallback && s'.disk.fallback == {s'.disk.view})
    requires s'.log == s.log
    ensures Behind(s')
  {
    if s'.log != [] {
      WorkAhead(path, s);
    }
    if Work(s) != Work(s') {
      BehindAnew(path, s');
    }
  }

  lemma BehindStarts(path: string, s: State)
    requires Inv(path, s) && Behind(s) && !Skips(path, s, Boot)
    ensures Behind(Started(path, s, s.disk.view))
  {
    if s.proc.Down? && Own(s.lives, s.Last()) {
      ResumesThere(path, s, s.disk.view);
    }
  }

  lemma BehindEmits(path: string, s: State, outcome: Outcome)
    requires Inv(path, s) && Behind(s)
    ensures Behind(Emits(s, outcome))
  {
    if HasLine(s.proc) {
      EmittedLine(s, outcome);
      EmitKeeps(path, s, outcome);
      var s' := Emits(s, outcome);
      assert s'.log[|s'.log| - 1] == NextEmission(s, outcome);
      if outcome == Lost && s.proc.life < s.Last() {
        BehindAnew(path, s');
      }
    }
  }

  lemma BehindSaves(path: string, s: State, sync: bool)
    requires Inv(path, s) && Behind(s)
    ensures Behind(Saves(path, s, sync))
  {
  }

  /** The path changed hands. */
  lemma BehindReplaced(path: string, s: State, s': State)
    requires Inv(path, s) && Behind(s) && Inv(path, s') && s'.log == s.log && s'.disk == s.disk
    requires |s'.lives| > |s.lives| && (forall i :: 0 <= i < |s.lives| ==> s'.lives[i].identity == s.lives[i].identity)
    requires if s.proc.Down? then s'.proc.Down? else s'.proc.Up? && s'.proc.life == s.proc.life && s'.proc.committed == s.proc.committed
    ensures Behind(s')
  {
    if s.proc.Up? {
      BehindSame(s, s');
    } else {
      if s'.log != [] {
        WorkAhead(path, s);
      }
      BehindAnew(path, s');
    }
  }

  /** Work moves on to the file at the path, from its start. */
  lemma BehindFromStart(path: string, s: State)
    requires Inv(path, s) && s.proc.Up? && s.proc.life < s.Last()
    ensures Behind(s.(proc := FromStart(s)))
  {
    FromStartKeeps(path, s);
    if s.log != [] {
      WorkAhead(path, s);
    }
    BehindAnew(path, s.(proc := FromStart(s)));
  }

  lemma BehindPolls(path: string, s: State)
    requires Inv(path, s) && Behind(s)
    ensures Behind(Polls(s)) && Behind(SeesEof(s)) && Behind(Reopens(s))
  {
    if s.proc.Up? {
      if s.proc.life < s.Last() {
        BehindFromStart(path, s);
      }
      if |s.lives[s.Last()].content| < s.proc.read {
        ShorterIsTruncated(s);
      }
      BehindSame(s, SeesEof(s));
    }
  }

  lemma BehindGrows(path: string, s: State, i: nat, bytes: string)
    requires Inv(path, s) && Behind(s)
    ensures Behind(Grown(s, i, bytes))
  {
    OwnBefore(s.lives, Grown(s, i, bytes).lives, Work(s));
  }

  lemma BehindLeaves(path: string, s: State, identity: FileIdentity)
    requires Inv(path, s) && Behind(s)
    ensures Behind(Rotated(s, identity)) && Behind(Truncated(s))
  {
    RotateKeeps(path, s, identity);
    TruncateKeeps(path, s);
    if Rotated(s, identity) != s {
      BehindReplaced(path, s, Rotated(s, identity));
    }
    BehindReplaced(path, s, Truncated(s));
  }

  lemma BehindReads(path: string, s: State, n: nat)
    requires Inv(path, s) && Behind(s) && !Skips(path, s, ReadSome(n))
    ensures Behind(Reads(s, n))
  {
    if s.proc.Up? {
      BehindSame(s, Reads(s, n));
    }
  }

  lemma BehindKilled(path: string, s: State, pick: Checkpoint)
    requires Inv(path, s) && Behind(s)
    ensures Behind(Step(path, s, Kill)) && Behind(Step(path, s, Outage(pick)))
  {
    StopKeeps(path, s, pick);
    BehindStops(path, s, Step(path, s, Kill));
    if pick in s.disk.fallback {
      BehindStops(path, s, Step(path, s, Outage(pick)));
    }
  }

  lemma BehindStep(path: string, s: State, a: Action)
    requires Inv(path, s) && Behind(s) && !Skips(path, s, a)
    ensures Behind(Step(path, s, a))
  {
    match a
    case Grow(i, bytes) => BehindGrows(path, s, i, bytes);
    case Rotate(identity) => BehindLeaves(path, s, identity);
    case Truncate => BehindLeaves(path, s, s.lives[0].identity);
    case Boot => BehindStarts(path, s);
    case ReadSome(n) => BehindReads(path, s, n);
    case Emit(outcome) => BehindEmits(path, s, outcome);
    case SaveStep(sync) => BehindSaves(path, s, sync);
    case Poll => BehindPolls(path, s);
    case SeeEof => BehindPolls(path, s);
    case Reopen => BehindPolls(path, s);
    case Kill => BehindKilled(path, s, NO_CHECKPOINT);
    case Outage(pick) => BehindKilled(path, s, pick);
  }

  lemma BackStep(path: string, s: State, a: Action)
    requires Inv(path, s) && Behind(s) && OnlyBack(s.lives, s.log)
    ensures OnlyBack(Step(path, s, a).lives, Step(path, s, a).log)
  {
    var s' := Step(path, s, a);
    StepAddsLife(path, s, a);
    forall i | 0 <= i < |s'.log| ensures GoesBack(s'.lives, s'.log, i) {
      if i < |s.log| {
        assert s'.log[i] == s.log[i] && (i > 0 ==> s'.log[i - 1] == s.log[i - 1]);
        assert Follows(s.lives, s.log, i);
        assert GoesBack(s.lives, s.log, i);
        OwnBefore(s.lives, s'.lives, s.log[i].life);
      } else {
        assert s'.log[i] == NextEmission(s, a.outcome) && s'.lives == s.lives;
      }
    }
  }

  lemma {:induction false} RunBack(path: string, s: State, actions: seq<Action>)
    requires Inv(path, s) && Behind(s) && OnlyBack(s.lives, s.log) && NoSkips(path, s, actions)
    ensures Behind(Run(path, s, actions)) && OnlyBack(Run(path, s, actions).lives, Run(path, s, actions).log)
    decreases |actions|
  {
    if actions != [] {
      StepKeeps(path, s, actions[0]);
      BehindStep(path, s, actions[0]);
      BackStep(path, s, actions[0]);
      RunBack(path, Step(path, s, actions[0]), actions[1..]);
    }
  }

  /** In every run, whatever the kills and power losses, the next call about a file with an identity of
      its own starts where the last one ended or before it: a restart may go back, never forward. */
  lemma RestartsOnlyGoBack(path: string, first: Life, actions: seq<Action>, i: nat)
    requires NoSkips(path, Init(first), actions)
    requires 0 < i < |Run(path, Init(first), actions).log|
    ensures var s := Run(path, Init(first), actions);
            && s.log[i].life < |s.lives|
            && (Own(s.lives, s.log[i].life) && s.log[i - 1].life == s.log[i].life ==> s.log[i].start <= s.log[i - 1].event.committed)
  {
    InitOk(path, first);
    RunBack(path, Init(first), actions);
    EmissionsInOrder(path, first, actions, i);
    var s := Run(path, Init(first), actions);
    assert GoesBack(s.lives, s.log, i);
  }

  // ----- At most one repetition per restart -----

  /** Where the last call started or ended. */
  predicate Near(s: State, k: nat, o: int) { o == StartIn(s, k) || o == EndIn(s, k) }

  /** The current checkpoint lags by the line in flight at most. */
  ghost predicate Close(s: State)
    requires s.Formed()
  {
    var k := Work(s);
    Own(s.lives, k) ==>
      && Near(s, k, Off(s, k, s.disk.view))
      && (s.proc.Up? ==>
            match s.proc.phase
            case Reading => s.proc.committed == Off(s, k, s.disk.view)
            case Saving(j) => j <= 5 && s.proc.committed == EndIn(s, k)
                              && Off(s, k, s.disk.view) == (if j == 5 then EndIn(s, k) else StartIn(s, k))
                              && (j == 5 ==> exists cp :: cp in s.disk.fallback && Off(s, k, cp) == StartIn(s, k)))
  }

  /** So do all checkpoints that a power loss may bring back, and outside the last effect of a save they
      stand where the current one stands. */
  ghost predicate Settled(s: State)
    requires s.Formed()
  {
    var k := Work(s);
    Own(s.lives, k) && k == s.Last() ==>
      forall cp :: cp in s.disk.fallback ==>
        if s.Working(Saving(5)) then Near(s, k, Off(s, k, cp)) else Off(s, k, cp) == Off(s, k, s.disk.view)
  }

  /** The step that ends a save without an effective directory sync: a kill just before it, or an
      ignored error. */
  predicate Unsettles(s: State, a: Action)
    requires s.Formed()
  {
    && s.Working(Saving(5)) && s.proc.life == s.Last() && s.proc.committed > 0
    && (a == Kill || a == SaveStep(false))
  }

  function SettledAfter(s: State, a: Action, settled: bool): bool
    requires s.Formed()
  {
    (s.Working(Saving(5)) && a == SaveStep(true)) || (settled && !Unsettles(s, a))
  }

  /** No power loss comes between such a step and the next effective directory sync. */
  predicate OutagesSettled(path: string, s: State, actions: seq<Action>, settled: bool)
    requires s.Formed()
    decreases |actions|
  {
    actions == [] ||
    ((actions[0].Outage? ==> settled)
     && OutagesSettled(path, Step(path, s, actions[0]), actions[1..], SettledAfter(s, actions[0], settled)))
  }

  /** Call `i` continues the call before it or repeats it. */
  predicate RepeatsAtMost(lives: seq<Life>, log: seq<Emission>, i: nat)
    requires i < |log|
  {
    i > 0 && log[i].life < |lives| && Own(lives, log[i].life) && log[i - 1].life == log[i].life
    ==> log[i].start == log[i - 1].event.committed || log[i].start == log[i - 1].start
  }

  predicate FewRepeats(lives: seq<Life>, log: seq<Emission>) {
    forall i {:trigger RepeatsAtMost(lives, log, i)} :: 0 <= i < |log| ==> RepeatsAtMost(lives, log, i)
  }

  // ----- The steps keep it -----

  lemma CloseAnew(path: string, s: State)
    requires Inv(path, s) && (s.log != [] ==> s.log[|s.log| - 1].life < Work(s))
    requires s.proc.Up? ==> s.proc.committed == 0 && s.proc.phase == Saving(0)
    ensures Close(s) && Settled(s)
  {
    if Own(s.lives, Work(s)) {
      forall cp | cp in s.disk.fallback ensures Off(s, Work(s), cp) == 0 {
        Unopened(path, s, Work(s), cp);
      }
    }
  }

  /** The process goes on as it was. */
  lemma CloseSame(s: State, s': State)
    requires s.Formed() && s'.Formed() && s'.log == s.log && s'.disk == s.disk
    requires s.proc.Up? && s'.proc.Up? && s'.proc.life == s.proc.life && s'.proc.committed == s.proc.committed && s'.proc.phase == s.proc.phase
    requires |s.lives| <= |s'.lives| && (forall i :: 0 <= i < |s.lives| ==> s'.lives[i].identity == s.lives[i].identity)
    ensures Close(s) ==> Close(s')
    ensures Settled(s) ==> Settled(s')
  {
    OwnBefore(s.lives, s'.lives, Work(s));
    assert forall cp :: Off(s', Work(s), cp) == Off(s, Work(s), cp);
    assert StartIn(s', Work(s)) == StartIn(s, Work(s)) && EndIn(s', Work(s)) == EndIn(s, Work(s));
  }

  lemma CloseGrows(s: State, i: nat, bytes: string)
    requires s.Formed()
    ensures Close(s) ==> Close(Grown(s, i, bytes))
    ensures Settled(s) ==> Settled(Grown(s, i, bytes))
  {
    var s' := Grown(s, i, bytes);
    OwnBefore(s.lives, s'.lives, Work(s));
    assert forall cp :: Off(s', Work(s), cp) == Off(s, Work(s), cp);
  }

  lemma CloseReplaced(path: string, s: State, s': State)
    requires Inv(path, s) && Inv(path, s') && s'.log == s.log && s'.disk == s.disk && Close(s)
    requires |s'.lives| > |s.lives| && (forall i :: 0 <= i < |s.lives| ==> s'.lives[i].identity == s.lives[i].identity)
    requires if s.proc.Down? then s'.proc.Down?
             else s'.proc.Up? && s'.proc.life == s.proc.life && s'.proc.committed == s.proc.committed && s'.proc.phase == s.proc.phase
    ensures Close(s')
    ensures Settled(s) ==> Settled(s')
  {
    if s.proc.Up? {
      CloseSame(s, s');
    } else {
      if s'.log != [] {
        WorkAhead(path, s);
      }
      CloseAnew(path, s');
    }
  }

  lemma CloseLeaves(path: string, s: State, identity: FileIdentity)
    requires Inv(path, s) && Close(s)
    ensures Close(Rotated(s, identity)) && Close(Truncated(s))
    ensures Settled(s) ==> Settled(Rotated(s, identity)) && Settled(Truncated(s))
  {
    RotateKeeps(path, s, identity);
    TruncateKeeps(path, s);
    if Rotated(s, identity) != s {
      CloseReplaced(path, s, Rotated(s, identity));
    }
    CloseReplaced(path, s, Truncated(s));
  }

  lemma CloseStarts(path: string, s: State)
    requires Inv(path, s) && Close(s)
    ensures Close(Started(path, s, s.disk.view))
    ensures Settled(s) ==> Settled(Started(path, s, s.disk.view))
  {
    if s.proc.Down? && Own(s.lives, s.Last()) {
      ResumesThere(path, s, s.disk.view);
    }
  }

  lemma CloseReads(path: string, s: State, n: nat)
    requires Inv(path, s) && Close(s) && !Skips(path, s, ReadSome(n))
    ensures Close(Reads(s, n))
    ensures Settled(s) ==> Settled(Reads(s, n))
  {
    if s.proc.Up? {
      CloseSame(s, Reads(s, n));
    }
  }

  lemma CloseEmits(path: string, s: State, outcome: Outcome)
    requires Inv(path, s) && Close(s)
    ensures Close(Emits(s, outcome))
    ensures Settled(s) ==> Settled(Emits(s, outcome))
  {
    if HasLine(s.proc) {
      EmitKeeps(path, s, outcome);
      var s' := Emits(s, outcome);
      assert s'.log[|s'.log| - 1] == NextEmission(s, outcome);
      if outcome == Lost && s.proc.life < s.Last() {
        CloseAnew(path, s');
      }
    }
  }

  /** Every line has an end past 0. */
  lemma NothingIn(path: string, s: State, k: nat)
    requires Inv(path, s) && EndIn(s, k) == 0
    ensures StartIn(s, k) == 0
  {
    if s.log != [] {
      assert Follows(s.lives, s.log, |s.log| - 1);
    }
  }

  lemma CloseSaves(path: string, s: State, sync: bool)
    requires Inv(path, s) && Close(s)
    ensures Close(Saves(path, s, sync))
    ensures SettledAfter(s, SaveStep(sync), Settled(s)) ==> Settled(Saves(path, s, sync))
  {
    if s.proc.Up? && s.proc.phase == Saving(4) {
      var s' := Saves(path, s, sync);
      assert s.disk.view in s'.disk.fallback;
    }
    if EndIn(s, Work(s)) == 0 {
      NothingIn(path, s, Work(s));
    }
  }

  lemma CloseFromStart(path: string, s: State)
    requires Inv(path, s) && s.proc.Up? && s.proc.life < s.Last()
    ensures Close(s.(proc := FromStart(s))) && Settled(s.(proc := FromStart(s)))
  {
    FromStartKeeps(path, s);
    if s.log != [] {
      WorkAhead(path, s);
    }
    CloseAnew(path, s.(proc := FromStart(s)));
  }

  lemma ClosePolls(path: string, s: State)
    requires Inv(path, s) && Close(s)
    ensures Close(Polls(s)) && Close(SeesEof(s)) && Close(Reopens(s))
    ensures Settled(s) ==> Settled(Polls(s)) && Settled(SeesEof(s)) && Settled(Reopens(s))
  {
    if s.proc.Up? {
      if s.proc.life < s.Last() {
        CloseFromStart(path, s);
      }
      if |s.lives[s.Last()].content| < s.proc.read {
        ShorterIsTruncated(s);
      }
      CloseSame(s, SeesEof(s));
      CloseSame(s, s.(proc := s.proc.(stage := Draining)));
    }
  }

  lemma CloseKilled(path: string, s: State)
    requires Inv(path, s) && Close(s)
    ensures Close(Step(path, s, Kill))
    ensures SettledAfter(s, Kill, Settled(s)) ==> Settled(Step(path, s, Kill))
  {
    StopKeeps(path, s, NO_CHECKPOINT);
    if s.log != [] {
      WorkAhead(path, s);
    }
    if Work(s) != s.Last() {
      CloseAnew(path, Step(path, s, Kill));
    } else if EndIn(s, Work(s)) == 0 {
      NothingIn(path, s, Work(s));
    }
  }

  lemma CloseOutage(path: string, s: State, pick: Checkpoint)
    requires Inv(path, s) && Close(s) && Settled(s)
    ensures Close(Step(path, s, Outage(pick))) && Settled(Step(path, s, Outage(pick)))
  {
    if pick in s.disk.fallback {
      StopKeeps(path, s, pick);
      if s.log != [] {
        WorkAhead(path, s);
      }
      if Work(s) != s.Last() {
        CloseAnew(path, Step(path, s, Outage(pick)));
      }
    }
  }

  lemma CloseStep(path: string, s: State, a: Action, settled: bool)
    requires Inv(path, s) && !Skips(path, s, a) && Close(s) && (settled ==> Settled(s)) && (a.Outage? ==> settled)
    ensures Close(Step(path, s, a)) && (SettledAfter(s, a, settled) ==> Settled(Step(path, s, a)))
  {
    match a
    case Grow(i, bytes) => CloseGrows(s, i, bytes);
    case Rotate(identity) => CloseLeaves(path, s, identity);
    case Truncate => CloseLeaves(path, s, s.lives[0].identity);
    case Boot => CloseStarts(path, s);
    case ReadSome(n) => CloseReads(path, s, n);
    case Emit(outcome) => CloseEmits(path, s, outcome);
    case SaveStep(sync) => CloseSaves(path, s, sync);
    case Poll => ClosePolls(path, s);
    case SeeEof => ClosePolls(path, s);
    case Reopen => ClosePolls(path, s);
    case Kill => CloseKilled(path, s);
    case Outage(pick) => CloseOutage(path, s, pick);
  }

  lemma RepeatStep(path: string, s: State, a: Action)
    requires Inv(path, s) && Close(s) && FewRepeats(s.lives, s.log)
    ensures FewRepeats(Step(path, s, a).lives, Step(path, s, a).log)
  {
    var s' := Step(path, s, a);
    StepAddsLife(path, s, a);
    forall i | 0 <= i < |s'.log| ensures RepeatsAtMost(s'.lives, s'.log, i) {
      if i < |s.log| {
        assert s'.log[i] == s.log[i] && (i > 0 ==> s'.log[i - 1] == s.log[i - 1]);
        assert Follows(s.lives, s.log, i);
        assert RepeatsAtMost(s.lives, s.log, i);
        OwnBefore(s.lives, s'.lives, s.log[i].life);
      } else {
        assert s'.log[i] == NextEmission(s, a.outcome) && s'.lives == s.lives;
      }
    }
  }

  lemma {:induction false} RunClose(path: string, s: State, actions: seq<Action>, settled: bool)
    requires Inv(path, s) && NoSkips(path, s, actions) && OutagesSettled(path, s, actions, settled)
    requires Close(s) && (settled ==> Settled(s)) && FewRepeats(s.lives, s.log)
    ensures FewRepeats(Run(path, s, actions).lives, Run(path, s, actions).log) && Close(Run(path, s, actions))
    decreases |actions|
  {
    if actions != [] {
      StepKeeps(path, s, actions[0]);
      CloseStep(path, s, actions[0], settled);
      RepeatStep(path, s, actions[0]);
      RunClose(path, Step(path, s, actions[0]), actions[1..], SettledAfter(s, actions[0], settled));
    }
  }

  /** However kills and power losses are mixed, as long as no power loss comes between the end of a save
      without an effective directory sync and the next effective one, each call about a file with an
      identity of its own continues the call before it or repeats it, with the same text and offset. */
  lemma AtMostOneRepeat(path: string, first: Life, actions: seq<Action>, i: nat)
    requires NoSkips(path, Init(first), actions) && OutagesSettled(path, Init(first), actions, true)
    requires 0 < i < |Run(path, Init(first), actions).log|
    ensures var s := Run(path, Init(first), actions);
            && s.log[i].life < |s.lives|
            && (Own(s.lives, s.log[i].life) && s.log[i - 1].life == s.log[i].life ==>
                  s.log[i].start == s.log[i - 1].event.committed || s.log[i].event == s.log[i - 1].event)
  {
    InitOk(path, first);
    RunClose(path, Init(first), actions, true);
    EmissionsInOrder(path, first, actions, i);
    EmissionsInOrder(path, first, actions, i - 1);
    var s := Run(path, Init(first), actions);
    assert RepeatsAtMost(s.lives, s.log, i);
    var b := s.lives[s.log[i].life].content;
    if s.log[i - 1].life == s.log[i].life && s.log[i].start == s.log[i - 1].start {
      LineAtUnique(b, s.log[i].start, s.log[i].event, s.log[i - 1].event);
    }
  }

  // ----- And the condition is needed -----

  predicate Harmless(path: string, s: State, actions: seq<Action>)
    requires s.Formed()
  {
    NoSkips(path, s, actions) && OutagesSettled(path, s, actions, true)
  }

  lemma Prepend(path: string, s: State, a: Action, rest: seq<Action>)
    requires s.Formed() && !Skips(path, s, a) && !Unsettles(s, a) && Harmless(path, Step(path, s, a), rest)
    ensures Harmless(path, s, [a] + rest) && Run(path, s, [a] + rest) == Run(path, Step(path, s, a), rest)
  {
    assert ([a] + rest)[1..] == rest;
  }

  /** A start, a read of the whole file, and the first line. */
  function Served(path: string, s: State): State
    requires s.Formed()
  {
    Emits(Reads(Started(path, s, s.disk.view), |s.lives[s.Last()].content|), Delivered)
  }

  lemma StartsThere(path: string, s: State)
    requires Inv(path, s) && s.proc.Down? && Own(s.lives, s.Last())
    ensures !Skips(path, s, Boot) && Inv(path, Started(path, s, s.disk.view))
    ensures !Skips(path, Started(path, s, s.disk.view), ReadSome(|s.lives[s.Last()].content|))
  {
    ResumesThere(path, s, s.disk.view);
    BootKeeps(path, s);
  }

  /** Reading to the end of a file with a newline ahead brings a line in. */
  lemma ReadsLine(path: string, s: State)
    requires Inv(path, s) && s.MayRead() && s.proc.life == s.proc.handle == s.Last()
    requires !NoBreak(s.lives[s.Last()].content, s.proc.committed)
    ensures var s' := Reads(s, |s.lives[s.Last()].content|);
            Inv(path, s') && HasLine(s'.proc) && s' == s.(proc := s'.proc) && s'.proc.committed == s.proc.committed && s'.proc.life == s.proc.life
  {
    var b := s.lives[s.Last()].content;
    ReadKeeps(path, s, |b|);
    var s' := Reads(s, |b|);
    if '\n' !in s'.proc.pending {
      SliceNoBreak(b, s'.proc.committed, s'.proc.pending);
    }
  }

  lemma ServesOne(path: string, s: State)
    requires Inv(path, s) && s.proc.Down? && Own(s.lives, s.Last())
    requires !NoBreak(s.lives[s.Last()].content, Resume(path, s, s.disk.view))
    ensures var s', o := Served(path, s), Resume(path, s, s.disk.view);
            && Inv(path, s') && s'.lives == s.lives && s'.disk == s.disk && s'.Working(Saving(0))
            && |s'.log| == |s.log| + 1 && s.log <= s'.log
            && s'.log[|s.log|].life == s.Last() && s'.log[|s.log|].start == o < s'.log[|s.log|].event.committed
  {
    StartsThere(path, s);
    var s1 := Started(path, s, s.disk.view);
    ReadsLine(path, s1);
    var s2 := Reads(s1, |s.lives[s.Last()].content|);
    EmitKeeps(path, s2, Delivered);
    EmittedLine(s2, Delivered);
  }

  lemma ServeFirst(path: string, s: State, rest: seq<Action>) returns (actions: seq<Action>)
    requires Inv(path, s) && s.proc.Down? && Own(s.lives, s.Last())
    requires !NoBreak(s.lives[s.Last()].content, Resume(path, s, s.disk.view))
    requires Harmless(path, Served(path, s), rest)
    ensures Harmless(path, s, actions) && Run(path, s, actions) == Run(path, Served(path, s), rest)
  {
    StartsThere(path, s);
    var n := |s.lives[s.Last()].content|;
    var s1 := Step(path, s, Boot);
    var s2 := Step(path, s1, ReadSome(n));
    Prepend(path, s2, Emit(Delivered), rest);
    Prepend(path, s1, ReadSome(n), [Emit(Delivered)] + rest);
    Prepend(path, s, Boot, [ReadSome(n)] + ([Emit(Delivered)] + rest));
    actions := [Boot] + ([ReadSome(n)] + ([Emit(Delivered)] + rest));
  }

  /** After a power loss the next start hands over the line at the checkpoint it brought back. */
  lemma OutageThenServe(path: string, s: State, pick: Checkpoint) returns (more: seq<Action>)
    requires Inv(path, s) && Own(s.lives, s.Last()) && pick in s.disk.fallback
    requires Off(s, s.Last(), pick) >= 0 && !NoBreak(s.lives[s.Last()].content, Off(s, s.Last(), pick))
    ensures Harmless(path, s, more)
    ensures var s' := Run(path, s, more);
            && s'.lives == s.lives && |s'.log| == |s.log| + 1 && s.log <= s'.log
            && s'.log[|s.log|].life == s.Last() && s'.log[|s.log|].start == Off(s, s.Last(), pick)
  {
    var down := Step(path, s, Outage(pick));
    StopKeeps(path, s, pick);
    ResumesThere(path, down, pick);
    ServesOne(path, down);
    more := ServeFirst(path, down, []);
    Prepend(path, s, Outage(pick), more);
    more := [Outage(pick)] + more;
  }

  lemma KillThenServe(path: string, s: State)
    requires Inv(path, s) && Close(s) && s.Working(Saving(5)) && s.proc.committed > 0
    requires s.proc.life == s.Last() && Own(s.lives, s.Last()) && !NoBreak(s.lives[s.Last()].content, s.proc.committed)
    ensures var down := Step(path, s, Kill);
            var up := Served(path, down);
            && Inv(path, down) && !NoBreak(down.lives[down.Last()].content, Resume(path, down, down.disk.view))
            && Inv(path, up) && up.lives == s.lives && up.disk == s.disk && s.log != []
            && |up.log| == |s.log| + 1 && s.log <= up.log
            && up.log[|s.log|].life == s.Last() && up.log[|s.log|].start == s.proc.committed < up.log[|s.log|].event.committed
    ensures StartIn(s, s.Last()) < s.proc.committed
  {
    var down := Step(path, s, Kill);
    StopKeeps(path, s, NO_CHECKPOINT);
    ResumesThere(path, down, down.disk.view);
    ServesOne(path, down);
    assert Follows(s.lives, s.log, |s.log| - 1);
  }

  lemma NotFew(lives: seq<Life>, log: seq<Emission>, i: nat)
    requires 0 < i < |log| && log[i].life < |lives| && Own(lives, log[i].life) && log[i - 1].life == log[i].life
    requires log[i].start < log[i - 1].start < log[i - 1].event.committed
    ensures !FewRepeats(lives, log)
  {
    assert !RepeatsAtMost(lives, log, i);
  }

  /** Killed between rename and directory sync with another line to come, the process hands that line
      over at its next start; a power loss then brings the old checkpoint back, and the start after it
      repeats two lines. */
  lemma RepeatsTwo(path: string, s: State) returns (more: seq<Action>)
    requires Inv(path, s) && Close(s) && s.Working(Saving(5)) && s.proc.committed > 0
    requires s.proc.life == s.Last() && Own(s.lives, s.Last()) && !NoBreak(s.lives[s.Last()].content, s.proc.committed)
    ensures var down := Step(path, s, Kill);
            Harmless(path, down, more) && !FewRepeats(Run(path, down, more).lives, Run(path, down, more).log)
  {
    KillThenServe(path, s);
    var up := Served(path, Step(path, s, Kill));
    more := OldComesBack(path, s, up);
    more := ServeFirst(path, Step(path, s, Kill), more);
  }

  lemma OldComesBack(path: string, s: State, up: State) returns (more: seq<Action>)
    requires s.Formed() && Close(s) && s.Working(Saving(5)) && s.proc.life == s.Last() && Own(s.lives, s.Last())
    requires !NoBreak(s.lives[s.Last()].content, s.proc.committed) && StartIn(s, s.Last()) < s.proc.committed
    requires Inv(path, up) && up.lives == s.lives && up.disk == s.disk && up.log != []
    requires var e := up.log[|up.log| - 1]; e.life == s.Last() && e.start == s.proc.committed < e.event.committed
    ensures Harmless(path, up, more) && !FewRepeats(Run(path, up, more).lives, Run(path, up, more).log)
  {
    var last, n := s.Last(), |up.log|;
    var pick := OldCheckpoint(s);
    BreakBefore(s.lives[last].content, StartIn(s, last), s.proc.committed);
    more := OutageThenServe(path, up, pick);
    var end := Run(path, up, more);
    assert end.log[n - 1] == up.log[n - 1];
    NotFew(end.lives, end.log, n);
  }

  /** Between rename and directory sync the checkpoint before the new one can still come back. */
  lemma OldCheckpoint(s: State) returns (pick: Checkpoint)
    requires s.Formed() && Close(s) && s.Working(Saving(5)) && Own(s.lives, s.proc.life)
    ensures pick in s.disk.fallback && Off(s, s.proc.life, pick) == StartIn(s, s.proc.life)
  {
    pick :| pick in s.disk.fallback && Off(s, s.proc.life, pick) == StartIn(s, s.proc.life);
  }

  lemma BreakBefore(b: string, o: nat, o': nat)
    requires o <= o' && !NoBreak(b, o')
    ensures !NoBreak(b, o)
  {
  }

  /** The line after an ignored directory-sync error, with the bytes for it in memory. */
  lemma EmitThenOld(path: string, s: State, now: State) returns (more: seq<Action>)
    requires s.Formed() && Close(s) && s.Working(Saving(5)) && s.proc.life == s.Last() && Own(s.lives, s.Last())
    requires !NoBreak(s.lives[s.Last()].content, s.proc.committed) && StartIn(s, s.Last()) < s.proc.committed
    requires Inv(path, now) && HasLine(now.proc) && now.lives == s.lives && now.disk == s.disk
    requires now.proc.life == s.Last() && now.proc.committed == s.proc.committed
    ensures Harmless(path, now, more) && !FewRepeats(Run(path, now, more).lives, Run(path, now, more).log)
  {
    EmitKeeps(path, now, Delivered);
    EmittedLine(now, Delivered);
    var up := Emits(now, Delivered);
    assert up.log[|up.log| - 1] == NextEmission(now, Delivered);
    more := OldComesBack(path, s, up);
    Prepend(path, now, Emit(Delivered), more);
    more := [Emit(Delivered)] + more;
  }

  lemma StartsBelow(path: string, s: State)
    requires Inv(path, s) && Close(s) && s.Working(Saving(5)) && s.proc.committed > 0 && Own(s.lives, s.proc.life)
    ensures StartIn(s, s.proc.life) < s.proc.committed
  {
    if s.log != [] {
      assert Follows(s.lives, s.log, |s.log| - 1);
    }
  }

  /** With the directory-sync error ignored instead, the process itself hands the next line over before
      the power loss. */
  lemma IgnoredSyncRepeatsTwo(path: string, s: State) returns (more: seq<Action>)
    requires Inv(path, s) && Close(s) && s.Working(Saving(5)) && s.proc.committed > 0
    requires s.proc.life == s.Last() && Own(s.lives, s.Last()) && !NoBreak(s.lives[s.Last()].content, s.proc.committed)
    ensures var s' := Step(path, s, SaveStep(false));
            Harmless(path, s', more) && !FewRepeats(Run(path, s', more).lives, Run(path, s', more).log)
  {
    StartsBelow(path, s);
    SaveKeeps(path, s, false);
    var s1, n := Step(path, s, SaveStep(false)), |s.lives[s.Last()].content|;
    if HasLine(s1.proc) {
      more := EmitThenOld(path, s, s1);
    } else {
      ReadsLine(path, s1);
      more := EmitThenOld(path, s, Reads(s1, n));
      Prepend(path, s1, ReadSome(n), more);
      more := [ReadSome(n)] + more;
    }
  }

  ghost predicate StaysFew(path: string, s: State)
    requires s.Formed()
  {
    forall more :: Harmless(path, s, more) ==> FewRepeats(Run(path, s, more).lives, Run(path, s, more).log)
  }

  lemma SettledStaysFew(path: string, s: State, a: Action)
    requires Inv(path, s) && Close(s) && Settled(s) && FewRepeats(s.lives, s.log)
    requires !Skips(path, s, a) && !Unsettles(s, a)
    ensures StaysFew(path, Step(path, s, a))
  {
    StepKeeps(path, s, a);
    CloseStep(path, s, a, true);
    RepeatStep(path, s, a);
    forall more | Harmless(path, Step(path, s, a), more)
      ensures FewRepeats(Run(path, Step(path, s, a), more).lives, Run(path, Step(path, s, a), more).log)
    {
      RunClose(path, Step(path, s, a), more, true);
    }
  }

  lemma UnsettledRepeats(path: string, s: State, a: Action)
    requires Inv(path, s) && Close(s) && Unsettles(s, a)
    requires Own(s.lives, s.Last()) && !NoBreak(s.lives[s.Last()].content, s.proc.committed)
    ensures !StaysFew(path, Step(path, s, a))
  {
    if a == Kill {
      var more := RepeatsTwo(path, s);
    } else {
      var more := IgnoredSyncRepeatsTwo(path, s);
    }
  }

  /** So the condition of AtMostOneRepeat is exact: where nothing older than the last checkpoint but one
      can come back and a complete line is still to be handed over, a step, whatever it is, leaves a
      state from which no run that keeps to the condition ever repeats two lines, if and only if it does
      not end a line's save without an effective directory sync. */
  lemma UnsettlingIff(path: string, first: Life, actions: seq<Action>, a: Action)
    requires NoSkips(path, Init(first), actions) && OutagesSettled(path, Init(first), actions, true)
    requires var s := Run(path, Init(first), actions);
             && s.proc.Up? && s.proc.life == s.Last() && Own(s.lives, s.Last()) && Settled(s) && !Skips(path, s, a)
             && !NoBreak(s.lives[s.Last()].content, s.proc.committed)
    ensures var s := Run(path, Init(first), actions);
            StaysFew(path, Step(path, s, a)) <==> !Unsettles(s, a)
  {
    InitOk(path, first);
    RunKeeps(path, Init(first), actions);
    RunClose(path, Init(first), actions, true);
    var s := Run(path, Init(first), actions);
    if Unsettles(s, a) {
      UnsettledRepeats(path, s, a);
    } else {
      SettledStaysFew(path, s, a);
    }
  }

  // ----- Files that share an identity -----

  /** The first line of a file that the process has just found empty. */
  lemma FirstLineComes(path: string, s: State, bytes: string)
    requires Inv(path, s) && s.MayRead() && s.proc.stage == Tailing && s.proc.life == s.proc.handle == s.Last()
    requires s.lives[s.Last()].content == "" && !NoBreak(bytes, 0)
    ensures var grown := Grown(s, s.Last(), bytes);
            var read := Reads(grown, |bytes|);
            var s' := Emits(read, Delivered);
            && !Skips(path, grown, ReadSome(|bytes|)) && HasLine(read.proc)
            && Inv(path, s') && s'.lives[s'.Last()].content == bytes && s'.Last() == s.Last() && s'.disk == s.disk
            && s'.log == s.log + [s'.log[|s.log|]]
            && s'.log[|s.log|].life == s.Last() && s'.log[|s.log|].start == 0 && s'.log[|s.log|].outcome == Delivered
            && LineAt(bytes, 0, s'.log[|s.log|].event)
  {
    var grown := Grown(s, s.Last(), bytes);
    GrowKeeps(path, s, s.Last(), bytes);
    assert grown.lives[s.Last()].content == bytes;
    assert s.proc.committed == 0;
    ReadsLine(path, grown);
    var read := Reads(grown, |bytes|);
    EmitKeeps(path, read, Delivered);
    EmittedLine(read, Delivered);
  }

  /** A start, a read of everything and the first line, where the file may meanwhile have grown. */
  function TruncatedAndServed(path: string, s: State, bytes: string): State
    requires s.Formed()
  {
    var empty := Started(path, Truncated(s), s.disk.view);
    Emits(Reads(Grown(empty, empty.Last(), bytes), |bytes|), Delivered)
  }

  lemma ServesTruncated(path: string, s: State, o: nat, bytes: string)
    requires Inv(path, s) && s.proc.Down? && o > 0 && s.disk.view == Checkpoint(path, o, s.lives[s.Last()].identity)
    requires !NoBreak(bytes, 0)
    ensures !Skips(path, Truncated(s), Boot)
    ensures var s' := TruncatedAndServed(path, s, bytes);
            && Inv(path, s') && s'.Last() == |s.lives| && s'.disk == s.disk
            && s'.lives[s'.Last()] == Life(s.lives[s.Last()].identity, bytes)
            && s'.log == s.log + [s'.log[|s.log|]]
            && s'.log[|s.log|].life == s'.Last() && s'.log[|s.log|].start == 0 && s'.log[|s.log|].outcome == Delivered
            && LineAt(bytes, 0, s'.log[|s.log|].event)
  {
    TruncateKeeps(path, s);
    var cut := Truncated(s);
    BootKeeps(path, cut);
    var empty := Started(path, cut, s.disk.view);
    assert empty.lives[empty.Last()] == Life(s.lives[s.Last()].identity, "");
    FirstLineComes(path, empty, bytes);
  }

  /** A restart from a checkpoint that stands inside the line just handed over brings the rest of it. */
  lemma ServesRest(path: string, s: State, e: Emission, o: nat) returns (again: Emission)
    requires Inv(path, s) && s.proc.Down? && s.log != [] && s.log[|s.log| - 1] == e
    requires e.life == s.Last() && e.start == 0 && e.outcome != Lost && 0 < o < e.event.committed - 1
    requires s.disk.view == Checkpoint(path, o, s.lives[s.Last()].identity)
    requires LineAt(s.lives[s.Last()].content, 0, e.event)
    ensures !Skips(path, s, Boot) && Served(path, s).log == s.log + [again]
    ensures again.life == e.life && again.start == o
    ensures again.event.committed == e.event.committed && again.event.line != e.event.line
  {
    var b := s.lives[s.Last()].content;
    assert b[e.event.committed - 1] == '\n';
    assert Resume(path, s, s.disk.view) == o < High(s, s.Last());
    BootKeeps(path, s);
    var s1 := Started(path, s, s.disk.view);
    ReadsLine(path, s1);
    var s2 := Reads(s1, |b|);
    EmittedLine(s2, Delivered);
    again := NextEmission(s2, Delivered);
    SameEnd(b, o, e.event, again.event);
  }

  /** That a file has an identity of its own matters for AtMostOneRepeat: killed after the first line of
      a truncated file and before its save, the process resumes from the checkpoint of the file's earlier
      life, in the middle of that line and without skipping anything, and hands over the rest of it. */
  lemma ResumesInside(path: string, s: State, o: nat, bytes: string) returns (first: Emission, second: Emission)
    requires Inv(path, s) && s.proc.Down? && s.disk.view == Checkpoint(path, o, s.lives[s.Last()].identity)
    requires 0 < o < Break(bytes, 0) < |bytes|
    ensures !Skips(path, Truncated(s), Boot) && TruncatedAndServed(path, s, bytes).log == s.log + [first]
    ensures var down := TruncatedAndServed(path, s, bytes).(proc := Down);
            !Skips(path, down, Boot) && Served(path, down).log == down.log + [second]
    ensures first.life == second.life && first.start == 0 && second.start == o
    ensures o < first.event.committed == second.event.committed && second.event.line != first.event.line
  {
    ServesTruncated(path, s, o, bytes);
    first := TruncatedAndServed(path, s, bytes).log[|s.log|];
    second := KilledInside(path, TruncatedAndServed(path, s, bytes), first, o, bytes);
  }

  lemma KilledInside(path: string, one: State, first: Emission, o: nat, bytes: string) returns (second: Emission)
    requires Inv(path, one) && one.log != [] && one.log[|one.log| - 1] == first
    requires one.lives[one.Last()].content == bytes && 0 < o < Break(bytes, 0) < |bytes|
    requires one.disk.view == Checkpoint(path, o, one.lives[one.Last()].identity)
    requires first.life == one.Last() && first.start == 0 && first.outcome == Delivered && LineAt(bytes, 0, first.event)
    ensures var down := one.(proc := Down);
            !Skips(path, down, Boot) && Served(path, down).log == down.log + [second]
    ensures second.life == first.life && second.start == o < first.event.committed == second.event.committed
    ensures second.event.line != first.event.line
  {
    StopKeeps(path, one, NO_CHECKPOINT);
    assert bytes[Break(bytes, 0)] == '\n' && first.event.committed == Break(bytes, 0) + 1;
    second := ServesRest(path, one.(proc := Down), first, o);
  }

  lemma SameEnd(b: string, o: nat, e: TailEvent, e': TailEvent)
    requires LineAt(b, 0, e) && LineAt(b, o, e') && 0 < o < e.committed - 1
    ensures e'.committed == e.committed && e'.line != e.line
  {
    assert b[e.committed - 1] == '\n' && b[e'.committed - 1] == '\n';
    assert |e'.line| < |e.line|;
  }
}
