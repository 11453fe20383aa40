/** When the forwarder hands every line over and when it loses one, over rotations and truncations of
    the source file (cmd/log-forwarder/follower.go). */
module Loss {
  import opened Lines
  import opened Follower
  import opened Delivery

  // ----- What was handed over -----

  /** `e` is the complete line at offset `o` of life `i`. */
  predicate Line(s: State, i: nat, o: nat, e: TailEvent) {
    i < |s.lives| && Boundary(s.lives[i].content, o) && LineAt(s.lives[i].content, o, e)
  }

  /** It was handed to the callback, whole, and not lost. */
  predicate Emitted(log: seq<Emission>, i: nat, o: nat, e: TailEvent) {
    exists k :: 0 <= k < |log| && log[k].life == i && log[k].start == o && log[k].event == e && log[k].outcome != Lost
  }

  ghost predicate AllEmitted(s: State) {
    forall i, o, e :: Line(s, i, o, e) ==> Emitted(s.log, i, o, e)
  }

  lemma {:induction false} MarkIsBoundary(lives: seq<Life>, log: seq<Emission>, i: nat, n: nat)
    requires InOrder(lives, log) && i < |lives| && n <= |log|
    ensures Mark(log, i, n) <= |lives[i].content| && Boundary(lives[i].content, Mark(log, i, n))
  {
    if n > 0 {
      MarkIsBoundary(lives, log, i, n - 1);
      assert Follows(lives, log, n - 1);
    }
  }

  /** No line below the mark was left out. */
  lemma {:induction false} BelowMark(s: State, i: nat, n: nat, o: nat, e: TailEvent)
    requires InOrder(s.lives, s.log) && n <= |s.log| && Line(s, i, o, e) && o < Mark(s.log, i, n)
    ensures Emitted(s.log, i, o, e)
  {
    if o < Mark(s.log, i, n - 1) {
      BelowMark(s, i, n - 1, o, e);
    } else {
      var last := s.log[n - 1];
      assert Follows(s.lives, s.log, n - 1);
      assert o == last.start;
      LineAtUnique(s.lives[i].content, o, e, last.event);
    }
  }

  /** And no line above it was handed over. */
  lemma EmittedBelowMark(s: State, i: nat, o: nat, e: TailEvent)
    requires InOrder(s.lives, s.log) && Emitted(s.log, i, o, e)
    ensures o < e.committed <= High(s, i)
  {
    var k :| 0 <= k < |s.log| && s.log[k].life == i && s.log[k].start == o && s.log[k].event == e && s.log[k].outcome != Lost;
    assert Follows(s.lives, s.log, k);
    MarkAscends(s.log, i, k + 1, |s.log|);
  }

  /** The lines of a life not handed over are those from its mark on. */
  lemma EmittedIff(s: State, i: nat, o: nat, e: TailEvent)
    requires InOrder(s.lives, s.log) && Line(s, i, o, e)
    ensures Emitted(s.log, i, o, e) <==> o < High(s, i)
  {
    if Emitted(s.log, i, o, e) {
      EmittedBelowMark(s, i, o, e);
    }
    if o < High(s, i) {
      BelowMark(s, i, |s.log|, o, e);
    }
  }

  function Max(a: int, b: int): int { if a > b then a else b }

  /** Life `i` has a complete line that was not handed over and does not end before `r`. */
  predicate Owes(s: State, i: nat, r: nat)
    requires i < |s.lives|
  {
    !NoBreak(s.lives[i].content, Max(High(s, i), r))
  }

  /** The first line that life `i` owes. */
  lemma OwedLine(s: State, i: nat) returns (e: TailEvent)
    requires InOrder(s.lives, s.log) && i < |s.lives| && Owes(s, i, 0)
    ensures Line(s, i, High(s, i), e) && !Emitted(s.log, i, High(s, i), e)
  {
    var b, m := s.lives[i].content, High(s, i);
    MarkIsBoundary(s.lives, s.log, i, |s.log|);
    assert Break(b, m) < |b|;
    e := FirstEvent(b, m);
    EmittedIff(s, i, m, e);
  }

  /** All lines were handed over if and only if no life has a newline past its mark. */
  lemma AllEmittedIff(s: State)
    requires InOrder(s.lives, s.log)
    ensures AllEmitted(s) <==> forall i :: 0 <= i < |s.lives| ==> !Owes(s, i, 0)
  {
    if exists i :: 0 <= i < |s.lives| && Owes(s, i, 0) {
      var i :| 0 <= i < |s.lives| && Owes(s, i, 0);
      var e := OwedLine(s, i);
    } else {
      forall i: nat, o: nat, e | Line(s, i, o, e) ensures Emitted(s.log, i, o, e) {
        assert s.lives[i].content[e.committed - 1] == '\n';
        assert !Owes(s, i, 0);
        EmittedIff(s, i, o, e);
      }
    }
  }

  /** No checkpoint passes an unaccounted line: every checkpoint on disk, current or one that a power
      loss may bring back, names a file that was at the path, stands at 0 or just past one of its
      newlines, and every line of it that ends at or before that offset was delivered, dead-lettered or
      counted as unparsed. */
  lemma CheckpointNeverPasses(path: string, first: Life, actions: seq<Action>, cp: Checkpoint) returns (j: nat)
    requires NoSkips(path, Init(first), actions)
    requires cp in Run(path, Init(first), actions).disk.fallback || cp == Run(path, Init(first), actions).disk.view
    ensures var s := Run(path, Init(first), actions);
            && j < |s.lives| && (cp == NO_CHECKPOINT || (cp.filePath == path && cp.identity == s.lives[j].identity))
            && Boundary(s.lives[j].content, cp.offset)
            && forall o, e :: Line(s, j, o, e) && e.committed <= cp.offset ==> Emitted(s.log, j, o, e)
  {
    InitOk(path, first);
    RunKeeps(path, Init(first), actions);
    var s := Run(path, Init(first), actions);
    assert CheckpointOk(path, s, cp);
    if cp == NO_CHECKPOINT {
      j := 0;
    } else {
      j :| CheckpointIn(s, cp, j);
      forall o: nat, e | Line(s, j, o, e) && e.committed <= cp.offset ensures Emitted(s.log, j, o, e) {
        EmittedIff(s, j, o, e);
      }
    }
  }

  // ----- Lines out of reach -----

  /** How far life `i` can still be read: whole while it is at the path or being drained, and otherwise
      up to the bytes in memory. */
  function Reach(s: State, i: nat): nat
    requires s.Formed() && i < |s.lives|
  {
    if i == s.Last() then |s.lives[i].content|
    else if s.proc.Down? || s.proc.life != i then 0
    else if s.proc.handle == i && s.proc.stage != Drained then |s.lives[i].content|
    else s.proc.read
  }

  /** Life `i` owes a line that cannot be read any more. */
  predicate Strands(s: State, i: nat)
    requires s.Formed() && i < |s.lives|
  {
    Owes(s, i, Reach(s, i))
  }

  /** The process is up and its offsets are about life `i`. */
  predicate Holds(s: State, i: nat) { s.proc.Up? && s.proc.life == i }

  /** The step by which life `i` loses a line: its file leaves the path or is emptied while it owes lines
      that the process has not read, the process stops in the middle of draining it, or somebody
      completes a line in it when nobody reads it any more. */
  predicate Drops(s: State, a: Action, i: nat)
    requires s.Formed() && i < |s.lives|
  {
    match a
    case Grow(j, bytes) =>
      j == i && Latest(s.lives, i) && '\n' in bytes
      && i != s.Last() && !(Holds(s, i) && s.proc.handle == i && s.proc.stage != Drained)
    case Rotate(identity) => Rotated(s, identity) != s && i == s.Last() && !Holds(s, i) && Owes(s, i, 0)
    case Truncate => i == s.Last() && Owes(s, i, if Holds(s, i) then s.proc.read else 0)
    case Kill => Holds(s, i) && i != s.Last() && Owes(s, i, 0)
    case Outage(pick) => pick in s.disk.fallback && Holds(s, i) && i != s.Last() && Owes(s, i, 0)
    case Emit(outcome) => HasLine(s.proc) && outcome == Lost && Holds(s, i) && i != s.Last() && Owes(s, i, 0)
    case _ => false
  }

  lemma GrowStrands(path: string, s: State, j: nat, bytes: string, i: nat)
    requires Inv(path, s) && i < |s.lives|
    ensures Strands(Grown(s, j, bytes), i) <==> Strands(s, i) || Drops(s, Grow(j, bytes), i)
  {
    var s' := Grown(s, j, bytes);
    if j == i && s' != s {
      MarkIsBoundary(s.lives, s.log, i, |s.log|);
      BreakInEither(s.lives[i].content, bytes, Max(High(s, i), Reach(s, i)));
    }
  }

  lemma BreakInEither(b: string, more: string, r: nat)
    requires r <= |b|
    ensures NoBreak(b + more, r) <==> NoBreak(b, r) && '\n' !in more
    ensures NoBreak(b + more, |b + more|)
  {
    if NoBreak(b + more, r) {
      forall k | 0 <= k < |more| ensures more[k] != '\n' {
        assert (b + more)[|b| + k] == more[k];
      }
      forall k | r <= k < |b| ensures b[k] != '\n' {
        assert (b + more)[k] == b[k];
      }
    }
  }

  lemma LeaveStrands(path: string, s: State, identity: FileIdentity, i: nat)
    requires Inv(path, s) && i < |s.lives|
    ensures Strands(Rotated(s, identity), i) <==> Strands(s, i) || Drops(s, Rotate(identity), i)
    ensures Strands(Truncated(s), i) <==> Strands(s, i) || Drops(s, Truncate, i)
  {
  }

  lemma StopStrands(path: string, s: State, i: nat)
    requires Inv(path, s) && i < |s.lives|
    ensures var s' := Step(path, s, Kill);
            Strands(s', i) <==> Strands(s, i) || Drops(s, Kill, i)
  {
  }

  lemma EmitStrands(path: string, s: State, outcome: Outcome, i: nat)
    requires Inv(path, s) && i < |s.lives|
    ensures Strands(Emits(s, outcome), i) <==> Strands(s, i) || Drops(s, Emit(outcome), i)
  {
    if HasLine(s.proc) {
      var e := NextEmission(s, outcome);
      EmittedLine(s, outcome);
      MarkSnoc(s.log, e, i);
    }
  }

  lemma NothingPending(s: State)
    requires s.Formed() && ProcOk(s) && s.proc.Up? && '\n' !in s.proc.pending
    ensures Owes(s, s.proc.life, 0) ==> Owes(s, s.proc.life, s.proc.read)
  {
    SliceLacks(s.lives[s.proc.life].content, s.proc.committed, s.proc.read, s.proc.pending);
  }

  lemma PollStrands(path: string, s: State, i: nat)
    requires Inv(path, s) && i < |s.lives|
    ensures Strands(Polls(s), i) <==> Strands(s, i)
  {
    if s.proc.Up? && '\n' !in s.proc.pending {
      NothingPending(s);
    }
  }

  lemma ReopenStrands(path: string, s: State, i: nat)
    requires Inv(path, s) && i < |s.lives|
    ensures Strands(SeesEof(s), i) <==> Strands(s, i)
    ensures Strands(Reopens(s), i) <==> Strands(s, i)
  {
    if s.proc.Up? && '\n' !in s.proc.pending {
      NothingPending(s);
    }
  }

  lemma ReadStrands(path: string, s: State, n: nat, i: nat)
    requires Inv(path, s) && i < |s.lives| && !Skips(path, s, ReadSome(n))
    ensures Strands(Reads(s, n), i) <==> Strands(s, i)
  {
  }

  /** A step puts a line of life `i` out of reach exactly if it is one of those. */
  lemma StrandsStep(path: string, s: State, a: Action, i: nat)
    requires Inv(path, s) && !Skips(path, s, a) && i < |s.lives|
    ensures i < |Step(path, s, a).lives| && (Strands(Step(path, s, a), i) <==> Strands(s, i) || Drops(s, a, i))
  {
    StepAddsLife(path, s, a);
    match a
    case Grow(j, bytes) => GrowStrands(path, s, j, bytes, i);
    case Rotate(identity) => LeaveStrands(path, s, identity, i);
    case Truncate => LeaveStrands(path, s, s.lives[i].identity, i);
    case Boot =>
    case ReadSome(n) => ReadStrands(path, s, n, i);
    case Emit(outcome) => EmitStrands(path, s, outcome, i);
    case SaveStep(sync) =>
    case Poll => PollStrands(path, s, i);
    case SeeEof => ReopenStrands(path, s, i);
    case Reopen => ReopenStrands(path, s, i);
    case Kill => StopStrands(path, s, i);
    case Outage(pick) => StopStrands(path, s, i);
  }

  // ----- At least once -----

  ghost predicate NoStrands(s: State)
    requires s.Formed()
  {
    forall i :: 0 <= i < |s.lives| ==> !Strands(s, i)
  }

  predicate DropsNone(s: State, a: Action)
    requires s.Formed()
  {
    forall i :: 0 <= i < |s.lives| ==> !Drops(s, a, i)
  }

  predicate NoDrops(path: string, s: State, actions: seq<Action>)
    requires s.Formed()
    decreases |actions|
  {
    actions == [] || (DropsNone(s, actions[0]) && NoDrops(path, Step(path, s, actions[0]), actions[1..]))
  }

  lemma StepAddsLife(path: string, s: State, a: Action)
    requires s.Formed()
    ensures var s' := Step(path, s, a);
            |s.lives| <= |s'.lives| <= |s.lives| + 1
            && forall i :: 0 <= i < |s.lives| ==> s'.lives[i].identity == s.lives[i].identity
  {
  }

  lemma NoStrandsStep(path: string, s: State, a: Action)
    requires Inv(path, s) && !Skips(path, s, a) && NoStrands(s)
    ensures NoStrands(Step(path, s, a)) <==> DropsNone(s, a)
  {
    var s' := Step(path, s, a);
    StepAddsLife(path, s, a);
    forall i | 0 <= i < |s.lives| ensures Strands(s', i) <==> Drops(s, a, i) {
      StrandsStep(path, s, a, i);
    }
    if |s'.lives| > |s.lives| {
      assert !Strands(s', s'.Last());
    }
  }

  /** A line out of reach stays so. */
  lemma {:induction false} StrandedForever(path: string, s: State, actions: seq<Action>, i: nat)
    requires Inv(path, s) && NoSkips(path, s, actions) && i < |s.lives| && Strands(s, i)
    ensures i < |Run(path, s, actions).lives| && Strands(Run(path, s, actions), i)
    decreases |actions|
  {
    if actions != [] {
      StrandsStep(path, s, actions[0], i);
      StepKeeps(path, s, actions[0]);
      StrandedForever(path, Step(path, s, actions[0]), actions[1..], i);
    }
  }

  /** So once a step has dropped a line, every continuation of the run lacks a line of that file. */
  lemma DroppedIsLost(path: string, s: State, a: Action, actions: seq<Action>, i: nat) returns (o: nat, e: TailEvent)
    requires Inv(path, s) && NoSkips(path, s, [a] + actions) && i < |s.lives| && Drops(s, a, i)
    ensures Line(Run(path, s, [a] + actions), i, o, e) && !Emitted(Run(path, s, [a] + actions).log, i, o, e)
  {
    assert ([a] + actions)[1..] == actions;
    StrandsStep(path, s, a, i);
    StepKeeps(path, s, a);
    StrandedForever(path, Step(path, s, a), actions, i);
    RunKeeps(path, Step(path, s, a), actions);
    var s' := Run(path, s, [a] + actions);
    o := High(s', i);
    e := OwedLine(s', i);
  }

  lemma {:induction false} NoStrandsIff(path: string, s: State, actions: seq<Action>)
    requires Inv(path, s) && NoSkips(path, s, actions) && NoStrands(s)
    ensures NoStrands(Run(path, s, actions)) <==> NoDrops(path, s, actions)
    decreases |actions|
  {
    if actions != [] {
      var s' := Step(path, s, actions[0]);
      StepKeeps(path, s, actions[0]);
      NoStrandsStep(path, s, actions[0]);
      if DropsNone(s, actions[0]) {
        NoStrandsIff(path, s', actions[1..]);
      } else {
        var i :| 0 <= i < |s'.lives| && Strands(s', i);
        StrandedForever(path, s', actions[1..], i);
      }
    }
  }

  /** The process follows the file at the path, has read all of it and has no complete line left. */
  predicate Idle(s: State) {
    && s.Formed() && s.MayRead() && s.proc.stage == Tailing
    && s.proc.life == s.proc.handle == s.Last() && s.proc.read == |s.lives[s.Last()].content|
  }

  lemma IdleOwesOutOfReach(s: State, i: nat)
    requires Idle(s) && ProcOk(s) && i < |s.lives|
    ensures Owes(s, i, 0) <==> Strands(s, i)
  {
    if i == s.Last() {
      SliceNoBreak(s.lives[i].content, s.proc.committed, s.proc.pending);
    }
  }

  /** At least once, exactly: however often the process was killed, the power failed and files were
      rotated or truncated, an idle process has handed every complete line of every file that was ever
      at the path to the callback, and lost none, if and only if no step of the run dropped one. */
  lemma AtLeastOnceIff(path: string, first: Life, actions: seq<Action>)
    requires NoSkips(path, Init(first), actions) && Idle(Run(path, Init(first), actions))
    ensures AllEmitted(Run(path, Init(first), actions)) <==> NoDrops(path, Init(first), actions)
  {
    InitOk(path, first);
    RunKeeps(path, Init(first), actions);
    NoStrandsIff(path, Init(first), actions);
    var s := Run(path, Init(first), actions);
    AllEmittedIff(s);
    forall i | 0 <= i < |s.lives| ensures Owes(s, i, 0) <==> Strands(s, i) {
      IdleOwesOutOfReach(s, i);
    }
  }

  // ----- When no step can skip -----

  predicate Distinct(lives: seq<Life>) {
    forall i, j :: 0 <= i < j < |lives| ==> lives[i].identity != lives[j].identity
  }

  lemma DistinctDoesNotSkip(path: string, s: State, a: Action)
    requires Inv(path, s) && Distinct(s.lives)
    ensures !Skips(path, s, a)
  {
    if a.Boot? && s.proc.Down? && Resume(path, s, s.disk.view) > 0 {
      var cp := s.disk.view;
      assert CheckpointOk(path, s, cp);
      var j :| CheckpointIn(s, cp, j);
    }
  }

  lemma {:induction false} RunAddsLives(path: string, s: State, actions: seq<Action>)
    requires s.Formed()
    ensures var s' := Run(path, s, actions);
            |s.lives| <= |s'.lives| && forall i :: 0 <= i < |s.lives| ==> s'.lives[i].identity == s.lives[i].identity
    decreases |actions|
  {
    if actions != [] {
      StepAddsLife(path, s, actions[0]);
      RunAddsLives(path, Step(path, s, actions[0]), actions[1..]);
    }
  }

  /** Only truncation and the reuse of an inode number can make a step skip: while all files at the path
      have identities of their own, no restart, power loss or rotation does. */
  lemma {:induction false} DistinctNeverSkips(path: string, s: State, actions: seq<Action>)
    requires Inv(path, s) && Distinct(Run(path, s, actions).lives)
    ensures NoSkips(path, s, actions)
    decreases |actions|
  {
    if actions != [] {
      RunAddsLives(path, s, actions);
      DistinctDoesNotSkip(path, s, actions[0]);
      StepKeeps(path, s, actions[0]);
      DistinctNeverSkips(path, Step(path, s, actions[0]), actions[1..]);
    }
  }

  predicate AppendOnly(actions: seq<Action>) {
    forall i :: 0 <= i < |actions| ==> !actions[i].Rotate? && !actions[i].Truncate?
  }

  lemma {:induction false} AppendOnlyDropsNothing(path: string, s: State, actions: seq<Action>)
    requires s.Formed() && |s.lives| == 1 && AppendOnly(actions)
    ensures |Run(path, s, actions).lives| == 1 && NoDrops(path, s, actions)
    decreases |actions|
  {
    if actions != [] {
      assert !actions[0].Rotate? && !actions[0].Truncate?;
      AppendOnlyDropsNothing(path, Step(path, s, actions[0]), actions[1..]);
    }
  }

  /** In particular nothing is ever lost of a file that only grows. */
  lemma AtLeastOnce(path: string, first: Life, actions: seq<Action>)
    requires AppendOnly(actions) && Idle(Run(path, Init(first), actions))
    ensures AllEmitted(Run(path, Init(first), actions))
  {
    InitOk(path, first);
    AppendOnlyDropsNothing(path, Init(first), actions);
    DistinctNeverSkips(path, Init(first), actions);
    AtLeastOnceIff(path, first, actions);
  }

  /** Every call is a line of a file that was at the path; files come in order, no line is jumped over,
      and within one start each line follows the one before. */
  lemma EmissionsInOrder(path: string, first: Life, actions: seq<Action>, k: nat)
    requires NoSkips(path, Init(first), actions) && k < |Run(path, Init(first), actions).log|
    ensures Follows(Run(path, Init(first), actions).lives, Run(path, Init(first), actions).log, k)
  {
    InitOk(path, first);
    RunKeeps(path, Init(first), actions);
  }

  /** Lines do get lost: when a file is rotated away while the process is down, and when the process is
      killed between noticing a rotation and reading the rest of the old file. */
  lemma LosingRuns(path: string, a: FileIdentity, b: FileIdentity)
    requires a != b
    ensures Drops(Init(Life(a, "x\n")), Rotate(b), 0)
    ensures var s := Run(path, Init(Life(a, "x\n")), [Boot, Rotate(b), Poll]);
            s.Working(Reading) && s.proc.stage == Draining && Drops(s, Kill, 0)
  {
    var s0 := Init(Life(a, "x\n"));
    assert s0.lives[0].content[1] == '\n';
    var s1 := Step(path, s0, Boot);
    var s2 := Step(path, s1, Rotate(b));
    var s3 := Step(path, s2, Poll);
    assert [Boot, Rotate(b), Poll][1..] == [Rotate(b), Poll] && [Rotate(b), Poll][1..] == [Poll] && [Poll][1..] == [];
    assert Run(path, s2, [Poll]) == s3 && Run(path, s1, [Rotate(b), Poll]) == s3;
    assert s3.lives[0].content[1] == '\n';
  }
}
