/** Whole runs of the log forwarder: every read, callback, checkpoint step, poll, rotation, truncation,
    process kill and power loss in any order (cmd/log-forwarder/follower.go, checkpoint.go and the
    callback in main.go). */
module Delivery {
  import opened Strings
  import opened Lines
  import opened Follower
  import opened CheckpointFs

  /** A file that is or was at the source path.  Truncating a file ends one life of it and begins
      another with the same identity. */
  datatype Life = Life(identity: FileIdentity, content: string)

  /** What the callback does with a line; Lost means that even the dead-letter write failed, which
      ends the process. */
  datatype Outcome = Delivered | DeadLettered | Unparsed | Lost

  /** One call of the callback: the number of the process start it belongs to, the life whose bytes it
      is about, and where the line starts. */
  datatype Emission = Emission(boot: nat, life: nat, start: nat, event: TailEvent, outcome: Outcome)

  datatype Phase = Reading | Saving(k: nat)  // k effects of SaveCheckpoint are done

  /** Following the path; reading a rotated file to its end; at that end, about to reopen the path. */
  datatype Stage = Tailing | Draining | Drained

  /** The process.  Its offsets and pending bytes are about `life`; its file descriptor reads `handle`,
      which is a later life of the same file once that was truncated unnoticed. */
  datatype Proc = Down | Up(life: nat, handle: nat, read: nat, committed: nat, pending: string, stage: Stage, phase: Phase)

  /** The last of the lives is the file at the path. */
  datatype State = State(lives: seq<Life>, disk: Disk, proc: Proc, log: seq<Emission>, boots: nat) {
    predicate Formed() { lives != [] && (proc.Up? ==> proc.life <= proc.handle < |lives|) }

    function Last(): nat
      requires lives != []
    {
      |lives| - 1
    }

    predicate Working(phase: Phase) { proc.Up? && proc.phase == phase }

    /** The read loop may read on: no complete line is waiting. */
    predicate MayRead() { Working(Reading) && proc.stage != Drained && '\n' !in proc.pending }
  }

  datatype Action =
    | Grow(life: nat, bytes: string)   // somebody appends to a file
    | Rotate(identity: FileIdentity)   // another file, empty so far, takes the path
    | Truncate                         // the file at the path is emptied
    | Boot                             // the process starts: load the checkpoint, open, seek
    | ReadSome(n: nat)                 // one read of at most n bytes
    | Emit(outcome: Outcome)           // the callback for the first pending line
    | SaveStep(sync: bool)             // the next effect of SaveCheckpoint; sync: a directory sync has effect
    | Poll                             // handleFileChanges looks at the path
    | SeeEof                           // the drained file has no more bytes
    | Reopen                           // and the path is opened again
    | Kill                             // the process dies, or returns an error
    | Outage(pick: Checkpoint)         // power loss

  function Min(a: int, b: int): int { if a < b then a else b }

  // ----- Steps; an action that is not possible changes nothing -----

  /** No later life belongs to the same file. */
  predicate Latest(lives: seq<Life>, i: nat)
    requires i < |lives|
  {
    forall j :: i < j < |lives| ==> lives[j].identity != lives[i].identity
  }

  function Grown(s: State, i: nat, bytes: string): State {
    if i < |s.lives| && Latest(s.lives, i) then s.(lives := s.lives[i := s.lives[i].(content := s.lives[i].content + bytes)])
    else s
  }

  /** The kernel gives a new file no identity that is in use at the path or held open. */
  function Rotated(s: State, identity: FileIdentity): (s': State)
    requires s.Formed()
    ensures s'.Formed()
  {
    if identity == s.lives[s.Last()].identity || (s.proc.Up? && identity == s.lives[s.proc.handle].identity) then s
    else s.(lives := s.lives + [Life(identity, "")])
  }

  function Truncated(s: State): (s': State)
    requires s.Formed()
    ensures s'.Formed()
  {
    s.(lives := s.lives + [Life(s.lives[s.Last()].identity, "")],
       proc := if s.proc.Up? && s.proc.handle == s.Last() then s.proc.(handle := |s.lives|) else s.proc)
  }

  /** Where a start with this checkpoint resumes in the file at the path. */
  function Resume(path: string, s: State, cp: Checkpoint): nat
    requires s.Formed()
  {
    StartOffset(cp, path, FileView(s.lives[s.Last()].identity, s.lives[s.Last()].content))
  }

  function Started(path: string, s: State, cp: Checkpoint): (s': State)
    requires s.Formed()
    ensures s'.Formed()
  {
    if s.proc.Up? then s else
    var o := Resume(path, s, cp);
    s.(proc := Up(s.Last(), s.Last(), o, o, "", Tailing, Reading), boots := s.boots + 1)
  }

  function Reads(s: State, n: nat): (s': State)
    requires s.Formed()
    ensures s'.Formed()
  {
    if !s.MayRead() then s else
    var content := s.lives[s.proc.handle].content;
    if n == 0 || s.proc.read >= |content| then s else
    var m := Min(n, |content| - s.proc.read);
    s.(proc := s.proc.(life := s.proc.handle, read := s.proc.read + m,
                       pending := s.proc.pending + content[s.proc.read..s.proc.read + m]))
  }

  /** A read brings the next bytes of the file that is open, at most `n`, and as many as there are. */
  lemma ReadBrings(s: State, n: nat)
    requires s.Formed() && s.MayRead() && s.proc.read <= |s.lives[s.proc.handle].content|
    ensures var s', b := Reads(s, n), s.lives[s.proc.handle].content;
            && s' == s.(proc := s'.proc) && s'.proc.committed == s.proc.committed
            && s'.proc.read == (if s.proc.read + n < |b| then s.proc.read + n else |b|)
            && s'.proc.pending == s.proc.pending + b[s.proc.read..s'.proc.read]
  {
  }

  predicate HasLine(p: Proc) { p.Up? && p.phase == Reading && '\n' in p.pending }

  /** The first pending line. */
  function NextEvent(p: Proc): TailEvent
    requires HasLine(p)
  {
    var idx := IndexOf(p.pending, '\n');
    TailEvent(TrimCR(p.pending[..idx]), p.committed + idx + 1)
  }

  function NextEmission(s: State, outcome: Outcome): Emission
    requires HasLine(s.proc)
  {
    Emission(s.boots, s.proc.life, s.proc.committed, NextEvent(s.proc), outcome)
  }

  function Emits(s: State, outcome: Outcome): (s': State)
    requires s.Formed()
    ensures s'.Formed()
  {
    if !HasLine(s.proc) then s else
    var idx := IndexOf(s.proc.pending, '\n');
    s.(log := s.log + [NextEmission(s, outcome)],
       proc := if outcome == Lost then Down
               else s.proc.(committed := s.proc.committed + idx + 1, pending := s.proc.pending[idx + 1..], phase := Saving(0)))
  }

  /** The checkpoint being saved. */
  function Current(path: string, s: State): Checkpoint
    requires s.Formed() && s.proc.Up?
  {
    Checkpoint(path, s.proc.committed, s.lives[s.proc.life].identity)
  }

  function Saves(path: string, s: State, sync: bool): (s': State)
    requires s.Formed()
    ensures s'.Formed()
  {
    if s.proc.Down? || s.proc.phase.Reading? then s else
    var k := s.proc.phase.k;
    s.(disk := DiskEffect(s.disk, Current(path, s), k, sync),
       proc := s.proc.(phase := if k >= 5 then Reading else Saving(k + 1)))
  }

  /** The file at the path, followed from its start, with a checkpoint to save. */
  function FromStart(s: State): Proc
    requires s.Formed()
  {
    Up(s.Last(), s.Last(), 0, 0, "", Tailing, Saving(0))
  }

  /** A look at the path: another file there, the same file but shorter, or nothing new.  (While no file
      is there the code does nothing, as if it had not looked.) */
  function Polls(s: State): (s': State)
    requires s.Formed()
    ensures s'.Formed()
  {
    if !s.MayRead() || s.proc.stage != Tailing then s
    else if s.lives[s.Last()].identity != s.lives[s.proc.life].identity then s.(proc := s.proc.(stage := Draining))
    else if |s.lives[s.Last()].content| < s.proc.read then s.(proc := FromStart(s))
    else s
  }

  function SeesEof(s: State): (s': State)
    requires s.Formed()
    ensures s'.Formed()
  {
    if s.MayRead() && s.proc.stage == Draining && s.proc.read >= |s.lives[s.proc.handle].content|
    then s.(proc := s.proc.(stage := Drained)) else s
  }

  function Reopens(s: State): (s': State)
    requires s.Formed()
    ensures s'.Formed()
  {
    if s.Working(Reading) && s.proc.stage == Drained then s.(proc := FromStart(s)) else s
  }

  function Step(path: string, s: State, a: Action): (s': State)
    requires s.Formed()
    ensures s'.Formed()
  {
    match a
    case Grow(i, bytes) => Grown(s, i, bytes)
    case Rotate(identity) => Rotated(s, identity)
    case Truncate => Truncated(s)
    case Boot => Started(path, s, s.disk.view)
    case ReadSome(n) => Reads(s, n)
    case Emit(outcome) => Emits(s, outcome)
    case SaveStep(sync) => Saves(path, s, sync)
    case Poll => Polls(s)
    case SeeEof => SeesEof(s)
    case Reopen => Reopens(s)
    case Kill => s.(proc := Down)
    case Outage(pick) => if pick in s.disk.fallback then s.(proc := Down, disk := Disk(pick, {pick})) else s
  }

  /** A first start: no checkpoint file, no process, nothing emitted. */
  function Init(first: Life): (s: State)
    ensures s.Formed()
  {
    State([first], Disk(NO_CHECKPOINT, {NO_CHECKPOINT}), Down, [], 0)
  }

  function Run(path: string, s: State, actions: seq<Action>): (s': State)
    requires s.Formed()
    ensures s'.Formed()
    decreases |actions|
  {
    if actions == [] then s else Run(path, Step(path, s, actions[0]), actions[1..])
  }

  lemma {:induction false} RunConcat(path: string, s: State, a: seq<Action>, b: seq<Action>)
    requires s.Formed()
    ensures Run(path, s, a + b) == Run(path, Run(path, s, a), b)
    decreases |a|
  {
    if a == [] {
      assert a + b == b;
    } else {
      assert (a + b)[1..] == a[1..] + b;
      RunConcat(path, Step(path, s, a[0]), a[1..], b);
    }
  }

  // ----- How far the lines of a life were handed over -----

  /** The highest offset up to which a call among the first `n` handed a line of life `i` over. */
  function Mark(log: seq<Emission>, i: nat, n: nat): nat
    requires n <= |log|
  {
    if n == 0 then 0 else
    var e, m := log[n - 1], Mark(log, i, n - 1);
    if e.life == i && e.outcome != Lost && e.event.committed > m then e.event.committed else m
  }

  function High(s: State, i: nat): nat { Mark(s.log, i, |s.log|) }

  lemma {:induction false} MarkPrefix(log: seq<Emission>, longer: seq<Emission>, i: nat, n: nat)
    requires log <= longer && n <= |log|
    ensures Mark(longer, i, n) == Mark(log, i, n)
  {
    if n > 0 {
      MarkPrefix(log, longer, i, n - 1);
      assert longer[n - 1] == log[n - 1];
    }
  }

  lemma {:induction false} MarkAscends(log: seq<Emission>, i: nat, m: nat, n: nat)
    requires m <= n <= |log|
    ensures Mark(log, i, m) <= Mark(log, i, n)
    decreases n
  {
    if m < n {
      MarkAscends(log, i, m, n - 1);
    }
  }

  lemma MarkSnoc(log: seq<Emission>, e: Emission, i: nat)
    ensures Mark(log + [e], i, |log|) == Mark(log, i, |log|)
    ensures Mark(log + [e], i, |log| + 1)
            == if e.life == i && e.outcome != Lost && e.event.committed > Mark(log, i, |log|) then e.event.committed
               else Mark(log, i, |log|)
  {
    MarkPrefix(log, log + [e], i, |log|);
    assert (log + [e])[|log|] == e;
  }

  // ----- What every run keeps -----

  /** Call `k` is a line of its file and starts at the mark or before it: nothing is ever jumped over.
      Files come one after the other, and within one start of the process each line of a file begins
      where the one before it ended. */
  predicate Follows(lives: seq<Life>, log: seq<Emission>, k: nat)
    requires k < |log|
  {
    var e := log[k];
    && e.life < |lives|
    && LineAt(lives[e.life].content, e.start, e.event)
    && e.start <= Mark(log, e.life, k)
    && (k > 0 ==>
          && log[k - 1].life <= e.life && log[k - 1].boot <= e.boot
          && (log[k - 1].life == e.life && log[k - 1].boot == e.boot ==> e.start == log[k - 1].event.committed))
  }

  predicate InOrder(lives: seq<Life>, log: seq<Emission>) {
    forall k {:trigger Follows(lives, log, k)} :: 0 <= k < |log| ==> Follows(lives, log, k)
  }

  /** The process agrees with the bytes it read, has jumped over nothing, and goes on where its own last
      line ended. */
  ghost predicate ProcOk(s: State)
    requires s.Formed()
  {
    s.proc.Up? ==>
      var p := s.proc;
      && IsSlice(s.lives[p.life].content, p.committed, p.read, p.pending)
      && p.committed <= High(s, p.life)
      && s.lives[p.handle].identity == s.lives[p.life].identity && Latest(s.lives, p.handle)
      && (p.phase.Saving? ==> Boundary(s.lives[p.life].content, p.committed))
      && (p.stage != Tailing ==> p.handle < s.Last())
      && (p.stage == Drained ==> '\n' !in p.pending && p.phase.Reading?)
      && (s.log != [] ==>
            var e := s.log[|s.log| - 1];
            e.life <= p.life && (e.life == p.life && e.boot == s.boots ==> p.committed == e.event.committed))
  }

  /** `cp` names life `j`, stands at 0 or just past one of its newlines, and not past its mark. */
  predicate CheckpointIn(s: State, cp: Checkpoint, j: nat) {
    && j < |s.lives| && cp.identity == s.lives[j].identity
    && cp.offset >= 0 && Boundary(s.lives[j].content, cp.offset)
    && cp.offset <= High(s, j)
  }

  ghost predicate CheckpointOk(path: string, s: State, cp: Checkpoint) {
    cp == NO_CHECKPOINT || (cp.filePath == path && exists j {:trigger CheckpointIn(s, cp, j)} :: CheckpointIn(s, cp, j))
  }

  ghost predicate DiskOk(path: string, s: State) {
    s.disk.view in s.disk.fallback && forall cp :: cp in s.disk.fallback ==> CheckpointOk(path, s, cp)
  }

  ghost predicate Inv(path: string, s: State) {
    && s.Formed()
    && InOrder(s.lives, s.log)
    && (s.log != [] ==> s.log[|s.log| - 1].boot <= s.boots)
    && ProcOk(s)
    && DiskOk(path, s)
  }

  /** A step uses offsets of one life in another: a start from a checkpoint beyond what was handed over
      of the file it opens, or a read on through a truncation nobody noticed. */
  predicate Skips(path: string, s: State, a: Action)
    requires s.Formed()
  {
    match a
    case Boot => s.proc.Down? && Resume(path, s, s.disk.view) > High(s, s.Last())
    case ReadSome(n) => s.MayRead() && n > 0 && s.proc.life != s.proc.handle && s.proc.read < |s.lives[s.proc.handle].content|
    case _ => false
  }

  predicate NoSkips(path: string, s: State, actions: seq<Action>)
    requires s.Formed()
    decreases |actions|
  {
    actions == [] || (!Skips(path, s, actions[0]) && NoSkips(path, Step(path, s, actions[0]), actions[1..]))
  }

  // ----- The steps keep it -----

  /** The same files, grown, and perhaps later ones. */
  ghost predicate Extends(lives: seq<Life>, later: seq<Life>) {
    |lives| <= |later| &&
    forall i :: 0 <= i < |lives| ==> lives[i].identity == later[i].identity && lives[i].content <= later[i].content
  }

  lemma InOrderGrows(lives: seq<Life>, later: seq<Life>, log: seq<Emission>)
    requires InOrder(lives, log) && Extends(lives, later)
    ensures InOrder(later, log)
  {
    forall k | 0 <= k < |log| ensures Follows(later, log, k) {
      assert Follows(lives, log, k);
      var e := log[k];
      LineAtGrows(lives[e.life].content, later[e.life].content, e.start, e.event);
    }
  }

  lemma InOrderSnoc(lives: seq<Life>, log: seq<Emission>, e: Emission)
    requires InOrder(lives, log)
    requires e.life < |lives| && LineAt(lives[e.life].content, e.start, e.event) && e.start <= Mark(log, e.life, |log|)
    requires log != [] ==>
               var last := log[|log| - 1];
               last.life <= e.life && last.boot <= e.boot
               && (last.life == e.life && last.boot == e.boot ==> e.start == last.event.committed)
    ensures InOrder(lives, log + [e])
  {
    var longer := log + [e];
    forall k | 0 <= k < |longer| ensures Follows(lives, longer, k) {
      MarkPrefix(log, longer, longer[k].life, k);
      if k < |log| {
        assert Follows(lives, log, k);
      }
    }
  }

  lemma CheckpointStays(path: string, s: State, s': State, cp: Checkpoint)
    requires CheckpointOk(path, s, cp) && Extends(s.lives, s'.lives) && s.log <= s'.log
    ensures CheckpointOk(path, s', cp)
  {
    if cp != NO_CHECKPOINT {
      var j :| CheckpointIn(s, cp, j);
      HighAscends(s, s', j);
      assert CheckpointIn(s', cp, j);
    }
  }

  lemma HighAscends(s: State, s': State, i: nat)
    requires s.log <= s'.log
    ensures High(s, i) <= High(s', i)
  {
    MarkPrefix(s.log, s'.log, i, |s.log|);
    MarkAscends(s'.log, i, |s.log|, |s'.log|);
  }

  lemma DiskStays(path: string, s: State, s': State)
    requires DiskOk(path, s) && Extends(s.lives, s'.lives) && s.log <= s'.log && s'.disk == s.disk
    ensures DiskOk(path, s')
  {
    forall cp | cp in s'.disk.fallback ensures CheckpointOk(path, s', cp) {
      CheckpointStays(path, s, s', cp);
    }
  }

  lemma GrowKeeps(path: string, s: State, i: nat, bytes: string)
    requires Inv(path, s)
    ensures Inv(path, Grown(s, i, bytes))
  {
    var s' := Grown(s, i, bytes);
    assert Extends(s.lives, s'.lives);
    InOrderGrows(s.lives, s'.lives, s.log);
    DiskStays(path, s, s');
  }

  lemma RotateKeeps(path: string, s: State, identity: FileIdentity)
    requires Inv(path, s)
    ensures Inv(path, Rotated(s, identity))
  {
    var s' := Rotated(s, identity);
    assert Extends(s.lives, s'.lives);
    InOrderGrows(s.lives, s'.lives, s.log);
    DiskStays(path, s, s');
  }

  lemma TruncateKeeps(path: string, s: State)
    requires Inv(path, s)
    ensures Inv(path, Truncated(s))
  {
    var s' := Truncated(s);
    assert Extends(s.lives, s'.lives);
    InOrderGrows(s.lives, s'.lives, s.log);
    DiskStays(path, s, s');
  }

  lemma BootKeeps(path: string, s: State)
    requires Inv(path, s) && !Skips(path, s, Boot)
    ensures Inv(path, Started(path, s, s.disk.view))
  {
    if s.log != [] {
      LastLife(s);
    }
    DiskStays(path, s, Started(path, s, s.disk.view));
  }

  lemma LastLife(s: State)
    requires InOrder(s.lives, s.log) && s.log != []
    ensures s.log[|s.log| - 1].life < |s.lives|
  {
    assert Follows(s.lives, s.log, |s.log| - 1);
  }

  lemma SliceFurther(b: string, o: nat, r: nat, p: string, m: nat)
    requires IsSlice(b, o, r, p) && r + m <= |b|
    ensures IsSlice(b, o, r + m, p + b[r..r + m])
  {
  }

  lemma ReadKeeps(path: string, s: State, n: nat)
    requires Inv(path, s) && !Skips(path, s, ReadSome(n))
    ensures Inv(path, Reads(s, n))
  {
    var s' := Reads(s, n);
    if s' != s {
      var p, b := s.proc, s.lives[s.proc.handle].content;
      SliceFurther(b, p.committed, p.read, p.pending, Min(n, |b| - p.read));
      DiskStays(path, s, s');
    }
  }

  lemma EmittedLine(s: State, outcome: Outcome)
    requires s.Formed() && ProcOk(s) && HasLine(s.proc)
    ensures var e := NextEmission(s, outcome);
            && LineAt(s.lives[e.life].content, e.start, e.event)
            && IsSlice(s.lives[e.life].content, e.event.committed, s.proc.read, s.proc.pending[IndexOf(s.proc.pending, '\n') + 1..])
  {
    TakeLine(s.lives[s.proc.life].content, s.proc.committed, s.proc.read, s.proc.pending, IndexOf(s.proc.pending, '\n'));
  }

  lemma EmitKeeps(path: string, s: State, outcome: Outcome)
    requires Inv(path, s)
    ensures Inv(path, Emits(s, outcome))
  {
    if HasLine(s.proc) {
      var s', e := Emits(s, outcome), NextEmission(s, outcome);
      EmittedLine(s, outcome);
      InOrderSnoc(s.lives, s.log, e);
      MarkSnoc(s.log, e, e.life);
      DiskStays(path, s, s');
    }
  }

  lemma SaveKeeps(path: string, s: State, sync: bool)
    requires Inv(path, s)
    ensures Inv(path, Saves(path, s, sync))
  {
    if s.proc.Up? && s.proc.phase.Saving? {
      var s' := Saves(path, s, sync);
      var cp := Current(path, s);
      assert CheckpointIn(s', cp, s.proc.life);
      forall old_ | old_ in s'.disk.fallback ensures CheckpointOk(path, s', old_) {
        if old_ != cp {
          CheckpointStays(path, s, s', old_);
        }
      }
    }
  }

  lemma FromStartKeeps(path: string, s: State)
    requires Inv(path, s) && s.proc.Up? && s.proc.life < s.Last()
    ensures Inv(path, s.(proc := FromStart(s)))
  {
    DiskStays(path, s, s.(proc := FromStart(s)));
  }

  lemma StageKeeps(path: string, s: State, stage: Stage)
    requires Inv(path, s) && s.MayRead() && s.proc.handle < s.Last()
    ensures Inv(path, s.(proc := s.proc.(stage := stage)))
  {
    DiskStays(path, s, s.(proc := s.proc.(stage := stage)));
  }

  /** A file that looks shorter than what was read of it was truncated since. */
  lemma ShorterIsTruncated(s: State)
    requires s.Formed() && ProcOk(s) && s.proc.Up? && |s.lives[s.Last()].content| < s.proc.read
    ensures s.proc.life < s.Last()
  {
  }

  lemma PollKeeps(path: string, s: State)
    requires Inv(path, s)
    ensures Inv(path, Polls(s))
  {
    if s.MayRead() && s.proc.stage == Tailing {
      if s.lives[s.Last()].identity != s.lives[s.proc.life].identity {
        StageKeeps(path, s, Draining);
      } else if |s.lives[s.Last()].content| < s.proc.read {
        ShorterIsTruncated(s);
        FromStartKeeps(path, s);
      }
    }
  }

  lemma ReopenKeeps(path: string, s: State)
    requires Inv(path, s)
    ensures Inv(path, SeesEof(s)) && Inv(path, Reopens(s))
  {
    if s.MayRead() && s.proc.stage == Draining {
      StageKeeps(path, s, Drained);
    }
    if s.Working(Reading) && s.proc.stage == Drained {
      FromStartKeeps(path, s);
    }
  }

  lemma StopKeeps(path: string, s: State, pick: Checkpoint)
    requires Inv(path, s)
    ensures Inv(path, Step(path, s, Kill)) && Inv(path, Step(path, s, Outage(pick)))
  {
    DiskStays(path, s, Step(path, s, Kill));
    if pick in s.disk.fallback {
      CheckpointStays(path, s, Step(path, s, Outage(pick)), pick);
    }
  }

  /** Every step that does not skip keeps the invariant. */
  lemma StepKeeps(path: string, s: State, a: Action)
    requires Inv(path, s) && !Skips(path, s, a)
    ensures Inv(path, Step(path, s, a))
  {
    match a
    case Grow(i, bytes) => GrowKeeps(path, s, i, bytes);
    case Rotate(identity) => RotateKeeps(path, s, identity);
    case Truncate => TruncateKeeps(path, s);
    case Boot => BootKeeps(path, s);
    case ReadSome(n) => ReadKeeps(path, s, n);
    case Emit(outcome) => EmitKeeps(path, s, outcome);
    case SaveStep(sync) => SaveKeeps(path, s, sync);
    case Poll => PollKeeps(path, s);
    case SeeEof => ReopenKeeps(path, s);
    case Reopen => ReopenKeeps(path, s);
    case Kill => StopKeeps(path, s, NO_CHECKPOINT);
    case Outage(pick) => StopKeeps(path, s, pick);
  }

  lemma {:induction false} RunKeeps(path: string, s: State, actions: seq<Action>)
    requires Inv(path, s) && NoSkips(path, s, actions)
    ensures Inv(path, Run(path, s, actions))
    decreases |actions|
  {
    if actions != [] {
      StepKeeps(path, s, actions[0]);
      RunKeeps(path, Step(path, s, actions[0]), actions[1..]);
    }
  }

  lemma InitOk(path: string, first: Life)
    ensures Inv(path, Init(first))
  {
  }
}
