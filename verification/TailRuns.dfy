/** The tailing object and the step system are one forwarder: one start of the process, from opening the
    file over its polls to the error that ends it, is a run of `Delivery` with the same calls and the same
    checkpoint (cmd/log-forwarder/follower.go). */
module TailRuns {
  import opened Lines
  import opened Follower
  import opened Delivery
  import Recovery

  /** The step system is where a drained Tail is that follows `e` and has saved `cp`; the file may hold
      more than was read. */
  ghost predicate Attached(s: State, e: Epoch, cp: Checkpoint) {
    && s.Formed() && s.MayRead() && s.proc.stage == Tailing && s.proc.life == s.proc.handle == s.Last()
    && s.disk.view == cp && s.lives[s.Last()].identity == e.identity && e.seen <= s.lives[s.Last()].content
    && e.start <= |e.seen| && s.proc.committed == Rest(e.seen, e.start) && s.proc.read == |e.seen|
    && IsSlice(e.seen, s.proc.committed, s.proc.read, s.proc.pending)
  }

  /** What was read is all that the file holds. */
  predicate Level(s: State, e: Epoch) { s.lives != [] && s.lives[s.Last()].content == e.seen }

  /** Reading up to `now` takes in all that the file holds. */
  predicate ReadsAll(s: State, now: Epoch) { s.lives != [] && s.lives[s.Last()].content <= now.seen }

  /** A poll that the model of the path can follow: what is found on reopening is another file. */
  predicate Plain(e: Epoch, p: PollInput) {
    Rotation(ReadOn(e, p.chunks), p.look) && p.look.reopened.Some? ==> p.look.reopened.value.identity != e.identity
  }

  predicate PlainAt(w: Place, polls: seq<PollInput>, i: nat)
    requires i < |polls|
  {
    Plain(PlaceAfter(w, polls, i).current, polls[i])
  }

  function Next(t: Turn): Epoch { if t.Moves? then t.next else t.now }

  /** From `s` to `s'` exactly these lines were called and this checkpoint was left, within one start of
      the process. */
  ghost predicate Made(s: State, s': State, lines: seq<TailEvent>, cp: Checkpoint) {
    s.log <= s'.log && s'.boots == s.boots && Recovery.CallsSince(s'.log, |s.log|) == lines && s'.disk.view == cp
  }

  lemma MadeTwo(s: State, s1: State, s2: State, lines: seq<TailEvent>, cp1: Checkpoint, more: seq<TailEvent>, cp2: Checkpoint)
    requires Made(s, s1, lines, cp1) && Made(s1, s2, more, cp2)
    ensures Made(s, s2, lines + more, cp2)
  {
    CallsSinceTwo(s1.log, s2.log, |s.log|);
  }

  lemma {:induction false} CallsSinceTwo(log: seq<Emission>, longer: seq<Emission>, n: nat)
    requires n <= |log| && log <= longer
    ensures Recovery.CallsSince(longer, n) == Recovery.CallsSince(log, n) + Recovery.CallsSince(longer, |log|)
    decreases |log| - n
  {
    if n < |log| {
      CallsSinceTwo(log, longer, n + 1);
      assert longer[n] == log[n];
    }
  }

  lemma RunHead(path: string, s: State, a: Action, rest: seq<Action>)
    requires s.Formed()
    ensures Run(path, s, [a] + rest) == Run(path, Step(path, s, a), rest)
  {
    assert ([a] + rest)[1..] == rest;
  }

  lemma InThree(path: string, s: State, a: Action, b: seq<Action>, c: seq<Action>)
    requires s.Formed()
    ensures Run(path, s, [a] + (b + c)) == Run(path, Run(path, Step(path, s, a), b), c)
  {
    RunConcat(path, Step(path, s, a), b, c);
    RunHead(path, s, a, b + c);
  }

  lemma OneAction(path: string, s: State, a: Action)
    requires s.Formed()
    ensures Run(path, s, [a]) == Step(path, s, a)
  {
    assert [a][1..] == [];
  }

  // ----- Opening -----

  /** Opening a Tail is a start of the process: it follows the file at the path from the offset at which
      its checkpoint lets it resume. */
  lemma OpenIsBoot(path: string, s: State, file: FileView)
    requires s.Formed() && s.proc.Down? && s.lives[s.Last()] == Life(file.identity, file.content)
    ensures var o := StartOffset(s.disk.view, path, file);
            var up := Step(path, s, Boot);
            Attached(up, Epoch(file.identity, o, file.content[..o]), s.disk.view)
            && up.log == s.log && up.lives == s.lives && up.boots == s.boots + 1
  {
    var o := StartOffset(s.disk.view, path, file);
    assert Break(file.content[..o], o) == o;
  }

  // ----- Reading -----

  lemma SliceInLonger(b: string, w: string, o: nat, r: nat, p: string)
    requires IsSlice(b, o, r, p) && b <= w
    ensures IsSlice(w, o, r, p)
  {
  }

  /** The file grows to what is read. */
  lemma Grows(s: State, e: Epoch, cp: Checkpoint, now: Epoch) returns (bytes: string)
    requires Attached(s, e, cp) && ReadsAll(s, now) && e.identity == now.identity
    ensures var t := Grown(s, s.Last(), bytes);
            Recovery.Follows(t) && t == s.(lives := t.lives) && t.Last() == s.Last() && t.lives[t.Last()] == Life(e.identity, now.seen)
  {
    var content := s.lives[s.Last()].content;
    bytes := now.seen[|content|..];
    assert content + bytes == now.seen;
    SliceInLonger(e.seen, now.seen, s.proc.committed, s.proc.read, s.proc.pending);
  }

  lemma RestTwice(e: Epoch, now: Epoch)
    requires e.start <= |e.seen| && e.seen <= now.seen && now.start == e.start
    ensures Rest(now.seen, Rest(e.seen, e.start)) == Rest(now.seen, now.start)
  {
    EventsAreTheLines(e.seen, e.start);
    ConsecutiveGrows(e.seen, now.seen, e.start, Events(e.seen, e.start));
    ConsecutiveIsEvents(now.seen, e.start, Events(e.seen, e.start));
  }

  /** All of it is read and its lines are handed over. */
  lemma ReadsOn(path: string, s: State, e: Epoch, cp: Checkpoint, now: Epoch) returns (actions: seq<Action>)
    requires Attached(s, e, cp) && ReadsAll(s, now) && e.seen <= now.seen && now == e.(seen := now.seen)
    ensures var s', cp' := Run(path, s, actions), CheckpointAfter(cp, path, e.identity, LinesIn(e, now));
            Attached(s', now, cp') && Level(s', now) && Made(s, s', LinesIn(e, now), cp')
  {
    var bytes := Grows(s, e, cp, now);
    var t := Grown(s, s.Last(), bytes);
    var work := Recovery.CatchesUp(path, t);
    RunHead(path, s, Grow(s.Last(), bytes), work);
    actions := [Grow(s.Last(), bytes)] + work;
    RestTwice(e, now);
  }

  // ----- A line that fails -----

  /** A save that got past its rename. */
  lemma {:induction false} Renames(path: string, s: State, k: nat) returns (work: seq<Action>)
    requires s.Formed() && s.Working(Saving(k)) && k <= 4
    ensures var s' := Run(path, s, work);
            s' == s.(disk := s'.disk, proc := s.proc.(phase := Saving(5))) && s'.disk.view == Current(path, s)
    decreases 4 - k
  {
    var s1 := Step(path, s, SaveStep(false));
    var rest: seq<Action> := [];
    if k < 4 {
      rest := Renames(path, s1, k + 1);
    }
    RunHead(path, s, SaveStep(false), rest);
    work := [SaveStep(false)] + rest;
  }

  /** The process stops on an error. */
  lemma Stops(path: string, s: State, actions: seq<Action>)
    requires s.Formed()
    ensures Run(path, s, actions + [Kill]) == Run(path, s, actions).(proc := Down)
  {
    RunConcat(path, s, actions, [Kill]);
    OneAction(path, Run(path, s, actions), Kill);
  }

  /** The callback of the next line, or the save after it, fails. */
  lemma NextFails(path: string, s: State, fate: Fate) returns (work: seq<Action>)
    requires s.Formed() && HasLine(s.proc) && fate != Fine
    ensures var s', e := Run(path, s, work), NextEvent(s.proc);
            && s'.proc.Down? && s'.lives == s.lives && s'.boots == s.boots
            && |s'.log| == |s.log| + 1 && s.log <= s'.log && s'.log[|s.log|].event == e
            && s'.disk.view == if fate == SyncFails then Checkpoint(path, e.committed, s.lives[s.proc.life].identity) else s.disk.view
  {
    if fate == CallbackFails {
      work := [Emit(Lost)];
      OneAction(path, s, Emit(Lost));
    } else {
      var s1, save := Emits(s, Delivered), [];
      if fate == SyncFails {
        save := Renames(path, s1, 0);
      }
      Stops(path, s1, save);
      RunHead(path, s, Emit(Delivered), save + [Kill]);
      work := [Emit(Delivered)] + (save + [Kill]);
    }
  }

  /** What is called and saved of these lines is what is called and saved here. */
  ghost predicate Fared(path: string, s: State, fate: TailEvent -> Fate, lines: seq<TailEvent>, s': State)
    requires s.Formed()
  {
    && s'.proc.Down?
    && Made(s, s', Called(fate, lines), CheckpointAfter(s.disk.view, path, s.lives[s.Last()].identity, SavedLines(fate, lines)))
  }

  lemma FaresOneMore(path: string, s: State, fate: TailEvent -> Fate, e: TailEvent, s2: State, lines: seq<TailEvent>, s': State)
    requires s.Formed() && s2.Formed() && s2.lives == s.lives && s2.boots == s.boots && fate(e) == Fine
    requires s.log <= s2.log && |s2.log| == |s.log| + 1 && s2.log[|s.log|].event == e
    requires s2.disk.view == Checkpoint(path, e.committed, s.lives[s.Last()].identity)
    requires Fared(path, s2, fate, lines, s')
    ensures Fared(path, s, fate, [e] + lines, s')
  {
    FineCons(fate, e, lines);
    assert s'.log[|s.log|] == s2.log[|s.log|];
  }

  lemma FaresBadly(path: string, s: State, fate: TailEvent -> Fate, e: TailEvent, lines: seq<TailEvent>, s': State)
    requires s.Formed() && fate(e) != Fine && s'.proc.Down? && s'.boots == s.boots
    requires s.log <= s'.log && |s'.log| == |s.log| + 1 && s'.log[|s.log|].event == e
    requires s'.disk.view == if fate(e) == SyncFails then Checkpoint(path, e.committed, s.lives[s.Last()].identity) else s.disk.view
    ensures Fared(path, s, fate, [e] + lines, s')
  {
    FirstFails(fate, e, lines);
    assert Recovery.CallsSince(s'.log, |s'.log|) == [];
  }

  /** Reading up to a line that fails. */
  lemma {:induction false} FailsWithin(path: string, s: State, fate: TailEvent -> Fate) returns (work: seq<Action>)
    requires Recovery.Follows(s) && Fails(fate, Events(s.lives[s.Last()].content, s.proc.committed))
    ensures Fared(path, s, fate, Events(s.lives[s.Last()].content, s.proc.committed), Run(path, s, work))
    decreases |s.lives[s.Last()].content| - s.proc.committed, |s.lives[s.Last()].content| - s.proc.read
  {
    var content := s.lives[s.Last()].content;
    if HasLine(s.proc) {
      var e := NextEvent(s.proc);
      Recovery.OneLine(s);
      LineIsFirst(content, s.proc.committed, e);
      if fate(e) == Fine {
        work := LineThenFails(path, s, fate, e);
      } else {
        work := NextFails(path, s, fate(e));
        FaresBadly(path, s, fate, e, Events(content, e.committed), Run(path, s, work));
      }
    } else if s.proc.read < |content| {
      Recovery.MoreRead(s);
      var a := ReadSome(|content|);
      work := FailsWithin(path, Step(path, s, a), fate);
      RunHead(path, s, a, work);
      work := [a] + work;
    } else {
      NothingFails(path, s, fate);
    }
  }

  lemma NothingFails(path: string, s: State, fate: TailEvent -> Fate)
    requires Recovery.Follows(s) && !HasLine(s.proc) && s.proc.read == |s.lives[s.Last()].content|
    ensures !Fails(fate, Events(s.lives[s.Last()].content, s.proc.committed))
  {
    Recovery.NothingMore(s);
    assert Recovery.ServesFrom(path, s, s.proc.committed, s);
  }

  /** A line that goes well, and its checkpoint. */
  lemma LineGoesWell(path: string, s: State) returns (save: seq<Action>)
    requires Recovery.Follows(s) && HasLine(s.proc)
    ensures var s2, e := Run(path, Emits(s, Delivered), save), NextEvent(s.proc);
            && Recovery.Follows(s2) && s2.lives == s.lives && s2.boots == s.boots && s2.proc.committed == e.committed
            && s.log <= s2.log && |s2.log| == |s.log| + 1 && s2.log[|s.log|].event == e
            && s2.disk.view == Checkpoint(path, e.committed, s.lives[s.Last()].identity)
  {
    Recovery.OneLine(s);
    save := Recovery.FinishesSaving(path, Emits(s, Delivered), 0);
  }

  lemma {:induction false} LineThenFails(path: string, s: State, fate: TailEvent -> Fate, e: TailEvent) returns (work: seq<Action>)
    requires Recovery.Follows(s) && HasLine(s.proc) && e == NextEvent(s.proc) && fate(e) == Fine
    requires s.proc.committed < e.committed <= |s.lives[s.Last()].content|
    requires Fails(fate, [e] + Events(s.lives[s.Last()].content, e.committed))
    ensures Fared(path, s, fate, [e] + Events(s.lives[s.Last()].content, e.committed), Run(path, s, work))
    decreases |s.lives[s.Last()].content| - s.proc.committed, |s.lives[s.Last()].content| - s.proc.read, 0
  {
    var save := LineGoesWell(path, s);
    var s2, lines := Run(path, Emits(s, Delivered), save), Events(s.lives[s.Last()].content, e.committed);
    FineCons(fate, e, lines);
    work := FailsWithin(path, s2, fate);
    work := AfterLine(path, s, fate, e, save, s2, lines, work, Run(path, s2, work));
  }

  lemma AfterLine(path: string, s: State, fate: TailEvent -> Fate, e: TailEvent, save: seq<Action>, s2: State, lines: seq<TailEvent>,
                  work: seq<Action>, s': State) returns (actions: seq<Action>)
    requires s.Formed() && s2.Formed() && s2.lives == s.lives && s2.boots == s.boots && fate(e) == Fine
    requires s.log <= s2.log && |s2.log| == |s.log| + 1 && s2.log[|s.log|].event == e
    requires s2.disk.view == Checkpoint(path, e.committed, s.lives[s.Last()].identity)
    requires s2 == Run(path, Step(path, s, Emit(Delivered)), save) && s' == Run(path, s2, work) && Fared(path, s2, fate, lines, s')
    ensures Fared(path, s, fate, [e] + lines, Run(path, s, actions))
  {
    FaresOneMore(path, s, fate, e, s2, lines, s');
    InThree(path, s, Emit(Delivered), save, work);
    actions := [Emit(Delivered)] + (save + work);
  }

  // ----- Moving on -----

  /** At the start of another life at the path, with the checkpoint for it to save. */
  predicate Moved(s: State, s': State, next: FileIdentity) {
    && s'.Formed() && s'.proc == FromStart(s') && s'.lives[s'.Last()] == Life(next, "")
    && s'.log == s.log && s'.boots == s.boots && s'.disk == s.disk
  }

  /** The same file truncated: a look at the path starts it over. */
  lemma StartsOver(path: string, s: State, e: Epoch, cp: Checkpoint) returns (actions: seq<Action>)
    requires Attached(s, e, cp) && e.seen != ""
    ensures Moved(s, Run(path, s, actions), e.identity)
  {
    var t := Step(path, s, Truncate);
    assert t.lives[t.Last()] == Life(e.identity, "");
    assert Step(path, t, Poll).proc == FromStart(t);
    actions := [Truncate] + [Poll];
    RunHead(path, s, Truncate, [Poll]);
    OneAction(path, t, Poll);
  }

  /** Another file at the path: the old one is at its end, so the path is opened again. */
  lemma OpensNext(path: string, s: State, e: Epoch, cp: Checkpoint, next: FileIdentity) returns (actions: seq<Action>)
    requires Attached(s, e, cp) && Level(s, e) && next != e.identity
    ensures Moved(s, Run(path, s, actions), next)
  {
    var t := Step(path, s, Rotate(next));
    assert t.lives == s.lives + [Life(next, "")];
    var t1 := Step(path, t, Poll);
    assert t1.proc == t.proc.(stage := Draining);
    var t2 := Step(path, t1, SeeEof);
    assert t2.proc == t.proc.(stage := Drained);
    assert Step(path, t2, Reopen).proc == FromStart(t);
    actions := [Rotate(next)] + ([Poll] + ([SeeEof] + [Reopen]));
    OneByOne(path, s, t, t1, t2, next);
  }

  lemma OneByOne(path: string, s: State, t: State, t1: State, t2: State, next: FileIdentity)
    requires s.Formed() && t == Step(path, s, Rotate(next)) && t1 == Step(path, t, Poll) && t2 == Step(path, t1, SeeEof)
    ensures Run(path, s, [Rotate(next)] + ([Poll] + ([SeeEof] + [Reopen]))) == Step(path, t2, Reopen)
  {
    OneAction(path, t2, Reopen);
    RunHead(path, t1, SeeEof, [Reopen]);
    RunHead(path, t, Poll, [SeeEof] + [Reopen]);
    RunHead(path, s, Rotate(next), [Poll] + ([SeeEof] + [Reopen]));
  }

  /** The move that a turn makes, up to its checkpoint. */
  lemma MovesOn(path: string, s: State, e: Epoch, p: PollInput, cp: Checkpoint) returns (actions: seq<Action>)
    requires var t := Turned(e, p);
             t.Moves? && Plain(e, p) && Attached(s, t.now, cp) && Level(s, t.now)
             && Resets(ReadOn(e, p.chunks), p.look)
    ensures Moved(s, Run(path, s, actions), Turned(e, p).next.identity)
  {
    var t := Turned(e, p);
    if Rotation(ReadOn(e, p.chunks), p.look) {
      actions := OpensNext(path, s, t.now, cp, t.next.identity);
    } else {
      actions := StartsOver(path, s, t.now, cp);
    }
  }

  /** And its checkpoint. */
  lemma SavesNext(path: string, s: State, t: State, next: FileIdentity) returns (actions: seq<Action>)
    requires Moved(s, t, next)
    ensures var s', e, cp := Run(path, t, actions), Epoch(next, 0, ""), Checkpoint(path, 0, next);
            Attached(s', e, cp) && Level(s', e) && Made(s, s', [], cp)
  {
    actions := Recovery.FinishesSaving(path, t, 0);
    assert Break("", 0) == 0;
  }

  // ----- One poll -----

  lemma ReadOnGrows(e: Epoch, p: PollInput)
    ensures var now := Turned(e, p).now; e.seen <= ReadOn(e, p.chunks).seen <= now.seen && now == e.(seen := now.seen)
  {
  }

  /** Each poll that goes well is a run of the step system with the same calls and the same checkpoint,
      which leaves it where the Tail is. */
  lemma TurnIsRun(path: string, s: State, e: Epoch, cp: Checkpoint, p: PollInput, fate: TailEvent -> Fate) returns (actions: seq<Action>)
    requires Attached(s, e, cp) && Plain(e, p) && !PollFails(e, p, fate) && ReadsAll(s, Turned(e, p).now)
    ensures var s', t := Run(path, s, actions), Turned(e, p);
            var cp' := Recorded(cp, path, e, t, PollRecords(e, p), fate);
            Attached(s', Next(t), cp') && Level(s', Next(t)) && Made(s, s', LinesIn(e, t.now), cp')
  {
    var t := Turned(e, p);
    ReadOnGrows(e, p);
    NoFailure(fate, LinesIn(e, t.now));
    actions := ReadsOn(path, s, e, cp, t.now);
    if t.Moves? {
      var s1 := Run(path, s, actions);
      var cp1 := s1.disk.view;
      var move := MovesOn(path, s1, e, p, cp1);
      var save := SavesNext(path, s1, Run(path, s1, move), t.next.identity);
      RunConcat(path, s1, move, save);
      RunConcat(path, s, actions, move + save);
      MadeTwo(s, s1, Run(path, s1, move + save), LinesIn(e, t.now), cp1, [], Checkpoint(path, 0, t.next.identity));
      assert LinesIn(e, t.now) + [] == LinesIn(e, t.now);
      actions := actions + (move + save);
    }
  }

  /** And so is the poll that ends the process, whatever it is that fails. */
  lemma FailureIsRun(path: string, s: State, e: Epoch, cp: Checkpoint, p: PollInput, fate: TailEvent -> Fate) returns (actions: seq<Action>)
    requires Attached(s, e, cp) && Plain(e, p) && PollFails(e, p, fate) && ReadsAll(s, Turned(e, p).now)
    ensures var s', t := Run(path, s, actions), Turned(e, p);
            s'.proc.Down? && Made(s, s', Called(fate, LinesIn(e, t.now)), Recorded(cp, path, e, t, PollRecords(e, p), fate))
  {
    var t := Turned(e, p);
    ReadOnGrows(e, p);
    if Fails(fate, LinesIn(e, t.now)) {
      var bytes := Grows(s, e, cp, t.now);
      var work := FailsWithin(path, Grown(s, s.Last(), bytes), fate);
      RunHead(path, s, Grow(s.Last(), bytes), work);
      actions := [Grow(s.Last(), bytes)] + work;
    } else {
      NoFailure(fate, LinesIn(e, t.now));
      actions := ReadsOn(path, s, e, cp, t.now);
      if PollRecords(e, p) {
        actions := LastMove(path, s, e, p, actions, CheckpointAfter(cp, path, e.identity, LinesIn(e, t.now)));
      } else {
        Stops(path, s, actions);
        actions := actions + [Kill];
      }
    }
  }

  /** The process moves on and its checkpoint write fails, but after the rename. */
  lemma LastMove(path: string, s: State, e: Epoch, p: PollInput, before: seq<Action>, cp: Checkpoint) returns (actions: seq<Action>)
    requires s.Formed() && PollRecords(e, p) && Plain(e, p)
    requires var s1, t := Run(path, s, before), Turned(e, p);
             t.Moves? && Attached(s1, t.now, cp) && Level(s1, t.now) && Made(s, s1, LinesIn(e, t.now), cp)
    ensures var s' := Run(path, s, actions);
            s'.proc.Down? && Made(s, s', LinesIn(e, Turned(e, p).now), Checkpoint(path, 0, Turned(e, p).next.identity))
  {
    var s1 := Run(path, s, before);
    var move := MovesOn(path, s1, e, p, cp);
    var s2 := Run(path, s1, move);
    var save := Renames(path, s2, 0);
    RunConcat(path, s1, move, save);
    RunConcat(path, s, before, move + save);
    Stops(path, s, before + (move + save));
    actions := before + (move + save) + [Kill];
  }

  // ----- One start of the process -----

  /** The step system is where the loop is after `n` polls, having made the calls it made. */
  ghost predicate Keeps(path: string, s: State, s': State, w: Place, cp: Checkpoint, polls: seq<PollInput>, fate: TailEvent -> Fate, n: nat)
    requires n <= |polls|
  {
    var e, cp' := PlaceAfter(w, polls, n).current, RecordedAfter(path, cp, w, polls, fate, n);
    && Attached(s', e, cp') && Made(s, s', LinesUpTo(w, polls, n), cp')
    && (n > 0 ==> Level(s', e)) && (n == 0 ==> s' == s)
  }

  /** The first poll reads all that was in the file when it was opened. */
  predicate FirstReadsAll(s: State, w: Place, polls: seq<PollInput>) {
    polls != [] ==> ReadsAll(s, Turned(w.current, polls[0]).now)
  }

  lemma ReadsAllAt(path: string, s: State, s1: State, w: Place, cp: Checkpoint, polls: seq<PollInput>, fate: TailEvent -> Fate, n: nat)
    requires n < |polls| && Keeps(path, s, s1, w, cp, polls, fate, n) && FirstReadsAll(s, w, polls)
    ensures ReadsAll(s1, Turned(PlaceAfter(w, polls, n).current, polls[n]).now)
  {
    ReadOnGrows(PlaceAfter(w, polls, n).current, polls[n]);
  }

  lemma PollIsRun(path: string, s: State, before: seq<Action>, w: Place, cp: Checkpoint, polls: seq<PollInput>, fate: TailEvent -> Fate,
                  m: nat, n: nat) returns (actions: seq<Action>)
    requires s.Formed() && FirstReadsAll(s, w, polls) && GoWell(w, polls, fate, m)
    requires n < m && Keeps(path, s, Run(path, s, before), w, cp, polls, fate, n)
    ensures Keeps(path, s, Run(path, s, actions), w, cp, polls, fate, n + 1)
  {
    assert PlainAt(w, polls, n) && !FailsAt(w, polls, fate, n);
    var e, cp1, p := PlaceAfter(w, polls, n).current, RecordedAfter(path, cp, w, polls, fate, n), polls[n];
    var s1, t := Run(path, s, before), Turned(e, p);
    ReadsAllAt(path, s, s1, w, cp, polls, fate, n);
    var more := TurnIsRun(path, s1, e, cp1, p, fate);
    MadeTwo(s, s1, Run(path, s1, more), LinesUpTo(w, polls, n), cp1, LinesIn(e, t.now), Recorded(cp1, path, e, t, PollRecords(e, p), fate));
    RunConcat(path, s, before, more);
    actions := before + more;
  }

  lemma NoPolls(path: string, s: State, w: Place, cp: Checkpoint, polls: seq<PollInput>, fate: TailEvent -> Fate)
    requires Attached(s, w.current, cp)
    ensures Keeps(path, s, Run(path, s, []), w, cp, polls, fate, 0)
  {
  }

  /** The first `n` polls can be followed and go well. */
  ghost predicate GoWell(w: Place, polls: seq<PollInput>, fate: TailEvent -> Fate, n: nat) {
    && n <= |polls|
    && (forall i {:trigger PlainAt(w, polls, i)} :: 0 <= i < n ==> PlainAt(w, polls, i))
    && (forall i {:trigger FailsAt(w, polls, fate, i)} :: 0 <= i < n ==> !FailsAt(w, polls, fate, i))
  }

  /** Polls that go well are a run of the step system. */
  lemma {:induction false} PollsAreRun(path: string, s: State, w: Place, cp: Checkpoint, polls: seq<PollInput>, fate: TailEvent -> Fate,
                                       m: nat, n: nat) returns (actions: seq<Action>)
    requires Attached(s, w.current, cp) && FirstReadsAll(s, w, polls) && GoWell(w, polls, fate, m) && n <= m
    ensures Keeps(path, s, Run(path, s, actions), w, cp, polls, fate, n)
    decreases n
  {
    if n == 0 {
      NoPolls(path, s, w, cp, polls, fate);
      return [];
    }
    var before := PollsAreRun(path, s, w, cp, polls, fate, m, n - 1);
    actions := PollIsRun(path, s, before, w, cp, polls, fate, m, n - 1);
  }

  lemma LastPollIsRun(path: string, s: State, before: seq<Action>, w: Place, cp: Checkpoint, polls: seq<PollInput>, fate: TailEvent -> Fate, n: nat)
      returns (actions: seq<Action>)
    requires s.Formed() && FirstReadsAll(s, w, polls)
    requires n < |polls| && Keeps(path, s, Run(path, s, before), w, cp, polls, fate, n)
    requires PlainAt(w, polls, n) && FailsAt(w, polls, fate, n)
    ensures var s' := Run(path, s, actions);
            s'.proc.Down?
            && Made(s, s', LinesUpTo(w, polls, n) + Called(fate, LinesAt(w, polls, n)), RecordedAfter(path, cp, w, polls, fate, n + 1))
  {
    var e, cp1, p := PlaceAfter(w, polls, n).current, RecordedAfter(path, cp, w, polls, fate, n), polls[n];
    var s1, t := Run(path, s, before), Turned(e, p);
    ReadsAllAt(path, s, s1, w, cp, polls, fate, n);
    var more := FailureIsRun(path, s1, e, cp1, p, fate);
    MadeTwo(s, s1, Run(path, s1, more), LinesUpTo(w, polls, n), cp1, Called(fate, LinesIn(e, t.now)),
            Recorded(cp1, path, e, t, PollRecords(e, p), fate));
    RunConcat(path, s, before, more);
    actions := before + more;
  }

  /** Where a loop that ran so leaves the step system. */
  ghost predicate Leaves(path: string, s: State, s': State, w: Place, cp: Checkpoint, polls: seq<PollInput>, fate: TailEvent -> Fate,
                         failed: bool, done: nat, v: Place, made: seq<TailEvent>)
    requires done <= |polls| && (failed ==> done < |polls|)
  {
    var cp' := RecordedAfter(path, cp, w, polls, fate, if failed then done + 1 else done);
    Made(s, s', made, cp') && if failed then s'.proc.Down? else Attached(s', v.current, cp')
  }

  lemma AllGoWell(w: Place, polls: seq<PollInput>, fate: TailEvent -> Fate, failed: bool, done: nat, v: Place, made: seq<TailEvent>)
    requires forall i {:trigger PlainAt(w, polls, i)} :: 0 <= i < |polls| && i <= done ==> PlainAt(w, polls, i)
    requires Ran(w, polls, fate, failed, done, v, made)
    ensures GoWell(w, polls, fate, done) && (failed ==> PlainAt(w, polls, done))
  {
  }

  lemma LeavesWell(path: string, s: State, s': State, w: Place, cp: Checkpoint, polls: seq<PollInput>, fate: TailEvent -> Fate,
                   v: Place, made: seq<TailEvent>)
    requires Ran(w, polls, fate, false, |polls|, v, made) && Keeps(path, s, s', w, cp, polls, fate, |polls|)
    ensures Leaves(path, s, s', w, cp, polls, fate, false, |polls|, v, made)
  {
    assert LinesUpTo(w, polls, |polls|) + [] == LinesUpTo(w, polls, |polls|);
  }

  lemma LeavesBadly(path: string, s: State, s': State, w: Place, cp: Checkpoint, polls: seq<PollInput>, fate: TailEvent -> Fate,
                    done: nat, v: Place, made: seq<TailEvent>)
    requires Ran(w, polls, fate, true, done, v, made) && s'.proc.Down?
    requires Made(s, s', LinesUpTo(w, polls, done) + Called(fate, LinesAt(w, polls, done)), RecordedAfter(path, cp, w, polls, fate, done + 1))
    ensures Leaves(path, s, s', w, cp, polls, fate, true, done, v, made)
  {
  }

  lemma LoopFails(path: string, s: State, w: Place, cp: Checkpoint, polls: seq<PollInput>, fate: TailEvent -> Fate,
                  done: nat, v: Place, made: seq<TailEvent>) returns (actions: seq<Action>)
    requires Attached(s, w.current, cp) && FirstReadsAll(s, w, polls) && Ran(w, polls, fate, true, done, v, made)
    requires GoWell(w, polls, fate, done) && PlainAt(w, polls, done)
    ensures Leaves(path, s, Run(path, s, actions), w, cp, polls, fate, true, done, v, made)
  {
    actions := PollsAreRun(path, s, w, cp, polls, fate, done, done);
    actions := LastPollIsRun(path, s, actions, w, cp, polls, fate, done);
    LeavesBadly(path, s, Run(path, s, actions), w, cp, polls, fate, done, v, made);
  }

  /** The loop, with or without an error at its end, is a run of the step system. */
  lemma LoopIsRun(path: string, s: State, w: Place, cp: Checkpoint, polls: seq<PollInput>, fate: TailEvent -> Fate,
                  failed: bool, done: nat, v: Place, made: seq<TailEvent>) returns (actions: seq<Action>)
    requires Attached(s, w.current, cp) && FirstReadsAll(s, w, polls) && Ran(w, polls, fate, failed, done, v, made)
    requires GoWell(w, polls, fate, done) && (failed ==> PlainAt(w, polls, done))
    ensures Leaves(path, s, Run(path, s, actions), w, cp, polls, fate, failed, done, v, made)
  {
    if failed {
      actions := LoopFails(path, s, w, cp, polls, fate, done, v, made);
    } else {
      actions := PollsAreRun(path, s, w, cp, polls, fate, done, done);
      LeavesWell(path, s, Run(path, s, actions), w, cp, polls, fate, v, made);
    }
  }

  /** Where a Tail opened on this file begins. */
  function Opened(path: string, cp: Checkpoint, file: FileView): Place {
    var o := StartOffset(cp, path, file);
    Place([], Epoch(file.identity, o, file.content[..o]))
  }

  /** What Follower.Tail.Open and Run do from the checkpoint on disk is a run of the step system that
      begins with a start of the process: with exactly their calls, the checkpoint they leave, and, if
      they end in an error, no process.  So what is proved of every run of the step system holds of any
      number of starts, one after the other. */
  lemma StartIsRun(path: string, s: State, file: FileView, polls: seq<PollInput>, fate: TailEvent -> Fate,
                   failed: bool, done: nat, v: Place, made: seq<TailEvent>) returns (actions: seq<Action>)
    requires s.Formed() && s.proc.Down? && s.lives[s.Last()] == Life(file.identity, file.content)
    requires var w := Opened(path, s.disk.view, file);
             && FirstReadsAll(s, w, polls) && Ran(w, polls, fate, failed, done, v, made)
             && forall i {:trigger PlainAt(w, polls, i)} :: 0 <= i < |polls| && i <= done ==> PlainAt(w, polls, i)
    ensures var s', w := Run(path, s, [Boot] + actions), Opened(path, s.disk.view, file);
            var cp := RecordedAfter(path, s.disk.view, w, polls, fate, if failed then done + 1 else done);
            && s.log <= s'.log && Recovery.CallsSince(s'.log, |s.log|) == made && s'.boots == s.boots + 1
            && s'.disk.view == cp && if failed then s'.proc.Down? else Attached(s', v.current, cp)
  {
    OpenIsBoot(path, s, file);
    var w, up := Opened(path, s.disk.view, file), Step(path, s, Boot);
    AllGoWell(w, polls, fate, failed, done, v, made);
    actions := LoopIsRun(path, up, w, s.disk.view, polls, fate, failed, done, v, made);
    RunHead(path, s, Boot, actions);
  }
}
