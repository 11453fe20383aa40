/** What a restart of the forwarder makes up for, line by line, and what it cannot
    (cmd/log-forwarder/follower.go). */
module Recovery {
  import opened Strings
  import opened Lines
  import opened Follower
  import opened CheckpointFs
  import opened Delivery
  import opened Loss

  /** A process left to its work: it reads, hands lines over and saves checkpoints. */
  predicate Undisturbed(a: Action) { a.ReadSome? || a == Emit(Delivered) || a == SaveStep(true) }

  predicate AllUndisturbed(actions: seq<Action>) { forall i :: 0 <= i < |actions| ==> Undisturbed(actions[i]) }

  lemma RunThen(path: string, s: State, a: Action, work: seq<Action>)
    requires s.Formed() && AllUndisturbed(work)
    ensures Run(path, s, [a] + work) == Run(path, Step(path, s, a), work)
    ensures Undisturbed(a) ==> AllUndisturbed([a] + work)
  {
    assert ([a] + work)[1..] == work;
  }

  /** The rest of a save, undisturbed, puts the process back to reading. */
  lemma {:induction false} FinishesSaving(path: string, s: State, k: nat) returns (work: seq<Action>)
    requires s.Formed() && s.Working(Saving(k))
    ensures AllUndisturbed(work)
    ensures var s' := Run(path, s, work);
            && s' == s.(disk := s'.disk, proc := s.proc.(phase := Reading))
            && (k <= 4 ==> s'.disk == Disk(Current(path, s), {Current(path, s)}))
            && (k == 5 ==> s'.disk == Disk(s.disk.view, {s.disk.view}))
    decreases if k < 5 then 5 - k else 0
  {
    var s1 := Step(path, s, SaveStep(true));
    var rest: seq<Action> := [];
    if k < 5 {
      rest := FinishesSaving(path, s1, k + 1);
    }
    RunThen(path, s, SaveStep(true), rest);
    work := [SaveStep(true)] + rest;
  }

  /** The process reads the file at the path and its pending bytes are bytes of it. */
  predicate Follows(s: State) {
    && s.Formed() && s.Working(Reading) && s.proc.stage == Tailing
    && s.proc.life == s.proc.handle == s.Last()
    && IsSlice(s.lives[s.Last()].content, s.proc.committed, s.proc.read, s.proc.pending)
  }

  /** `s'` has handed over what `s` had, and the lines of the file at the path from offset `o` on. */
  ghost predicate HandsOverFrom(s: State, o: nat, s': State)
    requires s.Formed()
  {
    && s'.lives == s.lives && s.log <= s'.log
    && forall i: nat, x: nat, e :: Line(s, i, x, e) ==>
         (Emitted(s'.log, i, x, e) <==> Emitted(s.log, i, x, e) || (i == s.Last() && x >= o))
  }

  /** The lines of the calls from number `n` on. */
  function CallsSince(log: seq<Emission>, n: nat): seq<TailEvent>
    requires n <= |log|
    decreases |log| - n
  {
    if n == |log| then [] else [log[n].event] + CallsSince(log, n + 1)
  }

  /** From `s` to `s'` exactly the lines of the file at the path from offset `o` on were called, in
      order, and the checkpoint stands after the last of them. */
  ghost predicate ServesFrom(path: string, s: State, o: nat, s': State)
    requires s.Formed()
  {
    var file := s.lives[s.Last()];
    && o <= |file.content| && s.log <= s'.log && s'.boots == s.boots
    && CallsSince(s'.log, |s.log|) == Events(file.content, o)
    && s'.disk.view == CheckpointAfter(s.disk.view, path, file.identity, Events(file.content, o))
    && s'.proc.Up? && s'.proc.committed == Rest(file.content, o)
  }

  lemma ServesOneMore(path: string, s: State, e: Emission, s2: State, s': State)
    requires s.Formed() && s2.Formed() && s2.lives == s.lives && s2.boots == s.boots && s2.log == s.log + [e]
    requires LineAt(s.lives[s.Last()].content, e.start, e.event)
    requires s2.disk.view == Checkpoint(path, e.event.committed, s.lives[s.Last()].identity)
    requires ServesFrom(path, s2, e.event.committed, s')
    ensures ServesFrom(path, s, e.start, s')
  {
    LineIsFirst(s.lives[s.Last()].content, e.start, e.event);
    assert s'.log[|s.log|] == s2.log[|s.log|] == e;
  }

  lemma EmittedSnoc(log: seq<Emission>, last: Emission, i: nat, o: nat, e: TailEvent)
    ensures Emitted(log + [last], i, o, e)
            <==> Emitted(log, i, o, e) || (last.life == i && last.start == o && last.event == e && last.outcome != Lost)
  {
    var longer := log + [last];
    assert longer[|log|] == last;
    if Emitted(log, i, o, e) {
      var k :| 0 <= k < |log| && log[k].life == i && log[k].start == o && log[k].event == e && log[k].outcome != Lost;
      assert longer[k] == log[k];
    }
  }

  lemma OneLine(s: State)
    requires Follows(s) && HasLine(s.proc)
    ensures var s', e := Emits(s, Delivered), NextEvent(s.proc);
            && s.proc.committed < e.committed <= |s.lives[s.Last()].content|
            && s' == s.(log := s'.log, proc := s.proc.(committed := e.committed, pending := s'.proc.pending, phase := Saving(0)))
            && s'.log == s.log + [NextEmission(s, Delivered)] && LineAt(s.lives[s.Last()].content, s.proc.committed, e)
            && Follows(s'.(proc := s'.proc.(phase := Reading)))
            && forall i: nat, x: nat, e' :: Line(s, i, x, e') ==>
                 (Emitted(s'.log, i, x, e') <==>
                    Emitted(s.log, i, x, e') || (i == s.Last() && s.proc.committed <= x < e.committed))
  {
    var s', e := Emits(s, Delivered), NextEvent(s.proc);
    var b := s.lives[s.Last()].content;
    TakeLine(b, s.proc.committed, s.proc.read, s.proc.pending, IndexOf(s.proc.pending, '\n'));
    forall i: nat, x: nat, e' | Line(s, i, x, e')
      ensures Emitted(s'.log, i, x, e') <==>
              Emitted(s.log, i, x, e') || (i == s.Last() && s.proc.committed <= x < e.committed)
    {
      EmittedSnoc(s.log, NextEmission(s, Delivered), i, x, e');
      if i == s.Last() && s.proc.committed <= x < e.committed {
        assert x == s.proc.committed;
        LineAtUnique(b, x, e, e');
      }
    }
  }

  lemma HandsOverMore(s: State, o: nat, s1: State, o1: nat, s': State)
    requires s.Formed() && s1.Formed() && o <= o1 && s1.lives == s.lives && s.log <= s1.log
    requires forall i: nat, x: nat, e :: Line(s, i, x, e) ==>
               (Emitted(s1.log, i, x, e) <==> Emitted(s.log, i, x, e) || (i == s.Last() && o <= x < o1))
    requires HandsOverFrom(s1, o1, s')
    ensures HandsOverFrom(s, o, s')
  {
    forall i: nat, x: nat, e | Line(s, i, x, e)
      ensures Emitted(s'.log, i, x, e) <==> Emitted(s.log, i, x, e) || (i == s.Last() && x >= o)
    {
      assert Line(s1, i, x, e);
    }
  }

  lemma MoreRead(s: State)
    requires Follows(s) && s.MayRead() && s.proc.read < |s.lives[s.Last()].content|
    ensures var s' := Reads(s, |s.lives[s.Last()].content|);
            Follows(s') && s' == s.(proc := s'.proc) && s'.proc.committed == s.proc.committed
            && s'.proc.read == |s.lives[s.Last()].content|
  {
    var b := s.lives[s.Last()].content;
    SliceFurther(b, s.proc.committed, s.proc.read, s.proc.pending, |b| - s.proc.read);
  }

  /** Left alone, a process hands over exactly the lines from its committed offset on, and is idle. */
  lemma {:induction false} CatchesUp(path: string, s: State) returns (work: seq<Action>)
    requires Follows(s)
    ensures AllUndisturbed(work)
    ensures Idle(Run(path, s, work)) && HandsOverFrom(s, s.proc.committed, Run(path, s, work))
    ensures ServesFrom(path, s, s.proc.committed, Run(path, s, work)) && Follows(Run(path, s, work))
    decreases |s.lives[s.Last()].content| - s.proc.committed, |s.lives[s.Last()].content| - s.proc.read
  {
    if HasLine(s.proc) {
      OneLine(s);
      var s1 := Emits(s, Delivered);
      var save := FinishesSaving(path, s1, 0);
      var s2 := Run(path, s1, save);
      work := CatchesUp(path, s2);
      HandsOverMore(s, s.proc.committed, s2, s2.proc.committed, Run(path, s2, work));
      ServesOneMore(path, s, NextEmission(s, Delivered), s2, Run(path, s2, work));
      RunConcat(path, s1, save, work);
      work := save + work;
      RunThen(path, s, Emit(Delivered), work);
      work := [Emit(Delivered)] + work;
    } else if s.proc.read < |s.lives[s.Last()].content| {
      MoreRead(s);
      var a := ReadSome(|s.lives[s.Last()].content|);
      var s1 := Step(path, s, a);
      work := CatchesUp(path, s1);
      HandsOverMore(s, s.proc.committed, s1, s1.proc.committed, Run(path, s1, work));
      RunThen(path, s, a, work);
      work := [a] + work;
    } else {
      work := [];
      NothingMore(s);
    }
  }

  lemma NothingMore(s: State)
    requires Follows(s) && !HasLine(s.proc) && s.proc.read == |s.lives[s.Last()].content|
    ensures Idle(s) && HandsOverFrom(s, s.proc.committed, s)
    ensures forall path :: ServesFrom(path, s, s.proc.committed, s)
  {
    var b := s.lives[s.Last()].content;
    SliceNoBreak(b, s.proc.committed, s.proc.pending);
    assert Break(b, s.proc.committed) == |b|;
    forall i: nat, x: nat, e | Line(s, i, x, e) ensures !(i == s.Last() && x >= s.proc.committed) {
      assert i == s.Last() ==> b[e.committed - 1] == '\n';
    }
  }

  /** After any run whatever, also one that skipped, a restart followed by undisturbed work hands over
      exactly the lines of the file at the path from the offset on at which it resumes: what was left
      out before that offset, or in another file, stays left out. */
  lemma Recovers(path: string, first: Life, actions: seq<Action>) returns (work: seq<Action>)
    ensures AllUndisturbed(work)
    ensures var s := Run(path, Init(first), actions);
            var s' := Run(path, Init(first), actions + ([Kill, Boot] + work));
            Idle(s') && HandsOverFrom(s, Resume(path, s, s.disk.view), s')
  {
    var s := Run(path, Init(first), actions);
    var down := Step(path, s, Kill);
    var up := Step(path, down, Boot);
    work := CatchesUp(path, up);
    assert ([Kill, Boot] + work)[1..] == [Boot] + work;
    assert ([Boot] + work)[1..] == work;
    RunConcat(path, Init(first), actions, [Kill, Boot] + work);
    var s' := Run(path, up, work);
    forall i: nat, x: nat, e | Line(s, i, x, e)
      ensures Emitted(s'.log, i, x, e) <==> Emitted(s.log, i, x, e) || (i == s.Last() && x >= Resume(path, s, s.disk.view))
    {
      assert Line(up, i, x, e);
    }
  }

  /** So, after a run without skips, the restart makes up for everything if and only if no file that has
      left the path owes a line and it does not resume past a line that the file at the path owes. */
  lemma RecoversAllIff(path: string, first: Life, actions: seq<Action>) returns (work: seq<Action>)
    requires NoSkips(path, Init(first), actions)
    ensures AllUndisturbed(work)
    ensures var s := Run(path, Init(first), actions);
            var s' := Run(path, Init(first), actions + ([Kill, Boot] + work));
            && Idle(s')
            && (AllEmitted(s') <==>
                  && (forall i :: 0 <= i < s.Last() ==> !Owes(s, i, 0))
                  && (Resume(path, s, s.disk.view) <= High(s, s.Last()) || !Owes(s, s.Last(), 0)))
  {
    InitOk(path, first);
    RunKeeps(path, Init(first), actions);
    work := Recovers(path, first, actions);
    var s := Run(path, Init(first), actions);
    MadeUpIff(path, s, Run(path, Init(first), actions + ([Kill, Boot] + work)));
  }

  lemma MadeUpIff(path: string, s: State, s': State)
    requires Inv(path, s) && HandsOverFrom(s, Resume(path, s, s.disk.view), s')
    ensures AllEmitted(s') <==>
              && (forall i :: 0 <= i < s.Last() ==> !Owes(s, i, 0))
              && (Resume(path, s, s.disk.view) <= High(s, s.Last()) || !Owes(s, s.Last(), 0))
  {
    var o, last := Resume(path, s, s.disk.view), s.Last();
    if i :| 0 <= i < |s.lives| && Owes(s, i, 0) && (i < last || o > High(s, last)) {
      var e := OwedLine(s, i);
      assert Line(s', i, High(s, i), e) && !Emitted(s'.log, i, High(s, i), e);
    } else {
      forall i: nat, x: nat, e | Line(s', i, x, e) ensures Emitted(s'.log, i, x, e) {
        assert Line(s, i, x, e);
        EmittedIff(s, i, x, e);
        if x >= High(s, i) {
          assert s.lives[i].content[e.committed - 1] == '\n';
          assert Owes(s, i, 0);
        }
      }
    }
  }

  // ----- A truncation under a running process -----

  /** The process goes on, others append to files, and it may die; nothing else touches the path. */
  predicate Calm(a: Action) { a.Grow? || a.ReadSome? || a.Emit? || a.SaveStep? || a.Poll? || a.Kill? }

  predicate AllCalm(actions: seq<Action>) { forall i :: 0 <= i < |actions| ==> Calm(actions[i]) }

  /** The pending bytes begin with `old_`, which is not what the file now begins with, and go on with
      what it holds after that. */
  predicate Mangled(p: Proc, last: nat, content: string, old_: string)
    requires p.Up?
  {
    && p.committed == 0 && '\n' !in old_
    && |old_| <= p.read == |p.pending| && p.read <= |content|
    && old_ <= p.pending && !(old_ <= content)
    && (forall k :: |old_| <= k < p.read ==> p.pending[k] == content[k])
    && (p.read > |old_| ==> p.life == last)
  }

  /** The process is past the start of the file at the path, has lines of its earlier life to hand over
      before it reads on, or has bytes of that in front of the first line. */
  ghost predicate Misplaced(s: State, old_: string)
    requires s.Formed()
  {
    s.proc.Up? ==>
      && s.proc.handle == s.Last() && s.proc.stage == Tailing
      && s.lives[s.proc.life].identity == s.lives[s.Last()].identity
      && s.proc.read <= |s.lives[s.Last()].content|
      && (s.proc.committed > 0 || ('\n' in s.proc.pending && s.proc.life < s.Last())
          || Mangled(s.proc, s.Last(), s.lives[s.Last()].content, old_))
  }

  /** Whatever was handed over as the first line of the file at the path is not that line, which is complete. */
  ghost predicate FirstIsWrong(s: State)
    requires s.Formed()
  {
    forall k :: 0 <= k < |s.log| && s.log[k].life == s.Last() && s.log[k].start == 0 ==>
      !NoBreak(s.lives[s.Last()].content, 0) && !LineAt(s.lives[s.Last()].content, 0, s.log[k].event)
  }

  lemma StaysWrong(b: string, w: string, e: TailEvent)
    requires b <= w && !NoBreak(b, 0) && !LineAt(b, 0, e)
    ensures !NoBreak(w, 0) && !LineAt(w, 0, e)
  {
    assert Break(b, 0) < |b| && w[Break(b, 0)] == '\n';
    var first := FirstEvent(b, 0);
    LineAtGrows(b, w, 0, first);
    if LineAt(w, 0, e) {
      LineAtUnique(w, 0, e, first);
    }
  }

  /** A line with foreign bytes in front is not the line of the file. */
  lemma MangledLine(content: string, pending: string, old_: string, idx: nat)
    requires |old_| <= idx < |pending| <= |content| && old_ <= pending
    requires forall k :: |old_| <= k < |pending| ==> pending[k] == content[k]
    requires LineAt(content, 0, TailEvent(TrimCR(pending[..idx]), idx + 1))
    ensures old_ <= content
  {
    var line := TrimCR(pending[..idx]);
    assert forall k :: 0 <= k < |line| ==> line[k] == pending[k] == content[k];
    if |line| < idx {
      assert pending[..idx][idx - 1] == pending[idx - 1];
    }
    assert forall k :: 0 <= k < |old_| ==> old_[k] == pending[k] == content[k];
  }

  lemma EmitsWrong(s: State, outcome: Outcome, old_: string)
    requires s.Formed() && Misplaced(s, old_) && FirstIsWrong(s)
    ensures Misplaced(Emits(s, outcome), old_) && FirstIsWrong(Emits(s, outcome))
  {
    if HasLine(s.proc) {
      var s', e, idx := Emits(s, outcome), NextEmission(s, outcome), IndexOf(s.proc.pending, '\n');
      var content := s.lives[s.Last()].content;
      if e.life == s.Last() && e.start == 0 {
        assert content[idx] == '\n';
        if LineAt(content, 0, e.event) {
          MangledLine(content, s.proc.pending, old_, idx);
        }
      }
      forall k | 0 <= k < |s'.log| && s'.log[k].life == s'.Last() && s'.log[k].start == 0
        ensures !NoBreak(content, 0) && !LineAt(content, 0, s'.log[k].event)
      {
        assert k < |s.log| ==> s'.log[k] == s.log[k];
      }
    }
  }

  lemma GrowsWrong(s: State, i: nat, bytes: string, old_: string)
    requires s.Formed() && Misplaced(s, old_) && FirstIsWrong(s)
    ensures Misplaced(Grown(s, i, bytes), old_) && FirstIsWrong(Grown(s, i, bytes))
  {
    var s' := Grown(s, i, bytes);
    var b, w := s.lives[s.Last()].content, s'.lives[s.Last()].content;
    assert b <= w;
    forall k | 0 <= k < |s'.log| && s'.log[k].life == s'.Last() && s'.log[k].start == 0
      ensures !NoBreak(w, 0) && !LineAt(w, 0, s'.log[k].event)
    {
      StaysWrong(b, w, s.log[k].event);
    }
    if s.proc.Up? && Mangled(s.proc, s.Last(), b, old_) {
      assert |old_| <= |b| && !(old_ <= w);
    }
  }

  lemma ReadsWrong(s: State, n: nat, old_: string)
    requires s.Formed() && Misplaced(s, old_) && FirstIsWrong(s)
    ensures Misplaced(Reads(s, n), old_) && FirstIsWrong(Reads(s, n))
  {
  }

  lemma CalmStep(path: string, s: State, a: Action, old_: string)
    requires s.Formed() && Misplaced(s, old_) && FirstIsWrong(s) && Calm(a)
    ensures Step(path, s, a).Last() == s.Last() && Misplaced(Step(path, s, a), old_) && FirstIsWrong(Step(path, s, a))
  {
    match a
    case Grow(i, bytes) => GrowsWrong(s, i, bytes, old_);
    case ReadSome(n) => ReadsWrong(s, n, old_);
    case Emit(outcome) => EmitsWrong(s, outcome, old_);
    case _ =>
  }

  /** Once there, only a restart, a rotation or another truncation can bring it back to the start. */
  lemma {:induction false} StaysMisplaced(path: string, s: State, actions: seq<Action>, old_: string)
    requires s.Formed() && Misplaced(s, old_) && FirstIsWrong(s) && AllCalm(actions)
    ensures Run(path, s, actions).Last() == s.Last() && FirstIsWrong(Run(path, s, actions))
    decreases |actions|
  {
    if actions != [] {
      assert Calm(actions[0]);
      CalmStep(path, s, actions[0], old_);
      StaysMisplaced(path, Step(path, s, actions[0]), actions[1..], old_);
    }
  }

  /** The file at the path is emptied and grows to `bytes` before anybody looks. */
  function Cut(s: State, bytes: string): (s': State)
    requires s.Formed()
    ensures s'.Formed()
  {
    Grown(Truncated(s), |s.lives|, bytes)
  }

  lemma CutState(path: string, s: State, bytes: string)
    requires Inv(path, s) && s.proc.Up? && s.proc.handle == s.Last()
    ensures var s' := Cut(s, bytes);
            && s'.Last() == |s.lives| && s'.log == s.log && s'.proc == s.proc.(handle := |s.lives|)
            && s'.lives == s.lives + [Life(s.lives[s.Last()].identity, bytes)]
            && s.proc.stage == Tailing && s.proc.committed + |s.proc.pending| == s.proc.read
            && FirstIsWrong(s')
  {
    assert Truncated(s).lives[|s.lives|] == Life(s.lives[s.Last()].identity, "");
    assert Cut(s, bytes).lives == s.lives + [Life(s.lives[s.Last()].identity, bytes)] by {
      assert "" + bytes == bytes;
    }
    forall k | 0 <= k < |s.log| ensures s.log[k].life < |s.lives| {
      assert Delivery.Follows(s.lives, s.log, k);
    }
  }

  /** No calm run hands the first line of the file at the path over, complete as it may become. */
  ghost predicate FirstLineLost(path: string, s: State)
    requires s.Formed()
  {
    forall actions :: AllCalm(actions) ==>
      forall e :: Line(Run(path, s, actions), s.Last(), 0, e) ==> !Emitted(Run(path, s, actions).log, s.Last(), 0, e)
  }

  lemma MisplacedLoses(path: string, s: State, old_: string)
    requires s.Formed() && Misplaced(s, old_) && FirstIsWrong(s)
    ensures FirstLineLost(path, s)
  {
    forall actions | AllCalm(actions)
      ensures forall e :: Line(Run(path, s, actions), s.Last(), 0, e) ==> !Emitted(Run(path, s, actions).log, s.Last(), 0, e)
    {
      StaysMisplaced(path, s, actions, old_);
    }
  }

  // ----- A truncation that is noticed -----

  lemma CalmConcat(path: string, s: State, a: seq<Action>, b: seq<Action>)
    requires s.Formed() && AllCalm(a) && AllCalm(b)
    ensures AllCalm(a + b) && Run(path, s, a + b) == Run(path, Run(path, s, a), b)
  {
    RunConcat(path, s, a, b);
  }

  lemma UndisturbedIsCalm(work: seq<Action>)
    requires AllUndisturbed(work)
    ensures AllCalm(work)
  {
    forall i | 0 <= i < |work| ensures Calm(work[i]) {
      assert Undisturbed(work[i]);
    }
  }

  /** Whatever it is at, the process comes to read on, having read no further. */
  lemma {:induction false} ComesToRead(path: string, s: State) returns (work: seq<Action>)
    requires s.Formed() && s.proc.Up?
    ensures AllUndisturbed(work)
    ensures var s' := Run(path, s, work);
            && s'.lives == s.lives && s'.proc.Up? && s'.proc.phase == Reading && '\n' !in s'.proc.pending
            && s'.proc.life == s.proc.life && s'.proc.handle == s.proc.handle && s'.proc.read == s.proc.read
            && s'.proc.stage == s.proc.stage
            && ('\n' !in s.proc.pending ==> s'.log == s.log && s'.proc == s.proc.(phase := Reading))
    decreases |s.proc.pending|, if s.proc.phase.Saving? then 1 else 0
  {
    if s.proc.phase.Saving? {
      var save := FinishesSaving(path, s, s.proc.phase.k);
      var rest := ComesToRead(path, Run(path, s, save));
      RunConcat(path, s, save, rest);
      work := save + rest;
    } else if '\n' in s.proc.pending {
      var rest := ComesToRead(path, Emits(s, Delivered));
      RunThen(path, s, Emit(Delivered), rest);
      work := [Emit(Delivered)] + rest;
    } else {
      work := [];
    }
  }

  /** Shorter than what was read: the next look starts the file over. */
  lemma Notices(path: string, s: State) returns (work: seq<Action>)
    requires s.Formed() && s.proc.Up? && s.proc.stage == Tailing && s.proc.handle == s.Last()
    requires s.lives[s.proc.life].identity == s.lives[s.Last()].identity && |s.lives[s.Last()].content| < s.proc.read
    ensures AllCalm(work)
    ensures var s' := Run(path, s, work);
            s'.lives == s.lives && Follows(s') && s'.proc.committed == 0
  {
    var first := ComesToRead(path, s);
    UndisturbedIsCalm(first);
    var t := Run(path, s, first);
    var t1 := Step(path, t, Poll);
    assert t1.proc == FromStart(t);
    var save := FinishesSaving(path, t1, 0);
    UndisturbedIsCalm(save);
    assert ([Poll] + save)[1..] == save;
    CalmConcat(path, s, first, [Poll] + save);
    work := first + ([Poll] + save);
  }

  /** And then every line of the new contents is handed over. */
  lemma NoticedTruncationLosesNothing(path: string, s: State, bytes: string) returns (work: seq<Action>)
    requires Inv(path, s) && s.proc.Up? && s.proc.handle == s.Last() && |bytes| < s.proc.read
    ensures AllCalm(work)
    ensures var s' := Run(path, Cut(s, bytes), work);
            && Idle(s') && s'.lives == Cut(s, bytes).lives
            && forall o: nat, e :: Line(s', s'.Last(), o, e) ==> Emitted(s'.log, s'.Last(), o, e)
  {
    CutState(path, s, bytes);
    var notice := Notices(path, Cut(s, bytes));
    var t := Run(path, Cut(s, bytes), notice);
    var rest := CatchesUp(path, t);
    UndisturbedIsCalm(rest);
    CalmConcat(path, Cut(s, bytes), notice, rest);
    work := notice + rest;
    var s' := Run(path, t, rest);
    forall o: nat, e | Line(s', s'.Last(), o, e) ensures Emitted(s'.log, s'.Last(), o, e) {
      assert Line(t, t.Last(), o, e);
    }
  }

  /** A process at the start of the file at the path hands its first line over once it is complete. */
  lemma FirstComesOut(path: string, s: State) returns (work: seq<Action>)
    requires Follows(s) && s.proc.committed == 0
    ensures AllCalm(work)
    ensures var s' := Run(path, s, work);
            s'.Last() == s.Last() && exists e :: Line(s', s.Last(), 0, e) && Emitted(s'.log, s.Last(), 0, e)
  {
    var b := s.lives[s.Last()].content;
    var t := Step(path, s, Grow(s.Last(), "\n"));
    var w := t.lives[s.Last()].content;
    assert w == b + "\n" && w[|b|] == '\n' && b <= w;
    assert Break(w, 0) < |w|;
    var e := FirstEvent(w, 0);
    assert Line(t, s.Last(), 0, e);
    var rest := CatchesUp(path, t);
    UndisturbedIsCalm(rest);
    work := [Grow(s.Last(), "\n")] + rest;
    assert work[1..] == rest;
    assert Line(Run(path, s, work), s.Last(), 0, e);
  }

  lemma TwoSteps(path: string, s: State, a: Action, b: Action)
    requires s.Formed()
    ensures Run(path, s, [a, b]) == Step(path, Step(path, s, a), b)
  {
    assert [a, b][1..] == [b] && [b][1..] == [];
    assert Run(path, Step(path, s, a), [b]) == Step(path, Step(path, s, a), b);
  }

  /** The bytes in memory are what the file begins with: reading on is reading it from the start. */
  lemma ReadsOn(path: string, s: State) returns (work: seq<Action>)
    requires s.Formed() && s.proc.Up? && s.proc.stage == Tailing && s.proc.handle == s.Last()
    requires s.proc.committed == 0 && '\n' !in s.proc.pending && |s.proc.pending| == s.proc.read
    requires s.proc.pending <= s.lives[s.Last()].content
    ensures AllCalm(work)
    ensures var s' := Run(path, s, work);
            s'.Last() == s.Last() && Follows(s') && s'.proc.committed == 0
  {
    var first := ComesToRead(path, s);
    UndisturbedIsCalm(first);
    var t := Run(path, s, first);
    var b := s.lives[s.Last()].content;
    var g, r := Grow(s.Last(), "\n"), ReadSome(|b| + 1);
    var t1 := Step(path, t, g);
    var w := t1.lives[s.Last()].content;
    assert w == b + "\n" && IsSlice(w, 0, t1.proc.read, t1.proc.pending);
    SliceFurther(w, 0, t1.proc.read, t1.proc.pending, |w| - t1.proc.read);
    var t2 := Step(path, t1, r);
    TwoSteps(path, t, g, r);
    CalmConcat(path, s, first, [g, r]);
    work := first + [g, r];
  }

  lemma NotLost(path: string, s: State, a: seq<Action>, b: seq<Action>)
    requires s.Formed() && AllCalm(a) && AllCalm(b)
    requires var s' := Run(path, Run(path, s, a), b);
             exists e :: Line(s', s.Last(), 0, e) && Emitted(s'.log, s.Last(), 0, e)
    ensures !FirstLineLost(path, s)
  {
    CalmConcat(path, s, a, b);
    assert AllCalm(a + b);
  }

  /** Exactly when a truncation under a running process loses a line: it grew back to the read offset
      before anybody looked, and the process is not merely at the start of the file with the very bytes
      in memory that the new contents begin with.  Then no run that goes on without a restart and
      without touching the path again hands the first line of the new contents over. */
  lemma TruncationLosesIff(path: string, s: State, bytes: string)
    requires Inv(path, s) && s.proc.Up? && s.proc.handle == s.Last()
    ensures FirstLineLost(path, Cut(s, bytes)) <==>
              && |bytes| >= s.proc.read
              && !(s.proc.committed == 0 && '\n' !in s.proc.pending && s.proc.pending <= bytes)
  {
    CutState(path, s, bytes);
    var cut := Cut(s, bytes);
    if |bytes| < s.proc.read {
      var a := Notices(path, cut);
      var b := FirstComesOut(path, Run(path, cut, a));
      NotLost(path, cut, a, b);
    } else if s.proc.committed == 0 && '\n' !in s.proc.pending && s.proc.pending <= bytes {
      var a := ReadsOn(path, cut);
      var b := FirstComesOut(path, Run(path, cut, a));
      NotLost(path, cut, a, b);
    } else {
      MisplacedLoses(path, cut, s.proc.pending);
    }
  }
}
