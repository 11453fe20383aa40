/** When a restart of the forwarder hands over whole lines, and when a rest of one
    (cmd/log-forwarder/follower.go). */
module WholeLines {
  import opened Lines
  import opened Delivery
  import Repeats

  /** Offset `o` is a line boundary, or stands before the newline that ends a line holding nothing but a
      carriage return. */
  predicate AtLine(b: string, o: nat) {
    Boundary(b, o) || (0 < o < |b| && b[o] == '\n' && b[o - 1] == '\r' && Boundary(b, o - 1))
  }

  // ----- Of one file -----

  lemma {:induction false} EventsCommitLater(b: string, o: nat, e: TailEvent)
    requires o <= |b| && e in Events(b, o)
    ensures e.committed > o
    decreases |b| - o
  {
    var first := FirstEvent(b, o);
    if e != first {
      EventsCommitLater(b, first.committed, e);
    }
  }

  lemma EventsFirst(b: string, o: nat, e: TailEvent)
    requires o <= |b| && Break(b, o) < |b|
    ensures e in Events(b, o) <==> e == FirstEvent(b, o) || e in Events(b, Break(b, o) + 1)
  {
  }

  /** What starts inside a line and ends with it is that line only if nothing but its carriage return was
      left out. */
  lemma SameLineIff(b: string, x: nat, o: nat, first: TailEvent, e: TailEvent)
    requires Boundary(b, x) && x <= o < first.committed && LineAt(b, x, first) && LineAt(b, o, e)
    ensures e == first <==> AtLine(b, o)
  {
    assert b[first.committed - 1] == '\n' == b[e.committed - 1];
    assert e.committed == first.committed;
    if o == x {
      LineAtUnique(b, o, e, first);
    } else {
      assert b[o - 1] != '\n';
      assert |e.line| == |first.line| ==> o == first.committed - 1 == x + 1 && b[x] == '\r';
      assert o >= x + 2 ==> b[o - 2] != '\n';
    }
  }

  lemma {:induction false} LaterLineIff(b: string, x: nat, o: nat, e: TailEvent)
    requires x <= o <= |b| && Boundary(b, x) && LineAt(b, o, e)
    ensures e in Events(b, x) <==> AtLine(b, o)
    decreases |b| - x
  {
    assert b[e.committed - 1] == '\n';
    var first := FirstEvent(b, x);
    EventsFirst(b, x, e);
    if o < first.committed {
      SameLineIff(b, x, o, first, e);
      if e in Events(b, first.committed) {
        EventsCommitLater(b, first.committed, e);
      }
    } else {
      LaterLineIff(b, first.committed, o, e);
    }
  }

  /** What is handed over from offset `o` on is one of the lines of the file if and only if `o` is at a line. */
  lemma WholeIff(b: string, o: nat, e: TailEvent)
    requires LineAt(b, o, e)
    ensures e in Events(b, 0) <==> AtLine(b, o)
  {
    LaterLineIff(b, 0, o, e);
  }

  lemma AtLineGrows(b: string, w: string, o: nat)
    requires b <= w && AtLine(b, o)
    ensures AtLine(w, o)
  {
  }

  // ----- Of a restart -----

  /** Call `i` hands over one of the lines of its file, whole. */
  ghost predicate WholeCall(lives: seq<Life>, log: seq<Emission>, i: nat)
    requires i < |log|
  {
    log[i].life < |lives| && log[i].event in Events(lives[log[i].life].content, 0)
  }

  predicate OneStart(actions: seq<Action>) { forall i :: 0 <= i < |actions| ==> actions[i] != Boot }

  ghost predicate WholeFrom(s: State, n: nat) {
    forall i {:trigger WholeCall(s.lives, s.log, i)} :: n <= i < |s.log| ==> WholeCall(s.lives, s.log, i)
  }

  /** Whatever happens until the next start, all that is handed over are whole lines. */
  ghost predicate StaysWhole(path: string, s: State)
    requires s.Formed()
  {
    forall more :: OneStart(more) && NoSkips(path, s, more) ==> WholeFrom(Run(path, s, more), |s.log|)
  }

  /** Call `i` starts at a line. */
  predicate StartsAtLine(lives: seq<Life>, log: seq<Emission>, i: nat)
    requires i < |log|
  {
    log[i].life < |lives| && AtLine(lives[log[i].life].content, log[i].start)
  }

  /** The calls since number `n` start at a line, and so will the next one. */
  predicate OnLines(s: State, n: nat)
    requires s.Formed()
  {
    && (forall i {:trigger StartsAtLine(s.lives, s.log, i)} :: n <= i < |s.log| ==> StartsAtLine(s.lives, s.log, i))
    && (s.proc.Up? ==> AtLine(s.lives[s.proc.life].content, s.proc.committed))
  }

  lemma OnLinesGrows(s: State, s': State, n: nat)
    requires s.Formed() && s'.Formed() && OnLines(s, n) && Extends(s.lives, s'.lives) && s'.log == s.log
    requires s'.proc.Up? ==> s'.proc.committed == 0
                             || (s.proc.Up? && s'.proc.life == s.proc.life && s'.proc.committed == s.proc.committed)
    ensures OnLines(s', n)
  {
    forall i | n <= i < |s'.log| ensures StartsAtLine(s'.lives, s'.log, i) {
      assert StartsAtLine(s.lives, s.log, i);
      AtLineGrows(s.lives[s.log[i].life].content, s'.lives[s.log[i].life].content, s.log[i].start);
    }
    if s.proc.Up? {
      AtLineGrows(s.lives[s.proc.life].content, s'.lives[s.proc.life].content, s.proc.committed);
    }
  }

  lemma OnLinesEmits(s: State, n: nat, outcome: Outcome)
    requires s.Formed() && ProcOk(s) && OnLines(s, n) && HasLine(s.proc)
    ensures OnLines(Emits(s, outcome), n)
  {
    var s' := Emits(s, outcome);
    EmittedLine(s, outcome);
    forall i | n <= i < |s'.log| ensures StartsAtLine(s'.lives, s'.log, i) {
      if i < |s.log| {
        assert StartsAtLine(s.lives, s.log, i);
      }
    }
  }

  lemma GoesOn(path: string, s: State, a: Action)
    requires s.Formed() && a != Boot && !Skips(path, s, a) && !(a.Emit? && HasLine(s.proc))
    ensures var s' := Step(path, s, a);
            && Extends(s.lives, s'.lives) && s'.log == s.log
            && (s'.proc.Up? ==> s'.proc.committed == 0
                                || (s.proc.Up? && s'.proc.life == s.proc.life && s'.proc.committed == s.proc.committed))
  {
  }

  lemma OnLinesStep(path: string, s: State, n: nat, a: Action)
    requires Inv(path, s) && OnLines(s, n) && a != Boot && !Skips(path, s, a)
    ensures OnLines(Step(path, s, a), n)
  {
    if a.Emit? && HasLine(s.proc) {
      OnLinesEmits(s, n, a.outcome);
    } else {
      var s' := Step(path, s, a);
      GoesOn(path, s, a);
      OnLinesGrows(s, s', n);
    }
  }

  lemma {:induction false} OnLinesRun(path: string, s: State, n: nat, more: seq<Action>)
    requires Inv(path, s) && OnLines(s, n) && OneStart(more) && NoSkips(path, s, more)
    ensures OnLines(Run(path, s, more), n) && Inv(path, Run(path, s, more))
    decreases |more|
  {
    if more != [] {
      OnLinesStep(path, s, n, more[0]);
      StepKeeps(path, s, more[0]);
      OnLinesRun(path, Step(path, s, more[0]), n, more[1..]);
    }
  }

  lemma OnLinesIsWhole(path: string, s: State, n: nat)
    requires Inv(path, s) && OnLines(s, n)
    ensures WholeFrom(s, n)
  {
    forall i | n <= i < |s.log| ensures WholeCall(s.lives, s.log, i) {
      assert Delivery.Follows(s.lives, s.log, i) && StartsAtLine(s.lives, s.log, i);
      WholeIff(s.lives[s.log[i].life].content, s.log[i].start, s.log[i].event);
    }
  }

  lemma WholeStays(path: string, up: State)
    requires Inv(path, up) && OnLines(up, |up.log|)
    ensures StaysWhole(path, up)
  {
    forall more | OneStart(more) && NoSkips(path, up, more) ensures WholeFrom(Run(path, up, more), |up.log|) {
      OnLinesRun(path, up, |up.log|, more);
      OnLinesIsWhole(path, Run(path, up, more), |up.log|);
    }
  }

  // ----- And the condition is needed -----

  /** Freshly started, about to read the file at the path. */
  predicate Fresh(s: State) {
    s.Formed() && s.MayRead() && s.proc.stage == Tailing && s.proc.life == s.proc.handle == s.Last()
  }

  /** The next line is handed over: not a whole one if it starts inside a line. */
  lemma ServesPart(path: string, s: State) returns (more: seq<Action>)
    requires Inv(path, s) && Fresh(s)
    requires var b := s.lives[s.Last()].content; !NoBreak(b, s.proc.committed) && !AtLine(b, s.proc.committed)
    ensures OneStart(more) && NoSkips(path, s, more) && !WholeFrom(Run(path, s, more), |s.log|)
  {
    var b := s.lives[s.Last()].content;
    Repeats.ReadsLine(path, s);
    var s1 := Reads(s, |b|);
    EmittedLine(s1, Delivered);
    EmitKeeps(path, s1, Delivered);
    var s2 := Emits(s1, Delivered);
    NotWhole(s2, |s.log|);
    more := [ReadSome(|b|)] + [Emit(Delivered)];
    TwoActions(path, s, ReadSome(|b|), Emit(Delivered));
  }

  lemma NotWhole(s: State, i: nat)
    requires s.Formed() && InOrder(s.lives, s.log) && i < |s.log| && !StartsAtLine(s.lives, s.log, i)
    ensures !WholeFrom(s, i)
  {
    assert Delivery.Follows(s.lives, s.log, i);
    WholeIff(s.lives[s.log[i].life].content, s.log[i].start, s.log[i].event);
    assert !WholeCall(s.lives, s.log, i);
  }

  lemma TwoActions(path: string, s: State, a: Action, b: Action)
    requires s.Formed() && !Skips(path, s, a) && !Skips(path, Step(path, s, a), b)
    ensures NoSkips(path, s, [a] + [b]) && Run(path, s, [a] + [b]) == Step(path, Step(path, s, a), b)
  {
    var t := Step(path, s, a);
    assert [b][1..] == [];
    assert Run(path, t, [b]) == Run(path, Step(path, t, b), []);
    assert ([a] + [b])[1..] == [b];
  }

  lemma NotYet(b: string, o: nat)
    requires o <= |b| && NoBreak(b, o) && !AtLine(b, o)
    ensures !NoBreak(b + "x\n", o) && !AtLine(b + "x\n", o)
  {
    var w := b + "x\n";
    assert w[|b| + 1] == '\n' && w[|b|] == 'x';
  }

  /** If there is no next line yet, one may come. */
  lemma ComesPart(path: string, s: State) returns (more: seq<Action>)
    requires Inv(path, s) && Fresh(s) && s.proc.committed <= |s.lives[s.Last()].content|
    requires var b := s.lives[s.Last()].content; NoBreak(b, s.proc.committed) && !AtLine(b, s.proc.committed)
    ensures OneStart(more) && NoSkips(path, s, more) && !WholeFrom(Run(path, s, more), |s.log|)
  {
    var a := Grow(s.Last(), "x\n");
    GrowKeeps(path, s, s.Last(), "x\n");
    NotYet(s.lives[s.Last()].content, s.proc.committed);
    var s1 := Step(path, s, a);
    more := ServesPart(path, s1);
    assert ([a] + more)[1..] == more;
    more := [a] + more;
  }

  /** After any run without skips and a stop, whole lines are all that a restart that does not skip will
      hand over if and only if it resumes at a line: if what the file at the path now holds has a line
      boundary where the checkpoint stands (or only the carriage return of an empty line before it).
      A file with an identity of its own always has. */
  lemma ResumesWholeIff(path: string, first: Life, actions: seq<Action>)
    requires NoSkips(path, Init(first), actions)
    requires var s := Run(path, Init(first), actions); s.proc.Down? && !Skips(path, s, Boot)
    ensures var s := Run(path, Init(first), actions);
            && (StaysWhole(path, Step(path, s, Boot)) <==> AtLine(s.lives[s.Last()].content, Resume(path, s, s.disk.view)))
            && (Repeats.Own(s.lives, s.Last()) ==> AtLine(s.lives[s.Last()].content, Resume(path, s, s.disk.view)))
  {
    InitOk(path, first);
    RunKeeps(path, Init(first), actions);
    var s := Run(path, Init(first), actions);
    BootKeeps(path, s);
    if AtLine(s.lives[s.Last()].content, Resume(path, s, s.disk.view)) {
      WholeStays(path, Step(path, s, Boot));
    } else {
      ResumesPart(path, Step(path, s, Boot));
    }
    OwnAtLine(path, s);
  }

  lemma ResumesPart(path: string, up: State)
    requires Inv(path, up) && Fresh(up) && up.proc.committed <= |up.lives[up.Last()].content|
    requires !AtLine(up.lives[up.Last()].content, up.proc.committed)
    ensures !StaysWhole(path, up)
  {
    if NoBreak(up.lives[up.Last()].content, up.proc.committed) {
      var more := ComesPart(path, up);
    } else {
      var more := ServesPart(path, up);
    }
  }

  lemma OwnAtLine(path: string, s: State)
    requires Inv(path, s)
    ensures Repeats.Own(s.lives, s.Last()) ==> AtLine(s.lives[s.Last()].content, Resume(path, s, s.disk.view))
  {
    assert CheckpointOk(path, s, s.disk.view);
    if s.disk.view != Follower.NO_CHECKPOINT {
      var j :| CheckpointIn(s, s.disk.view, j);
    }
  }
}
