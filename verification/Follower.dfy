/** The tailing state machine (cmd/log-forwarder/follower.go): chunked reads, line emission with a
    checkpoint per line, truncation and rotation. */
module Follower {
  import opened Strings
  import opened Lines

  datatype FileIdentity = FileIdentity(dev: nat, inode: nat)

  /** A file as open or stat sees it at one moment. */
  datatype FileView = FileView(identity: FileIdentity, content: string)

  datatype Checkpoint = Checkpoint(filePath: string, offset: int, identity: FileIdentity)

  /** What LoadCheckpoint returns when there is no checkpoint file. */
  const NO_CHECKPOINT := Checkpoint("", 0, FileIdentity(0, 0))

  /** How the callback and the checkpoint write for one line turn out; SyncFails is a write that fails
      after its rename. */
  datatype Fate = Fine | CallbackFails | SaveFails | SyncFails

  /** The bytes read from one file while it was followed: from offset `start` to the end of `seen`. */
  datatype Epoch = Epoch(identity: FileIdentity, start: nat, seen: string) {
    ghost function Events(): seq<TailEvent> { if start <= |seen| then Lines.Events(seen, start) else [] }
  }

  /** All lines of all epochs, one file after the other. */
  ghost function Replay(epochs: seq<Epoch>): seq<TailEvent> {
    if epochs == [] then [] else epochs[0].Events() + Replay(epochs[1..])
  }

  lemma {:induction false} ReplaySnoc(past: seq<Epoch>, e: Epoch)
    ensures Replay(past + [e]) == Replay(past) + e.Events()
  {
    if past == [] {
      assert (past + [e])[1..] == [];
      assert Replay([]) == [];
    } else {
      ReplaySnoc(past[1..], e);
      assert (past + [e])[1..] == past[1..] + [e];
      AppendAssoc(past[0].Events(), Replay(past[1..]), e.Events());
    }
  }

  /** A file whose lines are all emitted joins the past without changing the trace. */
  lemma MovesToPast(past: seq<Epoch>, e: Epoch, emitted: seq<TailEvent>)
    requires e.start <= |e.seen| && Consecutive(e.seen, e.start, emitted)
    requires NoBreak(e.seen, EndOf(emitted, e.start))
    ensures Replay(past + [e]) + [] == Replay(past) + emitted
  {
    AllLines(e.seen, e.start, emitted);
    ReplaySnoc(past, e);
    assert Replay(past + [e]) + [] == Replay(past + [e]);
  }

  /** So for a drained file: nothing complete is pending. */
  lemma LeavesFile(past: seq<Epoch>, e: Epoch, emitted: seq<TailEvent>, committed: nat, pending: string, calls: seq<TailEvent>)
    requires e.start <= |e.seen| && Consecutive(e.seen, e.start, emitted) && committed == EndOf(emitted, e.start)
    requires IsSlice(e.seen, committed, |e.seen|, pending) && '\n' !in pending && calls == Replay(past) + emitted
    ensures calls == Replay(past + [e]) + []
  {
    SliceNoBreak(e.seen, committed, pending);
    MovesToPast(past, e, emitted);
  }

  function Join(chunks: seq<string>): string {
    if chunks == [] then "" else Join(chunks[..|chunks| - 1]) + chunks[|chunks| - 1]
  }

  /** The offset at which a restarted follower resumes. */
  function StartOffset(cp: Checkpoint, path: string, file: FileView): nat {
    if cp.filePath == path && 0 <= cp.offset <= |file.content| && cp.identity == file.identity then cp.offset else 0
  }

  /** The checkpoint file after the lines of `events` were emitted and saved one by one. */
  function CheckpointAfter(cp: Checkpoint, path: string, identity: FileIdentity, events: seq<TailEvent>): Checkpoint {
    if events == [] then cp else Checkpoint(path, events[|events| - 1].committed, identity)
  }

  /** `cp` names this file and stands at 0 or just past one of its newlines. */
  predicate StandsIn(cp: Checkpoint, path: string, e: Epoch) {
    cp.filePath == path && cp.identity == e.identity && cp.offset >= 0 && Boundary(e.seen, cp.offset)
  }

  /** The same of one of several files. */
  ghost predicate StandsInOne(cp: Checkpoint, path: string, epochs: seq<Epoch>) {
    exists i :: 0 <= i < |epochs| && StandsIn(cp, path, epochs[i])
  }

  /** The same files, further read, and perhaps later ones. */
  ghost predicate Extends(epochs: seq<Epoch>, later: seq<Epoch>) {
    |epochs| <= |later| && forall i :: 0 <= i < |epochs| ==> epochs[i].identity == later[i].identity && epochs[i].seen <= later[i].seen
  }

  lemma StillStands(cp: Checkpoint, path: string, epochs: seq<Epoch>, later: seq<Epoch>)
    requires Extends(epochs, later) && StandsInOne(cp, path, epochs)
    ensures StandsInOne(cp, path, later)
  {
    var i :| 0 <= i < |epochs| && StandsIn(cp, path, epochs[i]);
    assert StandsIn(cp, path, later[i]);
  }

  /** What happens to the files followed when the current one becomes `now` and perhaps one more begins. */
  lemma ExtendsOne(past: seq<Epoch>, current: Epoch, now: Epoch, next: Epoch)
    requires current.identity == now.identity && current.seen <= now.seen
    ensures Extends(past + [current], past + [now]) && Extends(past + [current], past + [now] + [next])
  {
  }

  lemma StaysAnchored(path: string, loaded: Checkpoint, a: seq<Epoch>, cp: Checkpoint, b: seq<Epoch>, cp': Checkpoint)
    requires Extends(a, b) && (cp' == cp || StandsInOne(cp', path, b))
    ensures cp == loaded || StandsInOne(cp, path, a) ==> cp' == loaded || StandsInOne(cp', path, b)
  {
    if cp' == cp && StandsInOne(cp, path, a) {
      StillStands(cp, path, a, b);
    }
  }

  /** Two stretches, one after the other. */
  lemma StretchTwice(path: string, a: seq<Epoch>, cp: Checkpoint, b: seq<Epoch>, cp': Checkpoint, c: seq<Epoch>, cp'': Checkpoint)
    requires Extends(a, b) && (cp' == cp || StandsInOne(cp', path, b))
    requires Extends(b, c) && (cp'' == cp' || StandsInOne(cp'', path, c))
    ensures Extends(a, c) && (cp'' == cp || StandsInOne(cp'', path, c))
  {
    forall i | 0 <= i < |a| ensures a[i].identity == c[i].identity && a[i].seen <= c[i].seen {
      assert a[i].seen <= b[i].seen <= c[i].seen;
    }
    if cp'' == cp' != cp {
      StillStands(cp', path, b, c);
    }
  }

  lemma SavedMore(cp: Checkpoint, path: string, identity: FileIdentity, a: seq<TailEvent>, b: seq<TailEvent>)
    ensures CheckpointAfter(CheckpointAfter(cp, path, identity, a), path, identity, b) == CheckpointAfter(cp, path, identity, a + b)
  {
  }

  // ----- What a stretch of lines comes to -----

  ghost predicate AllFine(fate: TailEvent -> Fate, lines: seq<TailEvent>) {
    forall i :: 0 <= i < |lines| ==> fate(lines[i]) == Fine
  }

  /** How many of these lines go well: those before the first whose callback or checkpoint write fails. */
  function FineCount(fate: TailEvent -> Fate, lines: seq<TailEvent>): (n: nat)
    ensures n <= |lines|
  {
    if lines == [] || fate(lines[0]) != Fine then 0 else 1 + FineCount(fate, lines[1..])
  }

  /** The calls made for these lines: up to and including the first that fails. */
  function Called(fate: TailEvent -> Fate, lines: seq<TailEvent>): seq<TailEvent> {
    if lines == [] then [] else if fate(lines[0]) != Fine then [lines[0]] else [lines[0]] + Called(fate, lines[1..])
  }

  /** The lines that the checkpoint covers afterwards. */
  function SavedLines(fate: TailEvent -> Fate, lines: seq<TailEvent>): seq<TailEvent> {
    if lines == [] then []
    else if fate(lines[0]) == Fine then [lines[0]] + SavedLines(fate, lines[1..])
    else if fate(lines[0]) == SyncFails then [lines[0]] else []
  }

  predicate Fails(fate: TailEvent -> Fate, lines: seq<TailEvent>) { FineCount(fate, lines) < |lines| }

  lemma {:induction false} FineLines(fate: TailEvent -> Fate, lines: seq<TailEvent>)
    requires AllFine(fate, lines)
    ensures !Fails(fate, lines) && Called(fate, lines) == lines == SavedLines(fate, lines)
  {
    if lines != [] {
      FineLines(fate, lines[1..]);
    }
  }

  lemma FineCons(fate: TailEvent -> Fate, e: TailEvent, more: seq<TailEvent>)
    requires fate(e) == Fine
    ensures FineCount(fate, [e] + more) == 1 + FineCount(fate, more)
    ensures Called(fate, [e] + more) == [e] + Called(fate, more)
    ensures SavedLines(fate, [e] + more) == [e] + SavedLines(fate, more)
  {
    assert ([e] + more)[1..] == more;
  }

  lemma {:induction false} FineThenMore(fate: TailEvent -> Fate, lines: seq<TailEvent>, more: seq<TailEvent>)
    requires AllFine(fate, lines)
    ensures FineCount(fate, lines + more) == |lines| + FineCount(fate, more)
    ensures Called(fate, lines + more) == lines + Called(fate, more)
    ensures SavedLines(fate, lines + more) == lines + SavedLines(fate, more)
  {
    if lines == [] {
      assert lines + more == more;
    } else {
      FineThenMore(fate, lines[1..], more);
      assert lines == [lines[0]] + lines[1..];
      FineFirst(fate, lines[0], lines[1..], more);
    }
  }

  lemma FineFirst(fate: TailEvent -> Fate, e: TailEvent, lines: seq<TailEvent>, more: seq<TailEvent>)
    requires fate(e) == Fine
    requires FineCount(fate, lines + more) == |lines| + FineCount(fate, more)
    requires Called(fate, lines + more) == lines + Called(fate, more)
    requires SavedLines(fate, lines + more) == lines + SavedLines(fate, more)
    ensures FineCount(fate, [e] + lines + more) == 1 + |lines| + FineCount(fate, more)
    ensures Called(fate, [e] + lines + more) == [e] + lines + Called(fate, more)
    ensures SavedLines(fate, [e] + lines + more) == [e] + lines + SavedLines(fate, more)
  {
    AppendAssoc([e], lines, more);
    AppendAssoc([e], lines, Called(fate, more));
    AppendAssoc([e], lines, SavedLines(fate, more));
    FineCons(fate, e, lines + more);
  }

  /** Said by position: the calls go up to and including the first line that fails, and the checkpoint
      covers the lines before it, and it if only the directory sync failed. */
  lemma {:induction false} CalledExactly(fate: TailEvent -> Fate, lines: seq<TailEvent>)
    ensures var n := FineCount(fate, lines);
            && (forall i :: 0 <= i < n ==> fate(lines[i]) == Fine)
            && (n == |lines| ==> Called(fate, lines) == lines == SavedLines(fate, lines))
            && (n < |lines| ==>
                  && fate(lines[n]) != Fine && Called(fate, lines) == lines[..n + 1]
                  && SavedLines(fate, lines) == if fate(lines[n]) == SyncFails then lines[..n + 1] else lines[..n])
  {
    if lines != [] && fate(lines[0]) == Fine {
      CalledExactly(fate, lines[1..]);
      assert lines == [lines[0]] + lines[1..];
    }
  }

  lemma FirstFails(fate: TailEvent -> Fate, e: TailEvent, more: seq<TailEvent>)
    requires fate(e) != Fine
    ensures Fails(fate, [e] + more) && Called(fate, [e] + more) == [e]
    ensures SavedLines(fate, [e] + more) == if fate(e) == SyncFails then [e] else []
  {
  }

  /** Where nothing fails all is called. */
  lemma {:induction false} NoFailure(fate: TailEvent -> Fate, lines: seq<TailEvent>)
    requires !Fails(fate, lines)
    ensures AllFine(fate, lines) && Called(fate, lines) == lines == SavedLines(fate, lines)
  {
    if lines != [] {
      NoFailure(fate, lines[1..]);
      assert lines == [lines[0]] + lines[1..];
    }
  }

  /** How a stretch of reading went: the calls `made` end with the first that fails, if any does. */
  ghost predicate Went(fate: TailEvent -> Fate, failed: bool, before: seq<TailEvent>, made: seq<TailEvent>, after: seq<TailEvent>) {
    after == before + made && Called(fate, made) == made && failed == Fails(fate, made)
  }

  lemma WentWell(fate: TailEvent -> Fate, before: seq<TailEvent>, made: seq<TailEvent>, after: seq<TailEvent>)
    requires AllFine(fate, made) && after == before + made
    ensures Went(fate, false, before, made, after) && SavedLines(fate, made) == made
  {
    FineLines(fate, made);
  }

  /** One more call, after calls that went well. */
  lemma WentOneMore(fate: TailEvent -> Fate, before: seq<TailEvent>, made: seq<TailEvent>, e: TailEvent)
    requires AllFine(fate, made) && fate(e) != Fine
    ensures Went(fate, true, before, made + [e], before + made + [e])
    ensures SavedLines(fate, made + [e]) == if fate(e) == SyncFails then made + [e] else made
  {
    assert [e] + [] == [e];
    FirstFails(fate, e, []);
    FineThenMore(fate, made, [e]);
    AppendAssoc(before, made, [e]);
  }

  lemma WentFurther(fate: TailEvent -> Fate, failed: bool, before: seq<TailEvent>, made: seq<TailEvent>, more: seq<TailEvent>, after: seq<TailEvent>)
    requires AllFine(fate, made) && Went(fate, failed, before + made, more, after)
    ensures Went(fate, failed, before, made + more, after) && SavedLines(fate, made + more) == made + SavedLines(fate, more)
    ensures !failed ==> AllFine(fate, made + more)
  {
    FineThenMore(fate, made, more);
    AppendAssoc(before, made, more);
    if !failed {
      NoFailure(fate, more);
    }
  }

  lemma {:induction false} FailsEarly(fate: TailEvent -> Fate, lines: seq<TailEvent>, more: seq<TailEvent>)
    requires Fails(fate, lines)
    ensures Fails(fate, lines + more)
    ensures Called(fate, lines + more) == Called(fate, lines) && SavedLines(fate, lines + more) == SavedLines(fate, lines)
  {
    assert (lines + more)[1..] == lines[1..] + more;
    if fate(lines[0]) == Fine {
      FailsEarly(fate, lines[1..], more);
    }
  }

  lemma {:induction false} SavedAreFirst(fate: TailEvent -> Fate, lines: seq<TailEvent>)
    ensures SavedLines(fate, lines) <= lines
  {
    if lines != [] && fate(lines[0]) == Fine {
      SavedAreFirst(fate, lines[1..]);
    }
  }

  /** Reading that went so, and stopped at a failure or at the end of `full`, made exactly the calls its
      lines come to; and the last checkpoint stands just past a newline. */
  lemma ReadOutcome(fate: TailEvent -> Fate, failed: bool, e: Epoch, full: string, before: seq<TailEvent>, made: seq<TailEvent>, after: seq<TailEvent>)
    requires e.start <= |e.seen| && e.seen <= full && Consecutive(e.seen, e.start, after) && Went(fate, failed, before, made, after)
    requires !failed ==> e.seen == full && NoBreak(full, EndOf(after, e.start))
    ensures EndOf(before, e.start) <= |full|
    ensures var lines := Events(full, EndOf(before, e.start));
            && failed == Fails(fate, lines) && made == Called(fate, lines)
            && SavedLines(fate, made) == SavedLines(fate, lines)
    ensures var saved := SavedLines(fate, made);
            saved != [] ==> saved[|saved| - 1].committed > 0 && Boundary(e.seen, saved[|saved| - 1].committed)
  {
    var o := e.start;
    ConsecutiveGrows(e.seen, full, o, after);
    ConsecutiveFirst(full, o, after, |before|);
    assert after[..|before|] == before;
    ConsecutiveIsEvents(full, o, before);
    ConsecutiveIsEvents(full, o, after);
    var lines, rest := Events(full, EndOf(before, o)), Events(full, EndOf(after, o));
    AppendAssoc(before, made, rest);
    SameTail(before, lines, made + rest);
    if failed {
      FailsEarly(fate, made, rest);
    } else {
      AllLines(full, o, after);
      assert rest == [] && lines == made;
    }
    LastSaved(fate, e, before, made, after);
  }

  lemma LastSaved(fate: TailEvent -> Fate, e: Epoch, before: seq<TailEvent>, made: seq<TailEvent>, after: seq<TailEvent>)
    requires Consecutive(e.seen, e.start, after) && after == before + made
    ensures var saved := SavedLines(fate, made);
            saved != [] ==> saved[|saved| - 1].committed > 0 && Boundary(e.seen, saved[|saved| - 1].committed)
  {
    var saved := SavedLines(fate, made);
    SavedAreFirst(fate, made);
    if saved != [] {
      EndsAtBoundary(e.seen, e.start, after, |before| + |saved| - 1);
      assert after[|before| + |saved| - 1] == saved[|saved| - 1];
    }
  }

  /** Nothing complete pending: the committed offset is where the lines read so far end. */
  lemma DrainedLines(e: Epoch, emitted: seq<TailEvent>, committed: nat, pending: string)
    requires e.start <= |e.seen| && Consecutive(e.seen, e.start, emitted) && committed == EndOf(emitted, e.start)
    requires IsSlice(e.seen, committed, |e.seen|, pending) && '\n' !in pending
    ensures NoBreak(e.seen, committed) && emitted == e.Events() && committed == Rest(e.seen, e.start)
  {
    SliceNoBreak(e.seen, committed, pending);
    AllLines(e.seen, e.start, emitted);
  }

  lemma JoinSnoc(seen: string, chunks: seq<string>, i: nat)
    requires i < |chunks|
    ensures seen + Join(chunks[..i]) + chunks[i] == seen + Join(chunks[..i + 1])
  {
    assert chunks[..i + 1][..i] == chunks[..i];
  }

  lemma {:induction false} JoinGrows(seen: string, chunks: seq<string>, i: nat)
    requires i <= |chunks|
    ensures seen + Join(chunks[..i]) <= seen + Join(chunks)
  {
    if i < |chunks| {
      var init := chunks[..|chunks| - 1];
      assert init[..i] == chunks[..i];
      JoinGrows(seen, init, i);
      assert seen + Join(chunks) == seen + Join(init) + chunks[|chunks| - 1];
    } else {
      assert chunks[..i] == chunks;
    }
  }

  /** Emitting the first pending line keeps the account of a file. */
  lemma OneMoreLine(e: Epoch, emitted: seq<TailEvent>, pending: string, idx: nat)
    requires Consecutive(e.seen, e.start, emitted)
    requires IsSlice(e.seen, EndOf(emitted, e.start), |e.seen|, pending) && idx == IndexOf(pending, '\n') < |pending|
    ensures var o := EndOf(emitted, e.start);
            var event := TailEvent(TrimCR(pending[..idx]), o + idx + 1);
            && Consecutive(e.seen, e.start, emitted + [event])
            && IsSlice(e.seen, o + idx + 1, |e.seen|, pending[idx + 1..])
  {
    TakeFirst(e, emitted, EndOf(emitted, e.start), pending, idx);
  }

  lemma TakeFirst(e: Epoch, emitted: seq<TailEvent>, o: nat, pending: string, idx: nat)
    requires Consecutive(e.seen, e.start, emitted) && o == EndOf(emitted, e.start)
    requires IsSlice(e.seen, o, |e.seen|, pending) && idx == IndexOf(pending, '\n') < |pending|
    ensures Consecutive(e.seen, e.start, emitted + [TailEvent(TrimCR(pending[..idx]), o + idx + 1)])
    ensures IsSlice(e.seen, o + idx + 1, |e.seen|, pending[idx + 1..])
  {
    TakeLine(e.seen, o, |e.seen|, pending, idx);
    ConsecutiveSnoc(e.seen, e.start, emitted, TailEvent(TrimCR(pending[..idx]), o + idx + 1));
  }

  /** What is found at the path. */
  datatype Stat = Found(file: FileView) | NotThere | StatFails

  /** How a checkpoint write ends: NotSynced is an error after its rename. */
  datatype SaveResult = Saved | NotSaved | NotSynced

  /** What a look at the path meets: the file there, the seek back to its start, what is still readable
      from the old file and whether reading ends at its end, the file found on reopening the path, and
      the checkpoint write. */
  datatype Look = Look(stat: Stat, seekOk: bool, rest: seq<string>, restOk: bool, reopened: Option<FileView>, save: SaveResult)

  /** What one turn of the loop meets: the bytes read, whether reading ends at end of file, and the look. */
  datatype PollInput = PollInput(chunks: seq<string>, readOk: bool, look: Look)

  /** Where a look at the path leads: on in the same file, or from that file to the start of another
      life, the same file truncated or the file found on reopening. */
  datatype Turn = Stays(now: Epoch) | Moves(now: Epoch, next: Epoch)

  predicate Rotation(e: Epoch, k: Look) { k.stat.Found? && k.stat.file.identity != e.identity }

  predicate Truncation(e: Epoch, k: Look) {
    k.stat.Found? && k.stat.file.identity == e.identity && |k.stat.file.content| < |e.seen|
  }

  function ReadOn(e: Epoch, chunks: seq<string>): Epoch { e.(seen := e.seen + Join(chunks)) }

  function Looked(e: Epoch, k: Look): Turn {
    if Rotation(e, k) then
      Moves(ReadOn(e, k.rest), Epoch(if k.reopened.Some? then k.reopened.value.identity else e.identity, 0, ""))
    else if Truncation(e, k) then Moves(e, Epoch(e.identity, 0, ""))
    else Stays(e)
  }

  /** One turn of the loop: read to the end of file, then look. */
  function Turned(e: Epoch, p: PollInput): Turn {
    if p.readOk then Looked(ReadOn(e, p.chunks), p.look) else Stays(ReadOn(e, p.chunks))
  }

  /** The complete lines that reading from `e` on to `now` brings. */
  ghost function LinesIn(e: Epoch, now: Epoch): seq<TailEvent> {
    if e.start <= |e.seen| && Rest(e.seen, e.start) <= |now.seen| then Events(now.seen, Rest(e.seen, e.start)) else []
  }

  /** The look gets as far as the checkpoint for the next file. */
  predicate Resets(e: Epoch, k: Look) {
    (Truncation(e, k) && k.seekOk) || (Rotation(e, k) && k.restOk && k.reopened.Some?)
  }

  /** What can go wrong in a look, besides a line: the stat, the seek, the reading, the reopening or the
      checkpoint write. */
  predicate LookErrs(e: Epoch, k: Look) {
    k.stat.StatFails? || ((Truncation(e, k) || Rotation(e, k)) && (!Resets(e, k) || k.save != Saved))
  }

  ghost predicate LookFails(e: Epoch, k: Look, fate: TailEvent -> Fate) {
    Fails(fate, LinesIn(e, Looked(e, k).now)) || LookErrs(e, k)
  }

  ghost predicate PollFails(e: Epoch, p: PollInput, fate: TailEvent -> Fate) {
    Fails(fate, LinesIn(e, Turned(e, p).now)) || !p.readOk || LookErrs(ReadOn(e, p.chunks), p.look)
  }

  /** The checkpoint after the lines of a turn, and the one for the next file if it got that far. */
  ghost function Recorded(cp: Checkpoint, path: string, e: Epoch, t: Turn, reset: bool, fate: TailEvent -> Fate): Checkpoint {
    if reset && t.Moves? && !Fails(fate, LinesIn(e, t.now)) then Checkpoint(path, 0, t.next.identity)
    else CheckpointAfter(cp, path, e.identity, SavedLines(fate, LinesIn(e, t.now)))
  }

  predicate LookRecords(e: Epoch, k: Look) { Resets(e, k) && k.save != NotSaved }

  predicate PollRecords(e: Epoch, p: PollInput) { p.readOk && LookRecords(ReadOn(e, p.chunks), p.look) }

  /** A look, case by case: where it leads, whether it fails and whether it gets to a new checkpoint. */
  lemma LookCases(e: Epoch, k: Look)
    ensures match k.stat
            case NotThere => Looked(e, k) == Stays(e) && !LookErrs(e, k) && !LookRecords(e, k)
            case StatFails => Looked(e, k) == Stays(e) && LookErrs(e, k) && !LookRecords(e, k)
            case Found(file) =>
              if file.identity != e.identity then
                && Looked(e, k).Moves? && Looked(e, k).now == e.(seen := e.seen + Join(k.rest))
                && (k.reopened.Some? ==> Looked(e, k).next == Epoch(k.reopened.value.identity, 0, ""))
                && (LookErrs(e, k) <==> !k.restOk || k.reopened.None? || k.save != Saved)
                && (LookRecords(e, k) <==> k.restOk && k.reopened.Some? && k.save != NotSaved)
              else if |file.content| < |e.seen| then
                && Looked(e, k) == Moves(e, Epoch(e.identity, 0, ""))
                && (LookErrs(e, k) <==> !k.seekOk || k.save != Saved)
                && (LookRecords(e, k) <==> k.seekOk && k.save != NotSaved)
              else Looked(e, k) == Stays(e) && !LookErrs(e, k) && !LookRecords(e, k)
  {
  }

  /** A poll that fails, by what it met. */
  lemma PollCases(e: Epoch, p: PollInput, fate: TailEvent -> Fate)
    ensures PollFails(e, p, fate) <==>
              Fails(fate, LinesIn(e, Turned(e, p).now)) || !p.readOk || LookErrs(e.(seen := e.seen + Join(p.chunks)), p.look)
    ensures Turned(e, p) == if p.readOk then Looked(e.(seen := e.seen + Join(p.chunks)), p.look) else Stays(e.(seen := e.seen + Join(p.chunks)))
  {
  }

  /** The files left behind and the one being followed. */
  datatype Place = Place(past: seq<Epoch>, current: Epoch)

  function Arrived(w: Place, t: Turn): Place {
    match t
    case Stays(now) => Place(w.past, now)
    case Moves(now, next) => Place(w.past + [now], next)
  }

  /** Where the first `n` polls lead. */
  function PlaceAfter(w: Place, polls: seq<PollInput>, n: nat): Place
    requires n <= |polls|
  {
    if n == 0 then w else
    var v := PlaceAfter(w, polls, n - 1);
    Arrived(v, Turned(v.current, polls[n - 1]))
  }

  /** The checkpoint after the first `n` polls, of which only the last may fail. */
  ghost function RecordedAfter(path: string, cp: Checkpoint, w: Place, polls: seq<PollInput>, fate: TailEvent -> Fate, n: nat): Checkpoint
    requires n <= |polls|
  {
    if n == 0 then cp else
    var e, p := PlaceAfter(w, polls, n - 1).current, polls[n - 1];
    Recorded(RecordedAfter(path, cp, w, polls, fate, n - 1), path, e, Turned(e, p), PollRecords(e, p), fate)
  }

  /** The lines that poll `n` brings, and that the first `n` polls bring. */
  ghost function LinesAt(w: Place, polls: seq<PollInput>, n: nat): seq<TailEvent>
    requires n < |polls|
  {
    var e := PlaceAfter(w, polls, n).current;
    LinesIn(e, Turned(e, polls[n]).now)
  }

  ghost function LinesUpTo(w: Place, polls: seq<PollInput>, n: nat): seq<TailEvent>
    requires n <= |polls|
  {
    if n == 0 then [] else LinesUpTo(w, polls, n - 1) + LinesAt(w, polls, n - 1)
  }

  /** Nothing is left of a file read so far. */
  lemma NoNewLines(e: Epoch)
    requires e.start <= |e.seen|
    ensures LinesIn(e, e) == []
  {
    EventsAreTheLines(e.seen, e.start);
    assert Break(e.seen, Rest(e.seen, e.start)) == |e.seen|;
  }

  /** Reading in two stretches brings the lines of both. */
  lemma LinesInTwo(e: Epoch, mid: Epoch, now: Epoch)
    requires e.start == mid.start <= |e.seen| && e.seen <= mid.seen <= now.seen
    ensures LinesIn(e, now) == LinesIn(e, mid) + LinesIn(mid, now)
  {
    var o := Rest(e.seen, e.start);
    EventsAreTheLines(e.seen, e.start);
    ConsecutiveGrows(e.seen, mid.seen, e.start, Events(e.seen, e.start));
    ConsecutiveIsEvents(mid.seen, e.start, Events(e.seen, e.start));
    EventsGrow(mid.seen, now.seen, o);
  }

  /** A poll's lines are those of its reading and those of its look. */
  lemma TurnInTwo(e: Epoch, p: PollInput, fate: TailEvent -> Fate)
    requires e.start <= |e.seen|
    ensures var mid, t := ReadOn(e, p.chunks), Turned(e, p);
            var first, second := LinesIn(e, mid), LinesIn(mid, t.now);
            && LinesIn(e, t.now) == first + second
            && (Fails(fate, first) ==>
                  Fails(fate, first + second) && Called(fate, first + second) == Called(fate, first)
                  && SavedLines(fate, first + second) == SavedLines(fate, first))
            && (!Fails(fate, first) ==>
                  && first == Called(fate, first) == SavedLines(fate, first)
                  && Fails(fate, first + second) == Fails(fate, second)
                  && Called(fate, first + second) == first + Called(fate, second)
                  && SavedLines(fate, first + second) == first + SavedLines(fate, second))
  {
    var mid, t := ReadOn(e, p.chunks), Turned(e, p);
    var first, second := LinesIn(e, mid), LinesIn(mid, t.now);
    LinesInTwo(e, mid, t.now);
    if Fails(fate, first) {
      FailsEarly(fate, first, second);
    } else {
      NoFailure(fate, first);
      FineThenMore(fate, first, second);
    }
  }

  ghost predicate FailsAt(w: Place, polls: seq<PollInput>, fate: TailEvent -> Fate, n: nat)
    requires n < |polls|
  {
    PollFails(PlaceAfter(w, polls, n).current, polls[n], fate)
  }

  /** What the first `n` polls did, none of which failed. */
  ghost predicate Progress(w: Place, polls: seq<PollInput>, fate: TailEvent -> Fate, n: nat, v: Place, made: seq<TailEvent>) {
    && n <= |polls| && v == PlaceAfter(w, polls, n) && made == LinesUpTo(w, polls, n)
    && forall j {:trigger FailsAt(w, polls, fate, j)} :: 0 <= j < n ==> !FailsAt(w, polls, fate, j)
  }

  /** What a run over these polls comes to: it stops at the first poll that fails and not before; `made`
      are exactly the calls for the lines of the polls, in order, up to the one that fails; and after the
      last poll it follows the file that they lead to. */
  ghost predicate Ran(w: Place, polls: seq<PollInput>, fate: TailEvent -> Fate, failed: bool, done: nat, v: Place, made: seq<TailEvent>) {
    && done <= |polls| && (failed <==> done < |polls|)
    && (forall j {:trigger FailsAt(w, polls, fate, j)} :: 0 <= j < done ==> !FailsAt(w, polls, fate, j))
    && (failed ==> FailsAt(w, polls, fate, done))
    && made == LinesUpTo(w, polls, done) + (if failed then Called(fate, LinesAt(w, polls, done)) else [])
    && (!failed ==> v == PlaceAfter(w, polls, |polls|))
  }

  /** A read error, or a stat error other than a missing file, ends the run at that poll at the latest. */
  lemma ErrorEndsRun(w: Place, polls: seq<PollInput>, fate: TailEvent -> Fate, failed: bool, done: nat, v: Place, made: seq<TailEvent>, j: nat)
    requires Ran(w, polls, fate, failed, done, v, made) && j < |polls|
    requires !polls[j].readOk || polls[j].look.stat.StatFails?
    ensures failed && done <= j
  {
    var e := PlaceAfter(w, polls, j).current;
    PollCases(e, polls[j], fate);
    LookCases(e.(seen := e.seen + Join(polls[j].chunks)), polls[j].look);
    assert FailsAt(w, polls, fate, j);
  }

  lemma RanThrough(w: Place, polls: seq<PollInput>, fate: TailEvent -> Fate, v: Place, made: seq<TailEvent>)
    requires Progress(w, polls, fate, |polls|, v, made)
    ensures Ran(w, polls, fate, false, |polls|, v, made)
  {
    assert made + [] == made;
  }

  lemma RanInto(w: Place, polls: seq<PollInput>, fate: TailEvent -> Fate, n: nat, v: Place, made: seq<TailEvent>, v': Place)
    requires n < |polls| && Progress(w, polls, fate, n, v, made) && PollFails(v.current, polls[n], fate)
    ensures Ran(w, polls, fate, true, n, v', made + Called(fate, LinesIn(v.current, Turned(v.current, polls[n]).now)))
  {
  }

  lemma ProgressStep(w: Place, polls: seq<PollInput>, fate: TailEvent -> Fate, n: nat, v: Place, made: seq<TailEvent>)
    requires n < |polls| && Progress(w, polls, fate, n, v, made) && !PollFails(v.current, polls[n], fate)
    ensures var t := Turned(v.current, polls[n]);
            Progress(w, polls, fate, n + 1, Arrived(v, t), made + Called(fate, LinesIn(v.current, t.now)))
  {
    NoFailure(fate, LinesAt(w, polls, n));
  }

  class Tail {
    const path: string
    var identity: FileIdentity
    var readOffset: nat
    var committedOffset: nat
    var pending: string
    var checkpoint: Checkpoint        // the checkpoint file
    ghost const loaded: Checkpoint     // as this process found it
    ghost var calls: seq<TailEvent>    // every call of the callback so far
    ghost var current: Epoch           // the file being followed
    ghost var emitted: seq<TailEvent>  // the calls for it
    ghost var past: seq<Epoch>         // files, or lives of a file, left behind

    /** Offsets and pending bytes agree with the bytes read so far. */
    ghost predicate Offsets()
      reads this
    {
      && current.start <= committedOffset <= readOffset == |current.seen|
      && IsSlice(current.seen, committedOffset, readOffset, pending)
      && current.identity == identity
    }

    /** The callback was called with every complete line of the files left behind, file by file, and
        then with the lines of the current one from its start to the committed offset. */
    ghost predicate Valid()
      reads this
    {
      && Offsets()
      && Consecutive(current.seen, current.start, emitted)
      && committedOffset == EndOf(emitted, current.start)
      && calls == Replay(past) + emitted
    }

    /** Every file, or life of a file, followed so far. */
    ghost function Followed(): seq<Epoch>
      reads this
    {
      past + [current]
    }

    /** The checkpoint file is as it was found, or stands at a line boundary of a file followed. */
    ghost predicate Anchored()
      reads this
    {
      checkpoint == loaded || StandsInOne(checkpoint, path, Followed())
    }

    /** Between calls nothing complete is left pending. */
    ghost predicate Drained()
      reads this
    {
      Valid() && '\n' !in pending
    }

    constructor Open(path: string, cp: Checkpoint, file: FileView)
      ensures this.path == path && checkpoint == cp && loaded == cp && identity == file.identity
      ensures committedOffset == readOffset == StartOffset(cp, path, file) && pending == ""
      ensures cp.filePath != path || cp.identity != file.identity ==> committedOffset == 0
      ensures cp.offset < 0 || cp.offset > |file.content| ==> committedOffset == 0
      ensures cp.filePath == path && cp.identity == file.identity && 0 <= cp.offset <= |file.content| ==> committedOffset == cp.offset
      ensures emitted == [] && past == [] && current == Epoch(file.identity, committedOffset, file.content[..committedOffset])
      ensures calls == [] && Drained() && Anchored()
    {
      var startOffset := 0;
      if cp.filePath == path && 0 <= cp.offset <= |file.content| {
        if cp.identity == file.identity {
          startOffset := cp.offset;
        }
      }
      this.path, checkpoint, loaded, identity := path, cp, cp, file.identity;
      readOffset, committedOffset, pending := startOffset, startOffset, "";
      calls, emitted, past := [], [], [];
      current := Epoch(file.identity, startOffset, file.content[..startOffset]);
    }

    /** Takes the first line off the pending bytes and calls the callback with it. */
    method NextLine(idx: nat) returns (event: TailEvent)
      requires Valid() && idx == IndexOf(pending, '\n') < |pending|
      modifies this`pending, this`committedOffset, this`emitted, this`calls
      ensures Valid() && emitted == old(emitted) + [event] && event.committed == committedOffset
      ensures calls == old(calls) + [event]
      ensures |pending| < |old(pending)|
    {
      OneMoreLine(current, emitted, pending, idx);
      var line := TrimCR(pending[..idx]);
      event := TailEvent(line, committedOffset + idx + 1);
      AppendAssoc(Replay(past), emitted, [event]);
      pending := pending[idx + 1..];
      committedOffset := committedOffset + idx + 1;
      emitted := emitted + [event];
      calls := calls + [event];
    }

    /** One turn of the inner loop of readAvailable: the next line and, if its callback went well, the
        checkpoint. */
    method EmitLine(idx: nat, fate: TailEvent -> Fate) returns (ok: bool, event: TailEvent)
      requires Valid() && idx == IndexOf(pending, '\n') < |pending|
      modifies this`pending, this`committedOffset, this`emitted, this`calls, this`checkpoint
      ensures Valid() && emitted == old(emitted) + [event] && calls == old(calls) + [event] && |pending| < |old(pending)|
      ensures ok <==> fate(event) == Fine
      ensures checkpoint == if ok || fate(event) == SyncFails then Checkpoint(path, event.committed, identity) else old(checkpoint)
    {
      event := NextLine(idx);
      if fate(event) == CallbackFails || fate(event) == SaveFails {
        return false, event;
      }
      checkpoint := Checkpoint(path, committedOffset, identity);
      ok := fate(event) != SyncFails;
    }

    /** The inner loop after these calls, which went well. */
    ghost predicate Emitting(before: seq<TailEvent>, called: seq<TailEvent>, cp: Checkpoint, fate: TailEvent -> Fate, made: seq<TailEvent>)
      reads this
    {
      && Valid() && emitted == before + made && calls == called + made && AllFine(fate, made)
      && checkpoint == CheckpointAfter(cp, path, identity, made)
    }

    /** One turn of it. */
    method EmitNext(idx: nat, fate: TailEvent -> Fate, ghost before: seq<TailEvent>, ghost called: seq<TailEvent>, ghost cp: Checkpoint,
                    ghost made: seq<TailEvent>) returns (ok: bool, ghost now: seq<TailEvent>)
      requires Emitting(before, called, cp, fate, made) && idx == IndexOf(pending, '\n') < |pending|
      modifies this`pending, this`committedOffset, this`emitted, this`calls, this`checkpoint
      ensures |pending| < |old(pending)|
      ensures ok ==> Emitting(before, called, cp, fate, now)
      ensures !ok ==> Valid() && Went(fate, true, before, now, emitted) && calls == called + now
                      && checkpoint == CheckpointAfter(cp, path, identity, SavedLines(fate, now))
    {
      ghost var event;
      ok, event := EmitLine(idx, fate);
      now := made + [event];
      AppendAssoc(before, made, [event]);
      AppendAssoc(called, made, [event]);
      if !ok {
        WentOneMore(fate, before, made, event);
      }
    }

    /** The inner loop: line after line, up to the first that fails. */
    method EmitPending(fate: TailEvent -> Fate) returns (failed: bool, ghost made: seq<TailEvent>)
      requires Valid()
      modifies this`pending, this`committedOffset, this`emitted, this`calls, this`checkpoint
      ensures Valid() && checkpoint == CheckpointAfter(old(checkpoint), path, identity, SavedLines(fate, made))
      ensures Went(fate, failed, old(emitted), made, emitted) && calls == old(calls) + made
      ensures !failed ==> '\n' !in pending
    {
      failed, made := false, [];
      ghost var before, called, cp := emitted, calls, checkpoint;
      var idx := IndexOf(pending, '\n');
      while idx < |pending|
        invariant Emitting(before, called, cp, fate, made) && idx == IndexOf(pending, '\n')
        decreases |pending|
      {
        var ok;
        ok, made := EmitNext(idx, fate, before, called, cp, made);
        if !ok {
          return true, made;
        }
        idx := IndexOf(pending, '\n');
      }
      WentWell(fate, before, made, emitted);
    }

    /** One read: the new bytes join the pending ones, and their complete lines go out. */
    method ReadChunk(chunk: string, fate: TailEvent -> Fate) returns (failed: bool, ghost made: seq<TailEvent>)
      requires Valid()
      modifies this`readOffset, this`current, this`pending, this`committedOffset, this`emitted, this`calls, this`checkpoint
      ensures current == old(current).(seen := old(current.seen) + chunk)
      ensures Valid() && checkpoint == CheckpointAfter(old(checkpoint), path, identity, SavedLines(fate, made))
      ensures Went(fate, failed, old(emitted), made, emitted) && calls == old(calls) + made
      ensures !failed ==> '\n' !in pending
    {
      ConsecutiveGrows(current.seen, current.seen + chunk, current.start, emitted);
      SliceGrows(current.seen, committedOffset, pending, chunk);
      readOffset := readOffset + |chunk|;
      pending := pending + chunk;
      current := current.(seen := current.seen + chunk);
      failed, made := EmitPending(fate);
    }

    /** The outer loop over the reads. */
    method ReadChunks(chunks: seq<string>, fate: TailEvent -> Fate) returns (failed: bool, ghost made: seq<TailEvent>)
      requires Drained()
      modifies this`readOffset, this`current, this`pending, this`committedOffset, this`emitted, this`calls, this`checkpoint
      ensures Valid() && checkpoint == CheckpointAfter(old(checkpoint), path, identity, SavedLines(fate, made))
      ensures Went(fate, failed, old(emitted), made, emitted) && calls == old(calls) + made
      ensures !failed ==> '\n' !in pending
      ensures current.start == old(current.start) && current.identity == old(current.identity)
      ensures old(current.seen) <= current.seen <= old(current.seen) + Join(chunks)
      ensures !failed ==> current.seen == old(current.seen) + Join(chunks)
    {
      failed, made := false, [];
      var i := 0;
      while i < |chunks|
        invariant 0 <= i <= |chunks| && Valid() && '\n' !in pending
        invariant emitted == old(emitted) + made && calls == old(calls) + made && AllFine(fate, made)
        invariant current == old(current).(seen := old(current.seen) + Join(chunks[..i]))
        invariant checkpoint == CheckpointAfter(old(checkpoint), path, identity, made)
      {
        ghost var more;
        failed, more := ReadChunk(chunks[i], fate);
        SavedMore(old(checkpoint), path, identity, made, SavedLines(fate, more));
        WentFurther(fate, failed, old(emitted), made, more, emitted);
        AppendAssoc(old(calls), made, more);
        JoinSnoc(old(current.seen), chunks, i);
        made := made + more;
        if failed {
          JoinGrows(old(current.seen), chunks, i + 1);
          return;
        }
        FineLines(fate, made);
        i := i + 1;
      }
      assert chunks[..i] == chunks;
      WentWell(fate, old(emitted), made, emitted);
    }

    /** readAvailable up to end of file or a read error, for every way the new bytes may arrive in chunks:
        the calls, the offsets, the pending rest and the checkpoint depend only on the bytes.  It fails
        exactly if reading does or the callback or the checkpoint write of one of their lines; a
        checkpoint is saved after each line, and covers the failing one only if it was renamed. */
    method ReadAvailable(chunks: seq<string>, readOk: bool, fate: TailEvent -> Fate) returns (failed: bool)
      requires Drained()
      modifies this`readOffset, this`current, this`pending, this`committedOffset, this`emitted, this`calls, this`checkpoint
      ensures Valid()
      ensures old(committedOffset) == Rest(old(current.seen), old(current.start)) <= |old(current.seen)|
      ensures var lines := Events(old(current.seen) + Join(chunks), old(committedOffset));
              && failed == (Fails(fate, lines) || !readOk)
              && calls == old(calls) + Called(fate, lines)
              && checkpoint == CheckpointAfter(old(checkpoint), path, identity, SavedLines(fate, lines))
              && (SavedLines(fate, lines) != [] ==> checkpoint.offset > 0 && StandsIn(checkpoint, path, current))
      ensures current.start == old(current.start) && current.identity == old(current.identity)
      ensures old(current.seen) <= current.seen <= old(current.seen) + Join(chunks)
      ensures !failed ==>
        && Drained() && current == old(current).(seen := old(current.seen) + Join(chunks))
        && emitted == current.Events() && committedOffset == Rest(current.seen, current.start)
    {
      DrainedLines(current, emitted, committedOffset, pending);
      ghost var made;
      failed, made := ReadChunks(chunks, fate);
      if !failed {
        DrainedLines(current, emitted, committedOffset, pending);
      }
      ReadOutcome(fate, failed, current, old(current.seen) + Join(chunks), old(emitted), made, emitted);
      failed := failed || !readOk;
    }

    /** Leaves the current file, whose lines are all emitted, for a file read from offset 0. */
    method StartOver(identity: FileIdentity, save: SaveResult) returns (failed: bool)
      requires Drained()
      modifies this`identity, this`readOffset, this`committedOffset, this`pending, this`checkpoint, this`current, this`emitted, this`past
      ensures Drained() && past == old(past) + [old(current)]
      ensures current == Epoch(identity, 0, "") && emitted == []
      ensures readOffset == committedOffset == 0
      ensures failed <==> save != Saved
      ensures checkpoint == if save == NotSaved then old(checkpoint) else Checkpoint(path, 0, identity)
    {
      LeavesFile(past, current, emitted, committedOffset, pending, calls);
      past, current, emitted := past + [current], Epoch(identity, 0, ""), [];
      this.identity := identity;
      readOffset, committedOffset, pending := 0, 0, "";
      if save != NotSaved {
        checkpoint := Checkpoint(path, 0, identity);
      }
      failed := save != Saved;
    }

    /** What every call leaves behind, also a failing one: the calls so far continued, the same files
        followed further, and a checkpoint that is the old one or stands in one of them. */
    twostate predicate Continues()
      reads this
    {
      && old(calls) <= calls
      && Extends(old(Followed()), Followed())
      && (checkpoint == old(checkpoint) || StandsInOne(checkpoint, path, Followed()))
    }

    /** readAvailable again, in terms of the files followed. */
    method ReadEpoch(chunks: seq<string>, readOk: bool, fate: TailEvent -> Fate) returns (failed: bool)
      requires Drained()
      modifies this
      ensures Valid() && Continues() && old(current).start <= |old(current).seen|
      ensures var lines := LinesIn(old(current), ReadOn(old(current), chunks));
              && failed == (Fails(fate, lines) || !readOk)
              && calls == old(calls) + Called(fate, lines)
              && checkpoint == CheckpointAfter(old(checkpoint), path, old(identity), SavedLines(fate, lines))
      ensures !failed ==> Drained() && past == old(past) && current == ReadOn(old(current), chunks) && identity == old(identity)
    {
      failed := ReadAvailable(chunks, readOk, fate);
      ExtendsOne(past, old(current), current, current);
      assert Followed()[|past|] == current;
    }

    /** Moves on to another life, and says so in a checkpoint. */
    method MoveOn(next: FileIdentity, save: SaveResult) returns (failed: bool)
      requires Drained()
      modifies this
      ensures Drained() && Continues() && calls == old(calls)
      ensures past == old(past) + [old(current)] && current == Epoch(next, 0, "")
      ensures failed <==> save != Saved
      ensures checkpoint == if save == NotSaved then old(checkpoint) else Checkpoint(path, 0, next)
    {
      ExtendsOne(past, current, current, Epoch(next, 0, ""));
      ghost var n := |past|;
      failed := StartOver(next, save);
      assert Followed()[n + 1] == current;
    }

    /** What a turn leaves behind: the calls for its lines, this checkpoint, and, if it went well, the file
        it leads to. */
    twostate predicate Leaves(t: Turn, cp: Checkpoint, fate: TailEvent -> Fate, failed: bool)
      reads this
    {
      && Valid() && Continues() && checkpoint == cp
      && calls == old(calls) + Called(fate, LinesIn(old(current), t.now))
      && (!failed ==> Drained() && Place(past, current) == Arrived(Place(old(past), old(current)), t))
    }

    /** The rotation branch: the old file is read to its end, then the path is opened again. */
    method Rotate(k: Look, fate: TailEvent -> Fate) returns (failed: bool)
      requires Drained() && Rotation(current, k)
      modifies this
      ensures failed == LookFails(old(current), k, fate)
      ensures Leaves(Looked(old(current), k),
                     Recorded(old(checkpoint), path, old(current), Looked(old(current), k), LookRecords(old(current), k), fate), fate, failed)
    {
      failed := ReadEpoch(k.rest, k.restOk, fate);
      if failed {
        return;
      }
      if k.reopened.None? {
        return true;
      }
      label read:
      failed := MoveOn(k.reopened.value.identity, k.save);
      StretchTwice(path, old(Followed()), old(checkpoint), old@read(Followed()), old@read(checkpoint), Followed(), checkpoint);
    }

    /** handleFileChanges: what it comes to, and exactly when it fails.  A file at the path that is shorter
        than what was read restarts the same file; another file there has the complete lines left in the
        old one handed over first and is then followed from its start. */
    method HandleFileChanges(k: Look, fate: TailEvent -> Fate) returns (failed: bool)
      requires Drained()
      modifies this
      ensures failed == LookFails(old(current), k, fate)
      ensures Leaves(Looked(old(current), k),
                     Recorded(old(checkpoint), path, old(current), Looked(old(current), k), LookRecords(old(current), k), fate), fate, failed)
    {
      NoNewLines(current);
      if k.stat.NotThere? {
        return false;
      }
      if k.stat.StatFails? {
        return true;
      }
      if k.stat.file.identity == identity {
        if |k.stat.file.content| < readOffset {
          if !k.seekOk {
            return true;
          }
          failed := MoveOn(identity, k.save);
          return;
        }
        return false;
      }
      failed := Rotate(k, fate);
    }

    /** One turn of the loop in Run. */
    method Poll(p: PollInput, fate: TailEvent -> Fate) returns (failed: bool)
      requires Drained()
      modifies this
      ensures failed == PollFails(old(current), p, fate)
      ensures Leaves(Turned(old(current), p),
                     Recorded(old(checkpoint), path, old(current), Turned(old(current), p), PollRecords(old(current), p), fate), fate, failed)
      ensures old(Anchored()) ==> Anchored()
    {
      failed := ReadEpoch(p.chunks, p.readOk, fate);
      TurnInTwo(old(current), p, fate);
      if failed {
        StaysAnchored(path, loaded, old(Followed()), old(checkpoint), Followed(), checkpoint);
        return;
      }
      label read:
      failed := HandleFileChanges(p.look, fate);
      StretchTwice(path, old(Followed()), old(checkpoint), old@read(Followed()), old@read(checkpoint), Followed(), checkpoint);
      ghost var mid, t := old@read(current), Turned(old(current), p);
      SavedMore(old(checkpoint), path, old(identity), LinesIn(old(current), mid), SavedLines(fate, LinesIn(mid, t.now)));
      AppendAssoc(old(calls), LinesIn(old(current), mid), Called(fate, LinesIn(mid, t.now)));
      StaysAnchored(path, loaded, old(Followed()), old(checkpoint), Followed(), checkpoint);
    }

    /** One more poll of a run. */
    method PollNext(ghost w: Place, ghost cp: Checkpoint, polls: seq<PollInput>, n: nat, fate: TailEvent -> Fate, ghost made: seq<TailEvent>)
        returns (failed: bool, ghost more: seq<TailEvent>)
      requires Drained() && Anchored() && n < |polls| && Progress(w, polls, fate, n, Place(past, current), made)
      requires checkpoint == RecordedAfter(path, cp, w, polls, fate, n)
      modifies this
      ensures checkpoint == RecordedAfter(path, cp, w, polls, fate, n + 1)
      ensures Valid() && Anchored() && Continues() && calls == old(calls) + more
      ensures failed ==> Ran(w, polls, fate, true, n, Place(past, current), made + more)
      ensures !failed ==> Drained() && Progress(w, polls, fate, n + 1, Place(past, current), made + more)
    {
      ghost var v := Place(past, current);
      more := Called(fate, LinesIn(current, Turned(current, polls[n]).now));
      failed := Poll(polls[n], fate);
      if failed {
        RanInto(w, polls, fate, n, v, made, Place(past, current));
      } else {
        ProgressStep(w, polls, fate, n, v, made);
      }
    }

    /** What was called, followed and saved since the loop began. */
    ghost predicate Since(w: Place, cp: Checkpoint, before: seq<TailEvent>, made: seq<TailEvent>)
      reads this
    {
      && calls == before + made
      && Extends(w.past + [w.current], Followed())
      && (checkpoint == cp || StandsInOne(checkpoint, path, Followed()))
    }

    /** The loop after `n` polls, none of which failed. */
    ghost predicate Underway(w: Place, cp: Checkpoint, before: seq<TailEvent>, polls: seq<PollInput>, fate: TailEvent -> Fate,
                             n: nat, made: seq<TailEvent>)
      reads this
    {
      && Drained() && Anchored() && Since(w, cp, before, made)
      && Progress(w, polls, fate, n, Place(past, current), made)
      && checkpoint == RecordedAfter(path, cp, w, polls, fate, n)
    }

    /** One turn of the loop. */
    method PollMore(ghost w: Place, ghost cp: Checkpoint, ghost before: seq<TailEvent>, polls: seq<PollInput>, n: nat,
                    fate: TailEvent -> Fate, ghost made: seq<TailEvent>) returns (failed: bool, ghost now: seq<TailEvent>)
      requires n < |polls| && Underway(w, cp, before, polls, fate, n, made)
      modifies this
      ensures Valid() && Anchored() && Since(w, cp, before, now)
      ensures checkpoint == RecordedAfter(path, cp, w, polls, fate, n + 1)
      ensures failed ==> Ran(w, polls, fate, true, n, Place(past, current), now)
      ensures !failed ==> Underway(w, cp, before, polls, fate, n + 1, now)
    {
      ghost var more;
      failed, more := PollNext(w, cp, polls, n, fate, made);
      now := made + more;
      AppendAssoc(before, made, more);
      StretchTwice(path, w.past + [w.current], cp, old(Followed()), old(checkpoint), Followed(), checkpoint);
    }

    method RunLoop(ghost w: Place, ghost cp: Checkpoint, ghost before: seq<TailEvent>, polls: seq<PollInput>, fate: TailEvent -> Fate)
        returns (failed: bool, done: nat, ghost made: seq<TailEvent>)
      requires Underway(w, cp, before, polls, fate, 0, [])
      modifies this
      ensures Valid() && Anchored() && Since(w, cp, before, made)
      ensures failed ==> done < |polls| && checkpoint == RecordedAfter(path, cp, w, polls, fate, done + 1)
                         && Ran(w, polls, fate, true, done, Place(past, current), made)
      ensures !failed ==> done == |polls| && Underway(w, cp, before, polls, fate, |polls|, made)
    {
      failed, done, made := false, 0, [];
      while done < |polls|
        invariant 0 <= done <= |polls| && Underway(w, cp, before, polls, fate, done, made)
      {
        failed, made := PollMore(w, cp, before, polls, done, fate, made);
        if failed {
          return;
        }
        done := done + 1;
      }
    }

    /** Run's loop, poll by poll until an error or the last poll: it stops exactly where `Ran` says, with
        exactly the calls it says, and leaves the checkpoint that those polls come to, which stands at a
        line boundary of a file followed. */
    method Run(polls: seq<PollInput>, fate: TailEvent -> Fate) returns (failed: bool, done: nat, ghost made: seq<TailEvent>)
      requires Drained() && Anchored()
      modifies this
      ensures Valid() && Anchored() && Continues()
      ensures Ran(Place(old(past), old(current)), polls, fate, failed, done, Place(past, current), made)
      ensures calls == old(calls) + made
      ensures checkpoint == RecordedAfter(path, old(checkpoint), Place(old(past), old(current)), polls, fate, if failed then done + 1 else done)
      ensures !failed ==> calls == Replay(past) + current.Events()
    {
      failed, done, made := RunLoop(Place(past, current), checkpoint, calls, polls, fate);
      if !failed {
        RanThrough(Place(old(past), old(current)), polls, fate, Place(past, current), made);
        DrainedLines(current, emitted, committedOffset, pending);
      }
    }
  }
}
