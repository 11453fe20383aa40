/** Splitting a growing file into lines, as the log forwarder sees it
    (cmd/log-forwarder/follower.go). */
module Lines {
  import opened Strings

  /** A line handed to the callback, with the offset just past its newline. */
  datatype TailEvent = TailEvent(line: string, committed: nat)

  function TrimCR(line: string): string {
    if line != "" && line[|line| - 1] == '\r' then line[..|line| - 1] else line
  }

  /** `p` is what `b` holds from `o` to `r`. */
  predicate IsSlice(b: string, o: nat, r: nat, p: string) {
    o + |p| == r <= |b| && forall k :: 0 <= k < |p| ==> p[k] == b[o + k]
  }

  /** No newline at or after `o`. */
  predicate NoBreak(b: string, o: nat) { forall k :: o <= k < |b| ==> b[k] != '\n' }

  /** `line` is what `b` holds from `o` to `n`, without a carriage return at its end. */
  predicate IsText(b: string, o: nat, n: nat, line: string) {
    o <= n <= |b| && IsSlice(b, o, if o < n && b[n - 1] == '\r' then n - 1 else n, line)
  }

  /** `e` is the line that starts at offset `o` of `b`. */
  predicate LineAt(b: string, o: nat, e: TailEvent) {
    && o < e.committed <= |b|
    && b[e.committed - 1] == '\n'
    && (forall k :: o <= k < e.committed - 1 ==> b[k] != '\n')
    && IsText(b, o, e.committed - 1, e.line)
  }

  lemma TextIsTrimmed(b: string, o: nat, n: nat, raw: string)
    requires IsSlice(b, o, n, raw)
    ensures IsText(b, o, n, TrimCR(raw))
  {
    if raw != "" {
      assert raw[|raw| - 1] == b[n - 1];
    }
  }

  /** `n` is the first newline of `b` at or after `o`, or |b| if there is none. */
  predicate IsBreak(b: string, o: nat, n: nat) {
    && o <= n <= |b|
    && (forall k :: o <= k < n ==> b[k] != '\n')
    && (n < |b| ==> b[n] == '\n')
  }

  lemma BreakExists(b: string, o: nat)
    requires o <= |b|
    ensures exists n :: IsBreak(b, o, n)
  {
    var n := o;
    while n < |b| && b[n] != '\n'
      invariant o <= n <= |b| && forall k :: o <= k < n ==> b[k] != '\n'
    {
      n := n + 1;
    }
    assert IsBreak(b, o, n);
  }

  ghost function Break(b: string, o: nat): (n: nat)
    requires o <= |b|
    ensures IsBreak(b, o, n)
  {
    BreakExists(b, o);
    var n :| IsBreak(b, o, n);
    n
  }

  /** The complete lines of `b` from offset `o` on. */
  ghost function Events(b: string, o: nat): seq<TailEvent>
    requires o <= |b|
    decreases |b| - o
  {
    var n := Break(b, o);
    if n == |b| then [] else [FirstEvent(b, o)] + Events(b, n + 1)
  }

  lemma LineExists(b: string, o: nat)
    requires o <= |b| && Break(b, o) < |b|
    ensures exists e :: LineAt(b, o, e)
  {
    var n := Break(b, o);
    var raw := b[o..n];
    assert IsSlice(b, o, n, raw);
    TextIsTrimmed(b, o, n, raw);
    assert LineAt(b, o, TailEvent(TrimCR(raw), n + 1));
  }

  ghost function FirstEvent(b: string, o: nat): (e: TailEvent)
    requires o <= |b| && Break(b, o) < |b|
    ensures LineAt(b, o, e) && e.committed == Break(b, o) + 1
  {
    LineExists(b, o);
    var e :| LineAt(b, o, e);
    assert e.committed == Break(b, o) + 1;
    e
  }

  /** The offset after the last of those lines. */
  ghost function Rest(b: string, o: nat): (r: nat)
    requires o <= |b|
    ensures o <= r <= |b|
    decreases |b| - o
  {
    var n := Break(b, o);
    if n == |b| then o else Rest(b, n + 1)
  }

  /** One line starts at each offset, so reading it again gives the same text and the same offset. */
  lemma LineAtUnique(b: string, o: nat, e: TailEvent, e': TailEvent)
    requires LineAt(b, o, e) && LineAt(b, o, e')
    ensures e == e'
  {
    assert b[e.committed - 1] == '\n' == b[e'.committed - 1];
    assert e.line == e'.line;
  }

  /** Lines already complete stay as they are when the file grows. */
  lemma LineAtGrows(b: string, w: string, o: nat, e: TailEvent)
    requires LineAt(b, o, e) && b <= w
    ensures LineAt(w, o, e)
  {
    assert forall k :: 0 <= k < |b| ==> w[k] == b[k];
  }

  // ----- An independent description -----

  /** Offset 0 or just past a newline. */
  predicate Boundary(b: string, o: int) { o == 0 || (0 < o <= |b| && b[o - 1] == '\n') }

  function EndOf(es: seq<TailEvent>, o: nat): nat { if es == [] then o else es[|es| - 1].committed }

  /** Where line `k` of `es` starts: where the line before it ended. */
  function StartOf(es: seq<TailEvent>, o: nat, k: nat): nat
    requires k <= |es|
  {
    if k == 0 then o else es[k - 1].committed
  }

  predicate LineOf(b: string, o: nat, es: seq<TailEvent>, k: nat)
    requires k < |es|
  {
    LineAt(b, StartOf(es, o, k), es[k])
  }

  /** `es` are lines of `b`, each starting where the previous one ended, the first at `o`. */
  predicate Consecutive(b: string, o: nat, es: seq<TailEvent>) {
    forall k {:trigger LineOf(b, o, es, k)} :: 0 <= k < |es| ==> LineOf(b, o, es, k)
  }

  lemma ConsecutiveSnoc(b: string, o: nat, es: seq<TailEvent>, e: TailEvent)
    requires Consecutive(b, o, es) && LineAt(b, EndOf(es, o), e)
    ensures Consecutive(b, o, es + [e])
  {
    forall k | 0 <= k < |es + [e]| ensures LineOf(b, o, es + [e], k) {
      if k < |es| {
        assert LineOf(b, o, es, k);
      }
    }
  }

  /** Emitting a line leaves the lines after it. */
  lemma LineIsFirst(b: string, o: nat, e: TailEvent)
    requires o <= |b| && LineAt(b, o, e)
    ensures Events(b, o) == [e] + Events(b, e.committed)
    ensures Rest(b, o) == Rest(b, e.committed)
  {
    assert Break(b, o) == e.committed - 1;
    LineAtUnique(b, o, e, FirstEvent(b, o));
  }

  lemma ConsecutiveFirst(b: string, o: nat, es: seq<TailEvent>, n: nat)
    requires Consecutive(b, o, es) && n <= |es|
    ensures Consecutive(b, o, es[..n])
  {
    forall k | 0 <= k < n ensures LineOf(b, o, es[..n], k) {
      assert LineOf(b, o, es, k);
    }
  }

  lemma ConsecutiveTail(b: string, o: nat, es: seq<TailEvent>)
    requires Consecutive(b, o, es) && es != []
    ensures LineAt(b, o, es[0]) && Consecutive(b, es[0].committed, es[1..])
    ensures EndOf(es[1..], es[0].committed) == EndOf(es, o)
  {
    assert LineOf(b, o, es, 0);
    forall k | 0 <= k < |es[1..]| ensures LineOf(b, es[0].committed, es[1..], k) {
      assert LineOf(b, o, es, k + 1);
    }
  }

  /** Consecutive lines are what Events lists, up to where they end. */
  lemma {:induction false} ConsecutiveIsEvents(b: string, o: nat, es: seq<TailEvent>)
    requires o <= |b| && Consecutive(b, o, es)
    ensures o <= EndOf(es, o) <= |b|
    ensures Events(b, o) == es + Events(b, EndOf(es, o))
    ensures Rest(b, o) == Rest(b, EndOf(es, o))
    decreases |es|
  {
    if es != [] {
      ConsecutiveTail(b, o, es);
      ConsecutiveIsEvents(b, es[0].committed, es[1..]);
      LineIsFirst(b, o, es[0]);
      ConsAppend(es, Events(b, EndOf(es, o)));
    }
  }

  lemma ConsAppend(es: seq<TailEvent>, more: seq<TailEvent>)
    requires es != []
    ensures [es[0]] + (es[1..] + more) == es + more
  {
  }

  lemma AppendAssoc(a: seq<TailEvent>, b: seq<TailEvent>, c: seq<TailEvent>)
    ensures a + b + c == a + (b + c)
  {
  }

  lemma ConsecutiveCons(b: string, o: nat, e: TailEvent, es: seq<TailEvent>)
    requires LineAt(b, o, e) && Consecutive(b, e.committed, es)
    ensures Consecutive(b, o, [e] + es) && EndOf([e] + es, o) == EndOf(es, e.committed)
  {
    forall k | 0 <= k < |[e] + es| ensures LineOf(b, o, [e] + es, k) {
      if k > 0 {
        assert LineOf(b, e.committed, es, k - 1);
      }
    }
  }

  /** Events is exactly the newline split of the bytes from `o` on: consecutive lines, after which no
      newline is left. */
  lemma {:induction false} EventsAreTheLines(b: string, o: nat)
    requires o <= |b|
    ensures Consecutive(b, o, Events(b, o)) && EndOf(Events(b, o), o) == Rest(b, o)
    ensures forall k :: Rest(b, o) <= k < |b| ==> b[k] != '\n'
    decreases |b| - o
  {
    if Break(b, o) < |b| {
      var o', e := Break(b, o) + 1, FirstEvent(b, o);
      EventsAreTheLines(b, o');
      assert Events(b, o) == [e] + Events(b, o') && Rest(b, o) == Rest(b, o');
      ConsecutiveCons(b, o, e, Events(b, o'));
    }
  }

  lemma ConsecutiveGrows(b: string, w: string, o: nat, es: seq<TailEvent>)
    requires Consecutive(b, o, es) && b <= w
    ensures Consecutive(w, o, es)
  {
    forall k | 0 <= k < |es| ensures LineOf(w, o, es, k) {
      assert LineOf(b, o, es, k);
      LineAtGrows(b, w, StartOf(es, o, k), es[k]);
    }
  }

  lemma EndsAtBoundary(b: string, o: nat, es: seq<TailEvent>, i: nat)
    requires Consecutive(b, o, es) && i < |es|
    ensures es[i].committed > 0 && Boundary(b, es[i].committed)
  {
    assert LineOf(b, o, es, i);
  }

  /** Reading in two pieces emits what reading at once would: the second piece continues where the
      complete lines of the first ended. */
  lemma EventsGrow(b: string, w: string, o: nat)
    requires o <= |b| && b <= w
    ensures Events(w, o) == Events(b, o) + Events(w, Rest(b, o))
  {
    EventsAreTheLines(b, o);
    ConsecutiveGrows(b, w, o, Events(b, o));
    ConsecutiveIsEvents(w, o, Events(b, o));
  }

  /** Consecutive lines after which no newline is left are all the lines. */
  lemma AllLines(b: string, o: nat, es: seq<TailEvent>)
    requires o <= |b| && Consecutive(b, o, es)
    requires NoBreak(b, EndOf(es, o))
    ensures Events(b, o) == es && Rest(b, o) == EndOf(es, o)
  {
    var end := EndOf(es, o);
    ConsecutiveIsEvents(b, o, es);
    assert Break(b, end) == |b|;
    assert Events(b, end) == [];
  }

  // ----- Bytes read and not yet emitted -----

  lemma SliceNoBreak(b: string, o: nat, p: string)
    requires IsSlice(b, o, |b|, p) && '\n' !in p
    ensures NoBreak(b, o)
  {
    SliceLacks(b, o, |b|, p);
  }

  lemma SliceGrows(b: string, o: nat, p: string, more: string)
    requires IsSlice(b, o, |b|, p)
    ensures IsSlice(b + more, o, |b + more|, p + more)
  {
  }

  /** The first newline of the bytes between `o` and `r` ends the line at `o`. */
  lemma TakeLine(b: string, o: nat, r: nat, p: string, idx: nat)
    requires IsSlice(b, o, r, p) && idx == IndexOf(p, '\n') < |p|
    ensures LineAt(b, o, TailEvent(TrimCR(p[..idx]), o + idx + 1))
    ensures IsSlice(b, o + idx + 1, r, p[idx + 1..])
  {
    SliceParts(b, o, r, p, idx);
    TextIsTrimmed(b, o, o + idx, p[..idx]);
    SliceLacks(b, o, o + idx, p[..idx]);
    assert b[o + idx] == p[idx];
  }

  lemma SliceLacks(b: string, o: nat, r: nat, p: string)
    requires IsSlice(b, o, r, p) && '\n' !in p
    ensures forall k :: o <= k < r ==> b[k] != '\n'
  {
    assert forall k :: o <= k < r ==> b[k] == p[k - o];
  }

  lemma SliceParts(b: string, o: nat, r: nat, p: string, idx: nat)
    requires IsSlice(b, o, r, p) && idx < |p|
    ensures IsSlice(b, o, o + idx, p[..idx]) && IsSlice(b, o + idx + 1, r, p[idx + 1..])
  {
  }
}
