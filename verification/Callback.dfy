/** The per-line callback of the log forwarder with its metrics (cmd/log-forwarder/main.go, metrics.go)
    and the idempotency key (cmd/log-forwarder/delivery.go). */
module Callback {
  import opened Strings
  import opened Chain
  import opened Lines
  import opened Delivery

  // ----- The idempotency key -----

  function KeyPreimage(app: string, sourceFile: string, offset: nat, rawLine: string): string {
    app + "|" + sourceFile + "|" + Dec(offset) + "|" + TrimSpace(rawLine)
  }

  function IdempotencyKey(h: Hash, app: string, sourceFile: string, offset: nat, rawLine: string): Digest {
    h(KeyPreimage(app, sourceFile, offset, rawLine))
  }

  /** Within one forwarder, whose application name and source file are fixed, two lines share a key
      pre-image exactly when they end at the same offset and have the same trimmed text. */
  lemma KeyTellsLinesApart(app: string, sourceFile: string, offset: nat, line: string, offset': nat, line': string)
    ensures KeyPreimage(app, sourceFile, offset, line) == KeyPreimage(app, sourceFile, offset', line')
            <==> offset == offset' && TrimSpace(line) == TrimSpace(line')
  {
    var p := app + "|" + sourceFile + "|";
    var a, b := Dec(offset) + "|" + TrimSpace(line), Dec(offset') + "|" + TrimSpace(line');
    assert KeyPreimage(app, sourceFile, offset, line) == p + a;
    assert KeyPreimage(app, sourceFile, offset', line') == p + b;
    if p + a == p + b {
      SameTail(p, a, b);
      DecLacks(offset, '|');
      DecLacks(offset', '|');
      CutAtFirst('|', Dec(offset), TrimSpace(line), Dec(offset'), TrimSpace(line'));
      DecInjective(offset, offset');
    }
  }

  /** So, of one source, two lines get the same key exactly if they end at the same offset with the same
      trimmed text, unless the two hashed texts collide. */
  lemma KeysTellLinesApart(h: Hash, app: string, sourceFile: string, offset: nat, line: string, offset': nat, line': string)
    ensures var key, key' := IdempotencyKey(h, app, sourceFile, offset, line), IdempotencyKey(h, app, sourceFile, offset', line');
            && (offset == offset' && TrimSpace(line) == TrimSpace(line') ==> key == key')
            && (key == key' ==>
                  || (offset == offset' && TrimSpace(line) == TrimSpace(line'))
                  || Collision(h, KeyPreimage(app, sourceFile, offset, line), KeyPreimage(app, sourceFile, offset', line')))
  {
    KeyTellsLinesApart(app, sourceFile, offset, line, offset', line');
  }

  /** Across forwarders the bars are no safe separator: every source with a bar in one of its names
      shares each of its key pre-images with another source. */
  lemma BarredNameIsAmbiguous(app: string, file: string, offset: nat, line: string) returns (app': string, file': string)
    requires '|' in app || '|' in file
    ensures (app', file') != (app, file)
    ensures KeyPreimage(app', file', offset, line) == KeyPreimage(app, file, offset, line)
  {
    if '|' in app {
      var i := IndexOf(app, '|');
      app', file' := app[..i], app[i + 1..] + "|" + file;
      assert app == app' + "|" + app[i + 1..];
    } else {
      var i := IndexOf(file, '|');
      app', file' := app + "|" + file[..i], file[i + 1..];
      assert file == file[..i] + "|" + file';
    }
    assert app' + "|" + file' == app + "|" + file;
  }

  /** Sources whose names hold no bar are told apart, on top of their lines. */
  lemma KeyTellsSourcesApart(app: string, file: string, offset: nat, line: string, app': string, file': string, offset': nat, line': string)
    requires '|' !in app && '|' !in file && '|' !in app' && '|' !in file'
    requires KeyPreimage(app, file, offset, line) == KeyPreimage(app', file', offset', line')
    ensures app == app' && file == file' && offset == offset' && TrimSpace(line) == TrimSpace(line')
  {
    var a, a' := Dec(offset) + "|" + TrimSpace(line), Dec(offset') + "|" + TrimSpace(line');
    assert KeyPreimage(app, file, offset, line) == app + "|" + (file + "|" + a);
    assert KeyPreimage(app', file', offset', line') == app' + "|" + (file' + "|" + a');
    CutAtFirst('|', app, file + "|" + a, app', file' + "|" + a');
    CutAtFirst('|', file, a, file', a');
    KeyTellsLinesApart(app, file, offset, line, offset', line');
  }

  lemma {:induction false} OffsetsAscend(lives: seq<Life>, log: seq<Emission>, i: nat, j: nat)
    requires InOrder(lives, log) && i < j < |log| && log[i].boot == log[j].boot && log[i].life == log[j].life
    ensures log[i].event.committed < log[j].event.committed
  {
    CallsAscend(lives, log, i, j - 1);
    CallsAscend(lives, log, j - 1, j);
    assert Follows(lives, log, j);
    if i < j - 1 {
      OffsetsAscend(lives, log, i, j - 1);
    }
  }

  lemma {:induction false} CallsAscend(lives: seq<Life>, log: seq<Emission>, i: nat, j: nat)
    requires InOrder(lives, log) && i <= j < |log|
    ensures log[i].boot <= log[j].boot && log[i].life <= log[j].life
  {
    if i < j {
      CallsAscend(lives, log, i, j - 1);
      assert Follows(lives, log, j);
    }
  }

  /** Within one start of the process no two lines of a file, however alike, share a key pre-image; two
      lines share one if and only if a rotation or truncation lies between them and they end at the same
      offset with the same trimmed text. */
  lemma DuplicateKeysInOneBoot(path: string, app: string, first: Life, actions: seq<Action>, i: nat, j: nat)
    requires NoSkips(path, Init(first), actions)
    requires var log := Run(path, Init(first), actions).log; i < j < |log| && log[i].boot == log[j].boot
    ensures var log := Run(path, Init(first), actions).log;
            KeyPreimage(app, path, log[i].event.committed, log[i].event.line)
            == KeyPreimage(app, path, log[j].event.committed, log[j].event.line)
            <==>
            && log[i].life < log[j].life && log[i].event.committed == log[j].event.committed
            && TrimSpace(log[i].event.line) == TrimSpace(log[j].event.line)
  {
    InitOk(path, first);
    RunKeeps(path, Init(first), actions);
    var s := Run(path, Init(first), actions);
    CallsAscend(s.lives, s.log, i, j);
    if s.log[i].life == s.log[j].life {
      OffsetsAscend(s.lives, s.log, i, j);
    }
    KeyTellsLinesApart(app, path, s.log[i].event.committed, s.log[i].event.line, s.log[j].event.committed, s.log[j].event.line);
  }

  // ----- The callback and its counters -----

  class Forwarder {
    const h: Hash
    const app: string
    const sourceFile: string
    var linesRead: nat
    var parsedOK: nat
    var parseFailed: nat
    var deliverySuccess: nat
    var deliveryFailed: nat
    var deadLetterWrites: nat
    var duplicateKeys: nat
    var seen: set<string>
    var delivered: seq<TailEvent>    // accepted by the server
    var deadLetters: seq<TailEvent>  // appended to the dead-letter file

    /** Every line is counted once on each side, whatever became of it. */
    ghost predicate Valid()
      reads this
    {
      && linesRead == parseFailed + parsedOK
      && parsedOK == deliverySuccess + deliveryFailed
      && parsedOK == |seen| + duplicateKeys
      && |delivered| == deliverySuccess
      && |deadLetters| == deadLetterWrites <= deliveryFailed
    }

    /** Nothing was dropped: each line failed to parse, was delivered or was dead-lettered. */
    ghost predicate Balanced()
      reads this
    {
      Valid() && linesRead == parseFailed + deliverySuccess + deadLetterWrites
    }

    constructor (h: Hash, app: string, sourceFile: string)
      ensures Balanced() && linesRead == 0 && seen == {}
    {
      this.h, this.app, this.sourceFile := h, app, sourceFile;
      linesRead, parsedOK, parseFailed := 0, 0, 0;
      deliverySuccess, deliveryFailed, deadLetterWrites, duplicateKeys := 0, 0, 0, 0;
      seen, delivered, deadLetters := {}, [], [];
    }

    method MarkIdempotencyKey(key: string) returns (duplicate: bool)
      modifies this`seen, this`duplicateKeys
      ensures duplicate <==> key in old(seen)
      ensures seen == old(seen) + {key}
      ensures |seen| + duplicateKeys == |old(seen)| + old(duplicateKeys) + 1
      ensures duplicateKeys == old(duplicateKeys) + if duplicate then 1 else 0
    {
      if key in seen {
        duplicateKeys := duplicateKeys + 1;
        assert seen == old(seen) + {key};
        return true;
      }
      seen := seen + {key};
      return false;
    }

    /** One call; the parser, the server and the dead-letter file answer as given.  Only a failed
        dead-letter write is an error, and only then is the line neither delivered, kept nor counted
        as unparsed. */
    method OnLine(event: TailEvent, parses: bool, delivers: bool, deadLetterOk: bool) returns (outcome: Outcome)
      requires Valid()
      modifies this
      ensures Valid() && linesRead == old(linesRead) + 1
      ensures outcome == (if !parses then Unparsed else if delivers then Delivered
                          else if deadLetterOk then DeadLettered else Lost)
      ensures outcome != Lost && old(Balanced()) ==> Balanced()
      ensures outcome == Lost && old(Balanced()) ==> linesRead == parseFailed + deliverySuccess + deadLetterWrites + 1
      ensures delivered == if outcome == Delivered then old(delivered) + [event] else old(delivered)
      ensures deadLetters == if outcome == DeadLettered then old(deadLetters) + [event] else old(deadLetters)
      ensures seen == if parses then old(seen) + {IdempotencyKey(h, app, sourceFile, event.committed, event.line)} else old(seen)
      ensures parseFailed == old(parseFailed) + if outcome == Unparsed then 1 else 0
    {
      linesRead := linesRead + 1;
      if !parses {
        parseFailed := parseFailed + 1;
        return Unparsed;
      }
      parsedOK := parsedOK + 1;
      var key := IdempotencyKey(h, app, sourceFile, event.committed, event.line);
      var _ := MarkIdempotencyKey(key);
      assert parsedOK == |seen| + duplicateKeys;
      if !delivers {
        deliveryFailed := deliveryFailed + 1;
        if !deadLetterOk {
          return Lost;
        }
        deadLetters := deadLetters + [event];
        deadLetterWrites := deadLetterWrites + 1;
        return DeadLettered;
      }
      delivered := delivered + [event];
      deliverySuccess := deliverySuccess + 1;
      return Delivered;
    }
  }
}
