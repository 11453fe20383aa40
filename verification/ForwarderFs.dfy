/** The forwarder on an actual file system: its runs with SaveCheckpoint's effects on inodes and
    directory versions are runs of the machine in Delivery (cmd/log-forwarder/checkpoint.go,
    follower.go). */
module ForwarderFs {
  import opened Strings
  import opened Follower
  import opened CheckpointFs
  import opened Delivery
  import opened Loss

  /** The checkpoint's file system, and everything else; the disk recorded in `rest` plays no part. */
  datatype Machine = Machine(fs: Fs, rest: State)

  datatype Event =
    | Plain(a: Action)                                // a step that does not touch the checkpoint
    | Starts                                          // the process starts, if the checkpoint decodes
    | SavesNext(dir: bool)                            // the next effect of a save, with an effective file sync
    | PowerFails(pick: nat, debris: nat -> Content)

  predicate IsPlain(a: Action) { !a.Boot? && !a.SaveStep? && !a.Outage? }

  predicate Formed(m: Machine) { m.fs.Formed() && m.rest.Formed() }

  function Next(path: string, m: Machine, v: Event): (m': Machine)
    requires Formed(m)
    ensures Formed(m')
  {
    match v
    case Plain(a) => if IsPlain(a) then m.(rest := Step(path, m.rest, a)) else m
    case Starts => if Load(m.fs).Err? then m else m.(rest := Started(path, m.rest, Load(m.fs).value))
    case SavesNext(dir) =>
      if m.rest.proc.Up? && m.rest.proc.phase.Saving? then
        Machine(Effect(m.fs, Current(path, m.rest), m.rest.proc.phase.k, Syncs(true, dir)), Saves(path, m.rest, dir))
      else m
    case PowerFails(pick, debris) =>
      if pick < |m.fs.dirs| then Machine(PowerLoss(m.fs, pick, debris), m.rest.(proc := Down)) else m
  }

  function Runs(path: string, m: Machine, events: seq<Event>): (m': Machine)
    requires Formed(m)
    ensures Formed(m')
    decreases |events|
  {
    if events == [] then m else Runs(path, Next(path, m, events[0]), events[1..])
  }

  // ----- The abstraction -----

  /** The file system is safe, and a save in progress has prepared its temp file. */
  predicate Sound(path: string, m: Machine) {
    && Formed(m) && Safe(m.fs)
    && (m.rest.proc.Up? && m.rest.proc.phase.Saving? ==>
          m.rest.proc.phase.k <= 5 && Prepared(m.fs, Current(path, m.rest), m.rest.proc.phase.k))
  }

  ghost function Abs(m: Machine): State
    requires Safe(m.fs)
  {
    m.rest.(disk := DiskOf(m.fs))
  }

  /** An action that is never possible. */
  function Nothing(s: State): Action { Grow(|s.lives|, "") }

  function AbsEvent(m: Machine, v: Event): Action
    requires Formed(m)
  {
    match v
    case Plain(a) => if IsPlain(a) then a else Nothing(m.rest)
    case Starts => Boot
    case SavesNext(dir) => SaveStep(dir)
    case PowerFails(pick, debris) =>
      if pick < |m.fs.dirs| && LoadVia(m.fs, m.fs.dirs[pick]).Ok? then Outage(LoadVia(m.fs, m.fs.dirs[pick]).value)
      else Nothing(m.rest)
  }

  lemma ReadsAside(s: State, d: Disk, n: nat)
    requires s.Formed()
    ensures Reads(s.(disk := d), n) == Reads(s, n).(disk := d)
  {
  }

  lemma EmitsAside(s: State, d: Disk, outcome: Outcome)
    requires s.Formed()
    ensures Emits(s.(disk := d), outcome) == Emits(s, outcome).(disk := d)
  {
  }

  lemma DiskPlaysNoPart(path: string, s: State, a: Action, d: Disk)
    requires s.Formed() && IsPlain(a)
    ensures Step(path, s.(disk := d), a) == Step(path, s, a).(disk := d)
  {
    if a.ReadSome? {
      ReadsAside(s, d, a.n);
    } else if a.Emit? {
      EmitsAside(s, d, a.outcome);
    }
  }

  /** A plain step leaves the save in progress as it is, ends it, or begins another. */
  lemma PlainKeepsSave(path: string, s: State, a: Action)
    requires s.Formed() && IsPlain(a)
    ensures var p' := Step(path, s, a).proc;
            p'.Up? && p'.phase.Saving? ==>
              p'.phase == Saving(0)
              || (s.proc.Up? && s.proc.phase == p'.phase && Current(path, Step(path, s, a)) == Current(path, s))
  {
  }

  lemma PlainSimulates(path: string, m: Machine, a: Action)
    requires Sound(path, m) && IsPlain(a)
    ensures Sound(path, Next(path, m, Plain(a))) && Abs(Next(path, m, Plain(a))) == Step(path, Abs(m), a)
  {
    DiskPlaysNoPart(path, m.rest, a, DiskOf(m.fs));
    PlainKeepsSave(path, m.rest, a);
  }

  lemma SaveSimulates(path: string, m: Machine, dir: bool)
    requires Sound(path, m)
    ensures Sound(path, Next(path, m, SavesNext(dir))) && Abs(Next(path, m, SavesNext(dir))) == Step(path, Abs(m), SaveStep(dir))
  {
    if m.rest.proc.Up? && m.rest.proc.phase.Saving? {
      EffectRefines(m.fs, Current(path, m.rest), m.rest.proc.phase.k, Syncs(true, dir));
    }
  }

  lemma PowerFailsSimulates(path: string, m: Machine, pick: nat, debris: nat -> Content)
    requires Sound(path, m)
    ensures var v := PowerFails(pick, debris);
            Sound(path, Next(path, m, v)) && Abs(Next(path, m, v)) == Step(path, Abs(m), AbsEvent(m, v))
  {
    if pick < |m.fs.dirs| {
      PowerLossRefines(m.fs, pick, debris);
      assert LoadVia(m.fs, m.fs.dirs[pick]).Ok?;
    }
  }

  /** Every event of the concrete machine is the corresponding step of the abstract one. */
  lemma NextSimulates(path: string, m: Machine, v: Event)
    requires Sound(path, m)
    ensures Sound(path, Next(path, m, v)) && Abs(Next(path, m, v)) == Step(path, Abs(m), AbsEvent(m, v))
  {
    match v
    case Plain(a) =>
      if IsPlain(a) {
        PlainSimulates(path, m, a);
      }
    case Starts => assert Load(m.fs).Ok?;
    case SavesNext(dir) => SaveSimulates(path, m, dir);
    case PowerFails(pick, debris) => PowerFailsSimulates(path, m, pick, debris);
  }

  /** So every run is one of the abstract machine, and all that is proved of those holds of it. */
  lemma {:induction false} RunsSimulate(path: string, m: Machine, events: seq<Event>) returns (actions: seq<Action>)
    requires Sound(path, m)
    ensures Sound(path, Runs(path, m, events)) && Abs(Runs(path, m, events)) == Run(path, Abs(m), actions)
    ensures |actions| == |events|
    ensures (forall i :: 0 <= i < |events| && events[i].Plain? ==> !events[i].a.Rotate? && !events[i].a.Truncate?) ==> AppendOnly(actions)
    decreases |events|
  {
    if events == [] {
      actions := [];
    } else {
      NextSimulates(path, m, events[0]);
      var rest := RunsSimulate(path, Next(path, m, events[0]), events[1..]);
      actions := [AbsEvent(m, events[0])] + rest;
      assert actions[1..] == rest;
    }
  }

  /** A file system without a checkpoint; a stale temp file may lie about. */
  function Empty(inodes: seq<Inode>, temp: Option<nat>): Fs { Fs(inodes, [Dir(None, temp)]) }

  /** For instance: on a source file that only grows, an idle forwarder has handed every complete line
      over, wherever its saves were cut short by kills and power failures. */
  lemma AtLeastOnceOnDisk(path: string, first: Life, inodes: seq<Inode>, temp: Option<nat>, events: seq<Event>)
    requires temp.Some? ==> temp.value < |inodes|
    requires forall i :: 0 <= i < |events| && events[i].Plain? ==> !events[i].a.Rotate? && !events[i].a.Truncate?
    requires Idle(Runs(path, Machine(Empty(inodes, temp), Init(first)), events).rest)
    ensures AllEmitted(Runs(path, Machine(Empty(inodes, temp), Init(first)), events).rest)
  {
    var m := Machine(Empty(inodes, temp), Init(first));
    assert LoadVia(m.fs, m.fs.dirs[0]).value == NO_CHECKPOINT;
    assert DiskOf(m.fs).fallback == {NO_CHECKPOINT};
    assert Abs(m) == Init(first);
    var actions := RunsSimulate(path, m, events);
    AtLeastOnce(path, first, actions);
    SameLines(Runs(path, m, events).rest, Run(path, Init(first), actions));
  }

  lemma SameLines(s: State, s': State)
    requires s.lives == s'.lives && s.log == s'.log
    ensures AllEmitted(s') ==> AllEmitted(s)
  {
    assert forall i: nat, o: nat, e :: Line(s, i, o, e) ==> Line(s', i, o, e);
  }
}
