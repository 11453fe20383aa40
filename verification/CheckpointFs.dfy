/** SaveCheckpoint as file-system steps with a crash possible between any two of them
    (cmd/log-forwarder/checkpoint.go). */
module CheckpointFs {
  import opened Strings
  import opened Follower

  /** A file's bytes by what decoding them yields; Torn is anything undecodable. */
  datatype Content = Torn | Whole(cp: Checkpoint)

  datatype Inode = Inode(content: Content, synced: bool)

  /** Which inode the checkpoint path and its .tmp sibling name. */
  datatype Dir = Dir(final: Option<nat>, temp: Option<nat>)

  /** All inodes, and the directory's versions since its last effective sync: the first is on disk,
      the last is what processes see. */
  datatype Fs = Fs(inodes: seq<Inode>, dirs: seq<Dir>) {
    predicate Formed() {
      dirs != [] && forall i :: 0 <= i < |dirs| ==>
        (dirs[i].final.Some? ==> dirs[i].final.value < |inodes|) && (dirs[i].temp.Some? ==> dirs[i].temp.value < |inodes|)
    }

    function Now(): Dir
      requires Formed()
    {
      dirs[|dirs| - 1]
    }
  }

  /** What LoadCheckpoint makes of a decoded checkpoint. */
  function Seen(cp: Checkpoint): (r: Checkpoint)
    ensures r.offset >= 0 && r == cp.(offset := r.offset) && (cp.offset >= 0 ==> r == cp)
  {
    if cp.offset < 0 then cp.(offset := 0) else cp
  }

  /** LoadCheckpoint through one version of the directory. */
  function LoadVia(fs: Fs, d: Dir): Result<Checkpoint>
    requires d.final.Some? ==> d.final.value < |fs.inodes|
  {
    if d.final.None? then Ok(NO_CHECKPOINT) else
    match fs.inodes[d.final.value].content
    case Torn => Err("decode checkpoint")
    case Whole(cp) => Ok(Seen(cp))
  }

  function Load(fs: Fs): Result<Checkpoint>
    requires fs.Formed()
  {
    LoadVia(fs, fs.Now())
  }

  // ----- The six effects of SaveCheckpoint -----

  /** open with O_CREATE|O_TRUNC: an existing temp file is emptied, else a new one is made. */
  function OpenTemp(fs: Fs): Fs
    requires fs.Formed()
  {
    match fs.Now().temp
    case Some(i) => fs.(inodes := fs.inodes[i := Inode(Torn, false)])
    case None => Fs(fs.inodes + [Inode(Torn, false)], fs.dirs + [fs.Now().(temp := Some(|fs.inodes|))])
  }

  function WriteTemp(fs: Fs, cp: Checkpoint): Fs
    requires fs.Formed()
  {
    match fs.Now().temp
    case None => fs
    case Some(i) => fs.(inodes := fs.inodes[i := Inode(Whole(cp), false)])
  }

  /** fsync of the file; an ignored EINVAL or ENOTSUP leaves it without effect. */
  function SyncTemp(fs: Fs, effective: bool): Fs
    requires fs.Formed()
  {
    match fs.Now().temp
    case None => fs
    case Some(i) => if effective then fs.(inodes := fs.inodes[i := fs.inodes[i].(synced := true)]) else fs
  }

  function Rename(fs: Fs): Fs
    requires fs.Formed()
  {
    if fs.Now().temp.None? then fs else fs.(dirs := fs.dirs + [Dir(fs.Now().temp, None)])
  }

  function SyncDir(fs: Fs, effective: bool): Fs
    requires fs.Formed()
  {
    if effective then fs.(dirs := [fs.Now()]) else fs
  }

  /** What the syncs of one save achieve. */
  datatype Syncs = Syncs(file: bool, dir: bool)

  /** Effect number k of a save: open, write, sync, close, rename, sync the directory. */
  function Effect(fs: Fs, cp: Checkpoint, k: nat, y: Syncs): Fs
    requires fs.Formed()
  {
    if k == 0 then OpenTemp(fs)
    else if k == 1 then WriteTemp(fs, cp)
    else if k == 2 then SyncTemp(fs, y.file)
    else if k == 4 then Rename(fs)
    else if k == 5 then SyncDir(fs, y.dir)
    else fs
  }

  /** The first k effects. */
  function After(fs: Fs, cp: Checkpoint, k: nat, y: Syncs): (fs': Fs)
    requires fs.Formed()
    ensures fs'.Formed()
  {
    if k == 0 then fs else Effect(After(fs, cp, k - 1, y), cp, k - 1, y)
  }

  /** Power loss: the directory comes back as some version since its last sync, and every file not
      synced holds whatever `debris` says. */
  function PowerLoss(fs: Fs, pick: nat, debris: nat -> Content): Fs
    requires fs.Formed() && pick < |fs.dirs|
  {
    Fs(seq(|fs.inodes|, i requires 0 <= i < |fs.inodes| =>
             Inode(if fs.inodes[i].synced then fs.inodes[i].content else debris(i), true)),
       [fs.dirs[pick]])
  }

  // ----- Safety -----

  predicate Durable(fs: Fs, i: nat) { i < |fs.inodes| && fs.inodes[i].synced && fs.inodes[i].content.Whole? }

  /** In every version of the directory the checkpoint is complete and on disk, and the file that the
      next save may truncate is none of those checkpoints. */
  predicate Safe(fs: Fs) {
    && fs.Formed()
    && (forall v :: 0 <= v < |fs.dirs| ==> fs.dirs[v].final.Some? ==> Durable(fs, fs.dirs[v].final.value))
    && (forall v :: 0 <= v < |fs.dirs| ==> fs.dirs[v].final.Some? ==> fs.Now().temp != fs.dirs[v].final)
    && (forall v :: 0 <= v < |fs.dirs| ==> fs.dirs[v].final.Some? ==> fs.dirs[v].temp != fs.dirs[v].final)
  }

  /** What the temp file holds before effect k. */
  predicate Prepared(fs: Fs, cp: Checkpoint, k: nat)
    requires fs.Formed()
  {
    && (1 <= k <= 4 ==> fs.Now().temp.Some?)
    && (2 <= k <= 4 ==> fs.inodes[fs.Now().temp.value].content == Whole(cp))
    && (3 <= k <= 4 ==> fs.inodes[fs.Now().temp.value].synced)
  }

  /** A disk by what matters to a reader: the checkpoint a restarted process loads, and those a power
      loss may bring back. */
  datatype Disk = Disk(view: Checkpoint, fallback: set<Checkpoint>)

  ghost function DiskOf(fs: Fs): Disk
    requires Safe(fs)
  {
    Disk(Load(fs).value, set v | 0 <= v < |fs.dirs| :: LoadVia(fs, fs.dirs[v]).value)
  }

  /** The abstract effect: only the rename and the directory sync show. */
  function DiskEffect(d: Disk, cp: Checkpoint, k: nat, dirSynced: bool): Disk {
    if k == 4 then Disk(cp, d.fallback + {cp})
    else if k == 5 && dirSynced then Disk(d.view, {d.view})
    else d
  }

  lemma EffectVersions(fs: Fs, cp: Checkpoint, k: nat, y: Syncs)
    requires k < 6 && y.file && Safe(fs) && Prepared(fs, cp, k)
    ensures var fs' := Effect(fs, cp, k, y);
            && Safe(fs') && Prepared(fs', cp, k + 1)
            && Load(fs') == (if k == 4 then Ok(Seen(cp)) else Load(fs))
            && (k < 5 ==> |fs.dirs| <= |fs'.dirs| && forall v :: 0 <= v < |fs'.dirs| ==>
                  LoadVia(fs', fs'.dirs[v]) == if v < |fs.dirs| then LoadVia(fs, fs.dirs[v]) else Load(fs'))
            && (k == 4 ==> |fs'.dirs| > |fs.dirs|)
            && (k == 5 ==> fs'.dirs == if y.dir then [fs.Now()] else fs.dirs)
  {
    var fs' := Effect(fs, cp, k, y);
    assert fs'.Formed();
  }

  /** Each of the six effects, with an effective file sync, keeps the file system safe and refines its
      abstract effect: before the rename no version of the checkpoint changes, the rename makes the
      new one current while a power loss may still bring an old one back, and an effective directory
      sync settles it. */
  lemma EffectRefines(fs: Fs, cp: Checkpoint, k: nat, y: Syncs)
    requires k < 6 && y.file && Safe(fs) && Prepared(fs, cp, k)
    ensures var fs' := Effect(fs, cp, k, y);
            && Safe(fs') && Prepared(fs', cp, k + 1)
            && DiskOf(fs') == DiskEffect(DiskOf(fs), Seen(cp), k, y.dir)
  {
    EffectVersions(fs, cp, k, y);
    var fs' := Effect(fs, cp, k, y);
    var d, d' := DiskOf(fs), DiskOf(fs');
    assert d.view in d.fallback by {
      assert LoadVia(fs, fs.dirs[|fs.dirs| - 1]).value == d.view;
    }
    if k < 5 {
      forall c | c in d.fallback ensures c in d'.fallback {
        var v :| 0 <= v < |fs.dirs| && c == LoadVia(fs, fs.dirs[v]).value;
        assert LoadVia(fs', fs'.dirs[v]).value == c;
      }
      if k == 4 {
        assert LoadVia(fs', fs'.dirs[|fs'.dirs| - 1]).value == d'.view;
      }
      assert d'.fallback == DiskEffect(d, Seen(cp), k, y.dir).fallback;
    } else if y.dir {
      assert LoadVia(fs', fs'.dirs[0]).value == d.view;
      assert d'.fallback == {d.view};
    }
  }

  /** After a power loss the file system is safe again and shows one of the versions, settled. */
  lemma PowerLossRefines(fs: Fs, pick: nat, debris: nat -> Content)
    requires Safe(fs) && pick < |fs.dirs|
    ensures var fs' := PowerLoss(fs, pick, debris);
            var c := LoadVia(fs, fs.dirs[pick]).value;
            Safe(fs') && c in DiskOf(fs).fallback && DiskOf(fs') == Disk(c, {c})
  {
    var fs' := PowerLoss(fs, pick, debris);
    assert fs'.Formed();
    assert fs.dirs[pick].final.Some? ==> Durable(fs, fs.dirs[pick].final.value);
    assert LoadVia(fs', fs'.dirs[0]) == LoadVia(fs, fs.dirs[pick]);
    assert LoadVia(fs', fs'.dirs[0]).value == LoadVia(fs, fs.dirs[pick]).value;
  }

  function DiskAfter(d: Disk, cp: Checkpoint, k: nat, dirSynced: bool): Disk {
    if k == 0 then d else DiskEffect(DiskAfter(d, cp, k - 1, dirSynced), cp, k - 1, dirSynced)
  }

  lemma {:induction false} AfterRefines(fs: Fs, cp: Checkpoint, k: nat, y: Syncs)
    requires k <= 6 && y.file && Safe(fs)
    ensures Safe(After(fs, cp, k, y)) && Prepared(After(fs, cp, k, y), cp, k)
    ensures DiskOf(After(fs, cp, k, y)) == DiskAfter(DiskOf(fs), Seen(cp), k, y.dir)
  {
    if k > 0 {
      AfterRefines(fs, cp, k - 1, y);
      EffectRefines(After(fs, cp, k - 1, y), cp, k - 1, y);
    }
  }

  lemma DiskAfterShape(d: Disk, cp: Checkpoint, k: nat, dirSynced: bool)
    requires k <= 6
    ensures DiskAfter(d, cp, k, dirSynced)
            == if k <= 4 then d
               else if k == 6 && dirSynced then Disk(cp, {cp})
               else Disk(cp, d.fallback + {cp})
  {
    if k > 0 {
      DiskAfterShape(d, cp, k - 1, dirSynced);
    }
  }

  /** Wherever a save is cut short, the checkpoint loaded next is never torn, whatever stale temp file
      there was and however earlier saves ended: a killed process leaves the new one exactly from the
      rename on, a power loss brings back the new one from the rename on or one that it could have
      brought back before, and after a completed save with both syncs effective the new one stays. */
  lemma SaveIsAtomic(fs: Fs, cp: Checkpoint, k: nat, y: Syncs, pick: nat, debris: nat -> Content)
    requires Safe(fs) && k <= 6 && y.file && pick < |After(fs, cp, k, y).dirs|
    ensures Load(After(fs, cp, k, y)) == if k <= 4 then Load(fs) else Ok(Seen(cp))
    ensures var left := PowerLoss(After(fs, cp, k, y), pick, debris);
            && Safe(left) && Load(left).Ok?
            && Load(left).value in DiskOf(fs).fallback + {Seen(cp)}
            && (k <= 4 ==> Load(left).value in DiskOf(fs).fallback)
            && (k == 6 && y.dir ==> Load(left).value == Seen(cp))
  {
    AfterRefines(fs, cp, k, y);
    DiskAfterShape(DiskOf(fs), Seen(cp), k, y.dir);
    PowerLossRefines(After(fs, cp, k, y), pick, debris);
    assert Load(fs).Ok? && Load(After(fs, cp, k, y)).Ok?;
    assert DiskOf(PowerLoss(After(fs, cp, k, y), pick, debris)).view == Load(PowerLoss(After(fs, cp, k, y), pick, debris)).value;
  }

  predicate Leaves(fs: Fs, pick: nat, debris: nat -> Content, allowed: set<Checkpoint>)
    requires fs.Formed() && pick < |fs.dirs|
  {
    var left := PowerLoss(fs, pick, debris);
    left.Formed() && Load(left).Ok? && Load(left).value in allowed
  }

  /** A power loss brings back exactly the versions. */
  lemma ReturnsVersion(fs: Fs, pick: nat, debris: nat -> Content, allowed: set<Checkpoint>)
    requires Safe(fs) && pick < |fs.dirs|
    ensures Leaves(fs, pick, debris, allowed) <==> LoadVia(fs, fs.dirs[pick]).value in allowed
    ensures LoadVia(fs, fs.dirs[pick]).value in DiskOf(fs).fallback
  {
    PowerLossRefines(fs, pick, debris);
    var left := PowerLoss(fs, pick, debris);
    assert DiskOf(left).view == Load(left).value;
  }

  lemma ReturnsOnly(fs: Fs, debris: nat -> Content, allowed: set<Checkpoint>)
    requires Safe(fs)
    ensures (forall pick :: 0 <= pick < |fs.dirs| ==> Leaves(fs, pick, debris, allowed)) <==> DiskOf(fs).fallback <= allowed
  {
    forall pick | 0 <= pick < |fs.dirs|
      ensures Leaves(fs, pick, debris, allowed) <==> LoadVia(fs, fs.dirs[pick]).value in allowed
      ensures LoadVia(fs, fs.dirs[pick]).value in DiskOf(fs).fallback
    {
      ReturnsVersion(fs, pick, debris, allowed);
    }
  }

  /** Every power loss leaves the previous or the new checkpoint if and only if the save completed with
      an effective directory sync, or no older one was left that could come back. */
  lemma PreviousOrNewIff(fs: Fs, cp: Checkpoint, k: nat, y: Syncs, debris: nat -> Content)
    requires Safe(fs) && k <= 6 && y.file
    ensures var after := After(fs, cp, k, y);
            (forall pick :: 0 <= pick < |after.dirs| ==> Leaves(after, pick, debris, {Load(fs).value, Seen(cp)}))
            <==> (k == 6 && y.dir) || DiskOf(fs).fallback <= {Load(fs).value, Seen(cp)}
  {
    AfterRefines(fs, cp, k, y);
    DiskAfterShape(DiskOf(fs), Seen(cp), k, y.dir);
    ReturnsOnly(After(fs, cp, k, y), debris, {Load(fs).value, Seen(cp)});
  }

  /** And the file sync is what this rests on: where its failure was ignored, a power loss after the
      rename can leave a checkpoint that does not decode. */
  lemma IgnoredFileSyncMayTear(fs: Fs, cp: Checkpoint, y: Syncs) returns (pick: nat, debris: nat -> Content)
    requires Safe(fs) && !y.file
    ensures pick < |After(fs, cp, 5, y).dirs|
    ensures Load(PowerLoss(After(fs, cp, 5, y), pick, debris)).Err?
  {
    var two := WriteTemp(OpenTemp(fs), cp);
    UnsyncedSave(fs, cp, y);
    var five := After(fs, cp, 5, y);
    pick := |five.dirs| - 1;
    debris := (i: nat) => Torn;
    var i := two.Now().temp.value;
    assert five.dirs[pick] == Dir(Some(i), None) && !five.inodes[i].synced;
  }

  lemma UnsyncedSave(fs: Fs, cp: Checkpoint, y: Syncs)
    requires fs.Formed() && !y.file
    ensures var two := WriteTemp(OpenTemp(fs), cp);
            && two.Formed() && two.Now().temp.Some? && !two.inodes[two.Now().temp.value].synced
            && After(fs, cp, 5, y) == Rename(two)
  {
    var two := WriteTemp(OpenTemp(fs), cp);
    assert After(fs, cp, 1, y) == OpenTemp(fs);
    assert After(fs, cp, 2, y) == two;
    assert After(fs, cp, 3, y) == two;
    assert After(fs, cp, 4, y) == two;
  }

  // ----- The object -----

  class CheckpointFile {
    var fs: Fs

    constructor (fs: Fs)
      ensures this.fs == fs
    {
      this.fs := fs;
    }

    /** The temp file: open, write, sync, close. */
    method WriteOut(cp: Checkpoint, y: Syncs, fails: Option<nat>) returns (ghost k: nat)
      requires fs.Formed()
      modifies this
      ensures k == if fails.Some? && fails.value < 4 then fails.value else 4
      ensures fs == After(old(fs), cp, k, y)
    {
      if fails == Some(0) {
        return 0;
      }
      fs := OpenTemp(fs);
      assert fs == After(old(fs), cp, 1, y);
      if fails == Some(1) {
        return 1;
      }
      fs := WriteTemp(fs, cp);
      assert fs == After(old(fs), cp, 2, y);
      if fails == Some(2) {
        return 2;
      }
      fs := SyncTemp(fs, y.file);
      assert fs == After(old(fs), cp, 3, y);
      if fails == Some(3) {
        return 3;
      }
      return 4;
    }

    /** SaveCheckpoint; `fails` is the step whose system call reports an error, if any.  The file system
        is left after exactly the effects before that step. */
    method Save(cp: Checkpoint, y: Syncs, fails: Option<nat>) returns (ok: bool, ghost k: nat)
      requires fs.Formed()
      modifies this
      ensures k == if fails.Some? && fails.value < 6 then fails.value else 6
      ensures fs == After(old(fs), cp, k, y)
      ensures ok <==> k == 6
    {
      k := WriteOut(cp, y, fails);
      if fails.Some? && fails.value <= 4 {
        return false, fails.value;
      }
      fs := Rename(fs);
      assert fs == After(old(fs), cp, 5, y);
      if fails == Some(5) {
        return false, 5;
      }
      fs := SyncDir(fs, y.dir);
      return true, 6;
    }
  }
}
