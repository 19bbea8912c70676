/** The one file through which the control plane hands its registry to the data planes. */
module SnapshotFile {
  import opened RouterTypes

  /** A file: its identity (inode, size, time), and its snapshot or nothing that parses. */
  datatype FileImage = FileImage(fingerprint: nat, content: Option<Snapshot>)

  /** The reader ignores a snapshot that is not newer inside its own epoch and takes any other. */
  predicate ReaderAccepts(current: Option<Snapshot>, next: Snapshot) {
    current.None? || next.epoch != current.value.epoch || next.seqno > current.value.seqno
  }

  /** A reader with no fingerprint to remember, which parses whatever it opens. */
  predicate TakenByParsing(current: Option<Snapshot>, file: FileImage) {
    file.content.Some? && ReaderAccepts(current, file.content.value)
  }

  // ---------------------------------------------------------------- the writer

  /** Every file the published name ever referred to, oldest first; each has an identity of its own. */
  type History = seq<FileImage>

  predicate OwnIdentities(history: History) {
    forall i, j :: 0 <= i < j < |history| ==> history[i].fingerprint < history[j].fingerprint
  }

  predicate SameEpoch(a: FileImage, b: FileImage) {
    a.content.Some? && b.content.Some? && a.content.value.epoch == b.content.value.epoch
  }

  /** Inside one epoch later files carry larger numbers. */
  predicate InOrder(history: History) {
    forall i, j :: 0 <= i < j < |history| && SameEpoch(history[i], history[j]) ==>
      history[i].content.value.seqno < history[j].content.value.seqno
  }

  /** Nothing published in this epoch has a number above `seqno`. */
  predicate UpTo(history: History, epoch: nat, seqno: nat) {
    forall k :: 0 <= k < |history| && history[k].content.Some? && history[k].content.value.epoch == epoch ==>
      history[k].content.value.seqno <= seqno
  }

  /** The directory of the snapshot. Whoever opens the published name gets the last file of `history`. */
  class SnapshotDirectory {
    var published: Option<FileImage>
    var temp: Option<FileImage>
    var unused: nat
    var history: History

    ghost predicate Valid()
      reads this
    {
      && OwnIdentities(history)
      && (forall k :: 0 <= k < |history| ==> history[k].fingerprint < unused)
      && (published == if history == [] then None else Some(history[|history| - 1]))
      && (temp.Some? ==> temp.value.fingerprint < unused && forall k :: 0 <= k < |history| ==>
            history[k].fingerprint < temp.value.fingerprint)
    }

    constructor ()
      ensures Valid() && history == [] && temp == None
    {
      published, temp, unused, history := None, None, 0, [];
    }

    /** Opening for writing leaves a file with nothing that parses; the published name is not touched. */
    method OpenTemp()
      requires Valid()
      modifies this`temp, this`unused
      ensures Valid() && temp.Some? && temp.value.content.None?
    {
      temp := Some(FileImage(unused, None));
      unused := unused + 1;
    }

    /** The whole text arrives, or the write fails part of the way. */
    method WriteTemp(snapshot: Snapshot, ok: bool)
      requires Valid() && temp.Some?
      modifies this`temp
      ensures Valid() && temp.Some? && (ok ==> temp.value.content == Some(snapshot))
      ensures !ok ==> temp == old(temp)
    {
      if ok {
        temp := Some(temp.value.(content := Some(snapshot)));
      }
    }

    /** The rename: in one step the published name refers to the temporary file. */
    method Replace(ok: bool)
      requires Valid() && temp.Some?
      modifies this
      ensures Valid()
      ensures ok ==> history == old(history) + [old(temp).value] && published == old(temp) && temp == None
      ensures !ok ==> history == old(history) && published == old(published) && temp == old(temp)
    {
      if ok {
        published, temp, history := temp, None, history + [temp.value];
      }
    }

    method UnlinkTemp()
      requires Valid()
      modifies this`temp
      ensures Valid() && temp == None
    {
      hide OwnIdentities;
      temp := None;
    }
  }

  /** How far a publication gets before something fails. */
  datatype Fails = Nowhere | AtOpen | AtWrite | AtRename

  class SnapshotWriter {
    const epoch: nat
    const directory: SnapshotDirectory
    var seqno: nat

    constructor (epoch: nat, directory: SnapshotDirectory)
      ensures this.epoch == epoch && this.directory == directory && seqno == 0
    {
      this.epoch, this.directory, seqno := epoch, directory, 0;
    }

    /**
     The number advances even when publishing fails. Whatever fails, whoever opens the file at any moment
     finds the old snapshot or the new one: the name moves once, to a file written whole, or not at all.
     */
    method Publish(workers: Registry, fails: Fails) returns (ok: bool)
      requires directory.Valid()
      modifies this, directory
      ensures directory.Valid() && directory.temp == None
      ensures ok <==> fails == Nowhere
      ensures seqno == old(seqno) + 1
      ensures !ok ==> directory.history == old(directory.history) && directory.published == old(directory.published)
      ensures old(InOrder(directory.history) && UpTo(directory.history, epoch, seqno)) ==>
        InOrder(directory.history) && UpTo(directory.history, epoch, seqno)
      ensures ok ==>
        && |directory.history| == |old(directory.history)| + 1
        && directory.published == Some(directory.history[|directory.history| - 1])
        && directory.history[..|old(directory.history)|] == old(directory.history)
        && directory.published.Some?
        && directory.published.value.content == Some(Snapshot(epoch, seqno, workers))
    {
      hide SnapshotDirectory.Valid, OwnIdentities;
      seqno := seqno + 1;
      var snapshot := Snapshot(epoch, seqno, workers);
      if fails == AtOpen {
        directory.UnlinkTemp();
        return false;
      }
      directory.OpenTemp();
      directory.WriteTemp(snapshot, fails != AtWrite);
      if fails == AtWrite {
        directory.UnlinkTemp();
        return false;
      }
      directory.Replace(fails != AtRename);
      if fails == AtRename {
        directory.UnlinkTemp();
        return false;
      }
      return true;
    }
  }

  // ---------------------------------------------------------------- the reader

  /** One poll: the file found by `stat` and the one then opened, by their place in the history. */
  datatype Look = Look(atStat: Option<nat>, atOpen: Option<nat>)

  /** The file found has the identity of the last one that parsed, so it is not opened. */
  predicate Skips(history: History, look: Look, last: Option<nat>)
    requires look.atStat.Some? ==> look.atStat.value < |history|
  {
    look.atStat.Some? && last == Some(history[look.atStat.value].fingerprint)
  }

  class SnapshotReader {
    var lastFingerprint: Option<nat>
    var snapshot: Option<Snapshot>
    ghost var seen: nat  // no file before this one will be found again

    /** If the file with the remembered identity may still be there, what it holds has been dealt with. */
    ghost predicate Valid(history: History)
      reads this
    {
      && (lastFingerprint.Some? ==> exists k :: 0 <= k < |history| && lastFingerprint == Some(history[k].fingerprint))
      && (forall k :: seen <= k < |history| && lastFingerprint == Some(history[k].fingerprint) ==>
            !TakenByParsing(snapshot, history[k]))
    }

    /** It holds a snapshot found at `seen` or before, and the file it would skip there holds that very one. */
    ghost predicate Follows(history: History)
      reads this
    {
      && (snapshot.Some? ==> exists k :: 0 <= k < |history| && k <= seen && history[k].content == snapshot)
      && (forall k :: seen <= k < |history| && lastFingerprint == Some(history[k].fingerprint) ==>
            history[k].content.Some? && history[k].content == snapshot)
    }

    /** Files published meanwhile have identities of their own. */
    lemma MorePublished(history: History, longer: History)
      requires Valid(history) && history <= longer && OwnIdentities(longer)
      ensures Valid(longer)
      ensures Follows(history) ==> Follows(longer)
    {
      if lastFingerprint.Some? {
        var k :| 0 <= k < |history| && lastFingerprint == Some(history[k].fingerprint);
        assert longer[k] == history[k];
      }
    }

    constructor ()
      ensures snapshot == None && seen == 0 && forall history :: Valid(history) && Follows(history)
    {
      lastFingerprint, snapshot, seen := None, None, 0;
    }

    /**
     The file may be replaced, or vanish, between the `stat` and the `open`, and any file may fail to
     parse. A file skipped for its identity had nothing to take, and one that is opened is taken exactly
     as by a reader that remembers no identity; so polling misses nothing. With files published in order
     the reader afterwards holds exactly what the file it dealt with holds, whatever it held before.
     */
    method MaybeReload(history: History, look: Look) returns (reloaded: bool)
      requires OwnIdentities(history) && Valid(history)
      requires look.atStat.Some? ==> seen <= look.atStat.value < |history|
      requires look.atOpen.Some? ==> seen <= look.atOpen.value < |history|
      requires look.atStat.Some? && look.atOpen.Some? ==> look.atStat.value <= look.atOpen.value
      modifies this
      ensures Valid(history)
      ensures Skips(history, look, old(lastFingerprint)) ==> !TakenByParsing(old(snapshot), history[look.atStat.value])
      ensures reloaded <==>
        && look.atStat.Some? && look.atOpen.Some? && !Skips(history, look, old(lastFingerprint))
        && TakenByParsing(old(snapshot), history[look.atOpen.value])
      ensures snapshot == if reloaded then history[look.atOpen.value].content else old(snapshot)
      ensures old(Follows(history)) && InOrder(history) ==>
        && Follows(history)
        && (Skips(history, look, old(lastFingerprint)) ==> snapshot == history[look.atStat.value].content)
        && (look.atStat.Some? && look.atOpen.Some? && !Skips(history, look, old(lastFingerprint)) ==>
              history[look.atOpen.value].content.Some? ==> snapshot == history[look.atOpen.value].content)
      ensures old(seen) <= seen
      ensures look.atStat.Some? ==> seen == look.atStat.value || look.atOpen == Some(seen)
    {
      if look.atStat.None? {
        return false;
      }
      var fingerprint := history[look.atStat.value].fingerprint;
      seen := look.atStat.value;
      if lastFingerprint == Some(fingerprint) {
        return false;
      }
      if look.atOpen.None? {
        return false;
      }
      seen := look.atOpen.value;
      var content := history[look.atOpen.value].content;
      if content.None? {
        return false;
      }
      lastFingerprint := Some(fingerprint);
      var next := content.value;
      if snapshot.Some? && next.epoch == snapshot.value.epoch && next.seqno <= snapshot.value.seqno {
        return false;
      }
      snapshot := Some(next);
      return true;
    }
  }

  /**
   A published snapshot is taken by the next poll that finds it, whatever the reader held and remembered:
   an older snapshot of the same epoch, one of another epoch, or none.
   */
  method PublishThenReload(writer: SnapshotWriter, reader: SnapshotReader, workers: Registry)
    requires writer.directory.Valid() && InOrder(writer.directory.history)
    requires UpTo(writer.directory.history, writer.epoch, writer.seqno)
    requires reader.Valid(writer.directory.history) && reader.Follows(writer.directory.history)
    requires reader.seen <= |writer.directory.history|
    modifies writer, writer.directory, reader
    ensures reader.snapshot == Some(Snapshot(writer.epoch, writer.seqno, workers))
    ensures writer.seqno == old(writer.seqno) + 1
  {
    var before := writer.directory.history;
    var ok := writer.Publish(workers, Nowhere);
    var history := writer.directory.history;
    assert before <= history;
    reader.MorePublished(before, history);
    var last := |history| - 1;
    var reloaded := reader.MaybeReload(history, Look(Some(last), Some(last)));
  }
}
