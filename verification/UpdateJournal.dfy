/**
 The weight-update journal on a disk that may fail any operation and lose power between any two.
 `Disk` is one durable directory holding the journal file and its temporary file; `UpdateJournal`
 drives it in the router's order: write, fsync, rename (or unlink), fsync the directory.
 */
module UpdateJournal {
  import opened RouterTypes

  /** What a read returns now, and every document a host crash right now could leave behind. */
  datatype JournalState = JournalState(visible: JournalDoc, durable: set<JournalDoc>) {
    /** No matter when the host crashes, the surviving document blocks all of `ids`. */
    predicate Guards(ids: set<WorkerId>) {
      && (forall id :: id in ids ==> visible.Blocks(id))
      && (forall doc, id :: doc in durable && id in ids ==> doc.Blocks(id))
    }
  }

  /**
   What one replace or unlink of the journal may do. A reported success is durable; a reported
   failure may already be visible and may or may not survive a crash.
   */
  predicate JournalWrite(before: JournalState, after: JournalState, doc: JournalDoc, ok: bool) {
    if ok then after == JournalState(doc, {doc})
    else after == before || after == JournalState(doc, before.durable + {doc})
  }

  /** `discard`: drop one id; an entry left without ids is unlinked. */
  function WithoutId(doc: JournalDoc, id: WorkerId): JournalDoc
    requires !doc.Unreadable?
  {
    if doc.Absent? || doc.ids <= {id} then Absent else Entry(doc.ids - {id})
  }

  /** The JSON document: the admin path of the operation, and the unresolved targets. */
  datatype Document = Document(path: Option<string>, ids: set<WorkerId>)

  /** File contents; `Torn` is a write that has not finished, `Garbage` came from outside. */
  datatype FileData = Torn | Garbage | Whole(document: Document) {
    function Read(): JournalDoc {
      if Whole? then Entry(document.ids) else Unreadable
    }
  }

  type Inode = nat

  class Disk {
    var entry: Option<Inode>             // what the journal's name refers to
    var temp: Option<Inode>              // what the temporary name refers to
    var data: map<Inode, FileData>
    var synced: set<Inode>               // inodes whose contents are on the platter
    var after: set<Option<Inode>>        // entries of the journal's name a crash could leave
    var unused: Inode                    // no file has this inode or a larger one
    ghost var outcomes: set<JournalDoc>  // every document a crash could have left since the last mark
    ghost var faults: nat                // how many operations have failed

    ghost predicate Valid()
      reads this
    {
      && entry in after
      && (forall e :: e in after && e.Some? ==> e.value in data && e.value in synced && !data[e.value].Torn?)
      && (temp.Some? ==> temp.value in data && temp !in after)
      && (forall i :: i in data ==> i < unused)
    }

    ghost function Found(e: Option<Inode>): JournalDoc
      reads this
    {
      if e.None? then Absent
      else if e.value in data && e.value in synced then data[e.value].Read()
      else Unreadable
    }

    ghost function State(): JournalState
      reads this
    {
      JournalState(Found(entry), set e | e in after :: Found(e))
    }

    constructor ()
      ensures Valid() && State() == JournalState(Absent, {Absent}) && outcomes == {} && faults == 0
    {
      entry, temp, data := None, None, map[];
      synced, after, unused, outcomes, faults := {}, {None}, 0, {}, 0;
    }

    /** Create or truncate the temporary file. */
    method OpenTemp() returns (ok: bool)
      requires Valid()
      modifies this
      ensures Valid() && State() == old(State()) && entry == old(entry)
      ensures outcomes == old(outcomes) + State().durable
      ensures faults == old(faults) + if ok then 0 else 1
      ensures ok ==> temp.Some?
      ensures after == old(after)
    {
      ok := *;
      faults := if ok then faults else faults + 1;
      if ok {
        var i := if temp.Some? then temp.value else unused;
        temp, data, synced := Some(i), data[i := Torn], synced - {i};
        unused := if unused == i then unused + 1 else unused;
      }
      SameDurable();
      outcomes := outcomes + State().durable;
    }

    /** Write the document; a failure leaves the temporary file torn. */
    method WriteTemp(document: Document) returns (ok: bool)
      requires Valid() && temp.Some?
      modifies this
      ensures Valid() && State() == old(State()) && entry == old(entry) && temp == old(temp)
      ensures outcomes == old(outcomes) + State().durable
      ensures faults == old(faults) + if ok then 0 else 1
      ensures ok ==> data[temp.value] == Whole(document)
      ensures after == old(after)
    {
      ok := *;
      faults := if ok then faults else faults + 1;
      data := data[temp.value := if ok then Whole(document) else Torn];
      synced := synced - {temp.value};
      SameDurable();
      outcomes := outcomes + State().durable;
    }

    method SyncTemp() returns (ok: bool)
      requires Valid() && temp.Some?
      modifies this
      ensures Valid() && State() == old(State()) && entry == old(entry) && temp == old(temp) && data == old(data)
      ensures outcomes == old(outcomes) + State().durable
      ensures faults == old(faults) + if ok then 0 else 1
      ensures ok ==> temp.value in synced
      ensures after == old(after)
    {
      ok := *;
      faults := if ok then faults else faults + 1;
      if ok {
        synced := synced + {temp.value};
      }
      SameDurable();
      outcomes := outcomes + State().durable;
    }

    /** Rename the temporary file over the journal: atomic, but not durable yet. */
    method Replace() returns (ok: bool)
      requires Valid() && temp.Some? && temp.value in synced && data[temp.value].Whole?
      modifies this
      ensures Valid() && data == old(data)
      ensures !ok ==> State() == old(State()) && entry == old(entry)
      ensures ok ==> entry == old(temp)
      ensures ok ==> State() == JournalState(data[old(temp).value].Read(),
                                  old(State()).durable + {data[old(temp).value].Read()})
      ensures outcomes == old(outcomes) + State().durable
      ensures faults == old(faults) + if ok then 0 else 1
    {
      ok := *;
      faults := if ok then faults else faults + 1;
      if ok {
        entry, temp, after := temp, None, after + {temp};
        assert State().durable == old(State()).durable + {Found(entry)};
      }
      outcomes := outcomes + State().durable;
    }

    /** Remove the journal's name. `missing` reports that there was none. */
    method Unlink() returns (ok: bool, missing: bool)
      requires Valid()
      modifies this
      ensures Valid() && data == old(data)
      ensures missing <==> old(entry).None?
      ensures missing ==> !ok
      ensures !ok ==> State() == old(State()) && entry == old(entry)
      ensures ok ==> State() == JournalState(Absent, old(State()).durable + {Absent})
      ensures outcomes == old(outcomes) + State().durable
      ensures faults == old(faults) + if ok || missing then 0 else 1
    {
      missing := entry.None?;
      ok := *;
      faults := if ok || missing then faults else faults + 1;
      ok := ok && !missing;
      if ok {
        entry, after := None, after + {None};
        assert State().durable == old(State()).durable + {Found(None)};
      }
      outcomes := outcomes + State().durable;
    }

    /** Make the current directory entry the only one a crash can leave. */
    method SyncDirectory() returns (ok: bool)
      requires Valid()
      modifies this
      ensures Valid() && data == old(data) && entry == old(entry)
      ensures State().visible == old(State()).visible
      ensures State().durable == if ok then {State().visible} else old(State()).durable
      ensures outcomes == old(outcomes) + State().durable
      ensures faults == old(faults) + if ok then 0 else 1
    {
      ok := *;
      faults := if ok then faults else faults + 1;
      if ok {
        after := {entry};
        assert State().durable == {Found(entry)};
      }
      outcomes := outcomes + State().durable;
    }

    /** Power loss and restart: one of the possible entries survives, perhaps beside a stale temporary file. */
    method Crash()
      requires Valid()
      modifies this
      ensures Valid()
      ensures State().visible in old(State()).durable
      ensures State().durable == {State().visible} && faults == old(faults)
    {
      var kept :| kept in after;
      var stale: bool := *;
      entry, after := kept, {kept};
      temp := if stale && temp != kept then temp else None;
      assert Found(kept) == old(Found(kept));
      assert State().durable == {Found(kept)};
    }

    twostate lemma SameDurable()
      requires after == old(after) && entry == old(entry) && entry in after
      requires forall e :: e in after && e.Some? ==>
        && e.value in old(data) && e.value in data && data[e.value] == old(data)[e.value]
        && e.value in old(synced) && e.value in synced
      ensures State() == old(State())
    {
      assert forall e :: e in after ==> Found(e) == old(Found(e));
    }
  }

  /** Unless the disk failed an operation the journal does what it was asked to. */
  twostate predicate SucceedsUnlessFaulty(disk: Disk, ok: bool)
    reads disk
  {
    && (ok <==> disk.faults == old(disk.faults))
    && old(disk.faults) <= disk.faults
  }

  class UpdateJournal {
    const disk: Disk

    constructor (disk: Disk)
      ensures this.disk == disk
    {
      this.disk := disk;
    }

    ghost function State(): JournalState
      reads disk
    {
      disk.State()
    }

    /** The admin path recorded in a readable document. */
    ghost function AdminPath(): Option<string>
      reads disk
    {
      if disk.entry.Some? && disk.entry.value in disk.data && disk.data[disk.entry.value].Whole?
      then disk.data[disk.entry.value].document.path
      else None
    }

    method ReadDocument() returns (found: Option<FileData>)
      requires disk.Valid()
      ensures found.None? <==> disk.entry.None?
      ensures found.Some? ==> found.value == disk.data[disk.entry.value]
      ensures State().visible == if found.None? then Absent else found.value.Read()
    {
      found := if disk.entry.None? then None else Some(disk.data[disk.entry.value]);
    }

    /** Absent counts as an empty entry; `None` is the unreadable case. */
    method Pending() returns (ids: Option<set<WorkerId>>)
      requires disk.Valid()
      ensures ids.None? <==> State().visible.Unreadable?
      ensures State().visible.Absent? ==> ids == Some({})
      ensures State().visible.Entry? ==> ids == Some(State().visible.ids)
    {
      var found := ReadDocument();
      ids := if found.None? then Some({}) else if found.value.Whole? then Some(found.value.document.ids) else None;
    }

    method HasPending() returns (pending: bool)
      requires disk.Valid()
      ensures pending <==> State().visible.HasPending()
      ensures pending <==> State().visible.Unreadable? || (State().visible.Entry? && State().visible.ids != {})
    {
      var ids := Pending();
      pending := ids.None? || ids.value != {};
    }

    /** Whatever a crash at any point could leave is the old document or the new one. */
    method Write(document: Document) returns (ok: bool)
      requires disk.Valid()
      modifies disk
      ensures disk.Valid()
      ensures JournalWrite(old(State()), State(), Entry(document.ids), ok)
      ensures SucceedsUnlessFaulty(disk, ok)
      ensures disk.outcomes <= old(disk.outcomes) + old(State()).durable + {Entry(document.ids)}
      ensures ok ==> AdminPath() == document.path
    {
      ok := disk.OpenTemp();
      if !ok { return; }
      ok := disk.WriteTemp(document);
      if !ok { return; }
      ok := disk.SyncTemp();
      if !ok { return; }
      ok := disk.Replace();
      if !ok { return; }
      ok := disk.SyncDirectory();
    }

    method Begin(path: string, ids: set<WorkerId>) returns (ok: bool)
      requires disk.Valid()
      modifies disk
      ensures disk.Valid()
      ensures JournalWrite(old(State()), State(), Entry(ids), ok)
      ensures SucceedsUnlessFaulty(disk, ok)
      ensures disk.outcomes <= old(disk.outcomes) + old(State()).durable + {Entry(ids)}
      ensures ok ==> AdminPath() == Some(path)
    {
      ok := Write(Document(Some(path), ids));
    }

    /** Unlinking an absent journal still syncs: an earlier unlink may not have been durable. */
    method Clear() returns (ok: bool)
      requires disk.Valid()
      modifies disk
      ensures disk.Valid()
      ensures JournalWrite(old(State()), State(), Absent, ok)
      ensures SucceedsUnlessFaulty(disk, ok)
      ensures disk.outcomes <= old(disk.outcomes) + old(State()).durable + {Absent}
    {
      var removed, missing := disk.Unlink();
      if !removed && !missing {
        return false;
      }
      ok := disk.SyncDirectory();
    }

    /** Narrow the target set to `ids`, keeping the admin path of the interrupted operation. */
    method Keep(ids: set<WorkerId>) returns (ok: bool)
      requires disk.Valid()
      modifies disk
      ensures disk.Valid()
      ensures JournalWrite(old(State()), State(), if ids == {} then Absent else Entry(ids), ok)
      ensures SucceedsUnlessFaulty(disk, ok)
      ensures disk.outcomes <= old(disk.outcomes) + old(State()).durable + {if ids == {} then Absent else Entry(ids)}
      ensures ok && ids != {} ==> AdminPath() == old(AdminPath())
    {
      if ids == {} {
        ok := Clear();
        return;
      }
      var found := ReadDocument();
      var path := if found.Some? && found.value.Whole? then found.value.document.path else None;
      ok := Write(Document(path, ids));
    }

    /**
     True means exactly `id` is gone, durably, and every other id is still pending. An unreadable
     journal is left alone.
     */
    method Discard(id: WorkerId) returns (ok: bool)
      requires disk.Valid()
      modifies disk
      ensures disk.Valid()
      ensures old(State()).visible.Unreadable? ==> !ok && State() == old(State()) && disk.faults == old(disk.faults)
      ensures !old(State()).visible.Unreadable? ==> SucceedsUnlessFaulty(disk, ok)
      ensures !old(State()).visible.Unreadable? ==>
        && JournalWrite(old(State()), State(), WithoutId(old(State()).visible, id), ok)
        && disk.outcomes <= old(disk.outcomes) + old(State()).durable + {WithoutId(old(State()).visible, id)}
      ensures old(State()).visible.Unreadable? ==> disk.outcomes == old(disk.outcomes)
      ensures ok ==> forall w :: State().visible.Blocks(w) <==> old(State()).visible.Blocks(w) && w != id
    {
      var ids := Pending();
      if ids.None? {
        return false;
      }
      ok := Keep(ids.value - {id});
    }
  }
}
